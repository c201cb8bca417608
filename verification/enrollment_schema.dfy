/** The request bodies of schemas/enrollment.py: the creation request, whose
    only numeric field is an optional personal discount, and the partial
    update, whose balance validator has no clamp at zero. */
module EnrollmentSchema {
  import opened Common
  import opened Enums
  import EnrollmentModel

  /** The creation request. The payment mode and the form URL it also
      carries are not fields of the enrollment record and play no part in
      pricing. */
  datatype EnrollmentCreate = EnrollmentCreate(
    estudianteId: Id,
    cursoId: Id,
    esEstudianteInterno: TipoEstudiante,
    descuentoPersonalizado: Option<real>)

  /** The only bound of the creation request: a personal discount, when
      given, is a percentage. */
  function ValidarEnrollmentCreate(c: EnrollmentCreate): (r: Outcome)
    ensures r.Pass? <==> c.descuentoPersonalizado.None? || 0.0 <= c.descuentoPersonalizado.value <= 100.0
  {
    if c.descuentoPersonalizado.Some? && !(0.0 <= c.descuentoPersonalizado.value <= 100.0) then
      Fail(Invalid("descuento_personalizado fuera de [0, 100]"))
    else
      Pass
  }

  /** A partial update. `None` is a field left unset; the personal discount
      is nullable on the record, so it may also be set to null (`Some(None)`). */
  datatype EnrollmentUpdate = EnrollmentUpdate(
    estado: Option<EstadoInscripcion>,
    descuentoPersonalizado: Option<Option<real>>,
    totalAPagar: Option<real>,
    totalPagado: Option<real>,
    saldoPendiente: Option<real>)

  /** The per-field bounds of the update. */
  predicate UpdateBoundsHold(u: EnrollmentUpdate) {
    && (u.descuentoPersonalizado.Some? && u.descuentoPersonalizado.value.Some? ==>
          0.0 <= u.descuentoPersonalizado.value.value <= 100.0)
    && (u.totalAPagar.Some? ==> u.totalAPagar.value > 0.0)
    && (u.totalPagado.Some? ==> u.totalPagado.value >= 0.0)
    && (u.saldoPendiente.Some? ==> u.saldoPendiente.value >= 0.0)
  }

  /** The balance rule of the update: the balance must be within a cent of
      total minus paid, with no clamp at zero. */
  predicate SaldoCoherente(v: real, totalAPagar: real, totalPagado: real) {
    Abs(v - (totalAPagar - totalPagado)) <= Tolerance
  }

  /** Validation of an update as written. The balance validator runs when a
      balance is supplied and sees both totals among the earlier fields; a
      total left unset is still among them, holding its default None, and
      subtracting None fails. So a balance supplied without both totals is
      always refused. */
  function ValidarEnrollmentUpdate(u: EnrollmentUpdate): (r: Outcome)
    ensures !UpdateBoundsHold(u) ==> r.Fail?
    ensures UpdateBoundsHold(u) && u.saldoPendiente.None? ==> r.Pass?
    ensures UpdateBoundsHold(u) && u.saldoPendiente.Some? && (u.totalAPagar.None? || u.totalPagado.None?) ==>
              r == Fail(NoneOperand)
    ensures UpdateBoundsHold(u) && u.saldoPendiente.Some? && u.totalAPagar.Some? && u.totalPagado.Some? ==>
              (r.Pass? <==> SaldoCoherente(u.saldoPendiente.value, u.totalAPagar.value, u.totalPagado.value))
  {
    if !UpdateBoundsHold(u) then Fail(Invalid("Campo fuera de rango"))
    else if u.saldoPendiente.None? then Pass
    else if u.totalAPagar.None? || u.totalPagado.None? then Fail(NoneOperand)
    else if Abs(u.saldoPendiente.value - (u.totalAPagar.value - u.totalPagado.value)) > Tolerance then
      Fail(Invalid("Saldo invalido"))
    else Pass
  }

  /** The validation the validator evidently means: the balance is checked
      only when both totals were supplied, and skipped otherwise. */
  function ValidarEnrollmentUpdateCorregido(u: EnrollmentUpdate): (r: Outcome)
    ensures r.Pass? <==>
              && UpdateBoundsHold(u)
              && (u.saldoPendiente.Some? && u.totalAPagar.Some? && u.totalPagado.Some? ==>
                    SaldoCoherente(u.saldoPendiente.value, u.totalAPagar.value, u.totalPagado.value))
  {
    if !UpdateBoundsHold(u) then Fail(Invalid("Campo fuera de rango"))
    else if u.saldoPendiente.Some? && u.totalAPagar.Some? && u.totalPagado.Some?
            && Abs(u.saldoPendiente.value - (u.totalAPagar.value - u.totalPagado.value)) > Tolerance then
      Fail(Invalid("Saldo invalido"))
    else Pass
  }

  /** The corrected validation accepts everything the written one accepts,
      and differs from it only on a balance supplied without both totals. */
  lemma {:induction false} CorregidoExtiendeAlOriginal(u: EnrollmentUpdate)
    ensures ValidarEnrollmentUpdate(u).Pass? ==> ValidarEnrollmentUpdateCorregido(u).Pass?
    ensures ValidarEnrollmentUpdateCorregido(u).Pass? && ValidarEnrollmentUpdate(u).Fail? ==>
              u.saldoPendiente.Some? && (u.totalAPagar.None? || u.totalPagado.None?)
  {
  }

  /** The documented update body (state completed, 2850 paid, balance 0,
      without the total) is refused as written, and accepted by the
      corrected validation. */
  lemma DocumentedUpdateExampleRejected()
    ensures var u := EnrollmentUpdate(Some(Completado), None, None, Some(2850.0), Some(0.0));
            && ValidarEnrollmentUpdate(u) == Fail(NoneOperand)
            && ValidarEnrollmentUpdateCorregido(u).Pass?
  {
  }

  /** Unlike the record's own validator, the update's has no clamp: when the
      amount paid exceeds the total by more than a cent, no balance the
      bounds allow is accepted, although the record itself accepts a zero
      balance for that overpaid enrollment. */
  lemma {:induction false} SobrepagoRechazadoEnActualizacion(t: real, p: real, v: real)
    requires t > 0.0 && p > t + Tolerance && v >= 0.0
    ensures ValidarEnrollmentUpdate(EnrollmentUpdate(None, None, Some(t), Some(p), Some(v))).Fail?
    ensures ValidarEnrollmentUpdateCorregido(EnrollmentUpdate(None, None, Some(t), Some(p), Some(v))).Fail?
    ensures EnrollmentModel.ValidarSaldo(0.0, t, p).Success?
  {
    assert v - (t - p) > Tolerance;
  }

  /** Where nothing is overpaid the two validators agree on a supplied
      balance: the update's rule is the record's rule without the clamp. */
  lemma {:induction false} SinSobrepagoCoincidenLosValidadores(t: real, p: real, v: real)
    requires t > 0.0 && 0.0 <= p <= t && v >= 0.0
    ensures ValidarEnrollmentUpdate(EnrollmentUpdate(None, None, Some(t), Some(p), Some(v))).Pass?
            <==> EnrollmentModel.ValidarSaldo(v, t, p).Success?
  {
    assert EnrollmentModel.SaldoEsperado(t, p) == t - p;
  }

  /** The documented figures agree: a 5 percent personal discount on the
      internal price of 3000 gives 2850 to pay, and after 500 paid the
      balance 2350 passes both the update's and the record's validator. */
  lemma DocumentedFiguresAreCoherent()
    ensures 3000.0 - 3000.0 * (5.0 / 100.0) == 2850.0
    ensures ValidarEnrollmentUpdate(EnrollmentUpdate(None, None, Some(2850.0), Some(500.0), Some(2350.0))).Pass?
    ensures EnrollmentModel.ValidarSaldo(2350.0, 2850.0, 500.0).Success?
  {
    assert EnrollmentModel.SaldoEsperado(2850.0, 500.0) == 2350.0;
  }

  /** One set field of an update, as the update dictionary lists it. */
  datatype Campo =
    | SetEstado(estado: EstadoInscripcion)
    | SetDescuentoPersonalizado(descuento: Option<real>)
    | SetTotalAPagar(total: real)
    | SetTotalPagado(pagado: real)
    | SetSaldoPendiente(saldo: real)

  /** The fields explicitly set, in declaration order (`dict(exclude_unset=True).items()`). */
  function Items(u: EnrollmentUpdate): seq<Campo> {
    (if u.estado.Some? then [SetEstado(u.estado.value)] else [])
    + (if u.descuentoPersonalizado.Some? then [SetDescuentoPersonalizado(u.descuentoPersonalizado.value)] else [])
    + (if u.totalAPagar.Some? then [SetTotalAPagar(u.totalAPagar.value)] else [])
    + (if u.totalPagado.Some? then [SetTotalPagado(u.totalPagado.value)] else [])
    + (if u.saldoPendiente.Some? then [SetSaldoPendiente(u.saldoPendiente.value)] else [])
  }
}
