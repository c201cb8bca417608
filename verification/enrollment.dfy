/** The enrollment of models/enrollment.py: the link between a student and a
    course, a snapshot of the prices at enrollment time, and the running
    ledger (total to pay, total paid, pending balance) that approved payments
    update in place. */
module EnrollmentModel {
  import opened Common
  import opened Enums

  /** What was due next, as `siguiente_pago` names it: the enrollment fee,
      installment `numero`, nothing (all paid), or the fallback used when a
      course has no installments. */
  datatype Concepto = PagoCompletado | Matricula | Cuota(numero: int) | PagoPendiente

  /** The suggestion `siguiente_pago` returns (a dictionary in the source). */
  datatype PagoSugerido = PagoSugerido(concepto: Concepto, numeroCuota: int, montoSugerido: real)

  /** The keyword arguments an enrollment is built from. `None` stands for an
      argument left out, where the field has a default: 0.0 for the applied
      course discount and for the total paid, PENDIENTE_PAGO for the state. */
  datatype EnrollmentData = EnrollmentData(
    estudianteId: Id,
    cursoId: Id,
    esEstudianteInterno: TipoEstudiante,
    costoTotal: real,
    costoMatricula: real,
    cantidadCuotas: int,
    descuentoCursoId: Option<Id>,
    descuentoCursoAplicado: Option<real>,
    descuentoEstudianteId: Option<Id>,
    descuentoPersonalizado: Option<real>,
    totalAPagar: real,
    totalPagado: Option<real>,
    saldoPendiente: real,
    estado: Option<EstadoInscripcion>)

  /** The balance the ledger should show: what is left to pay, never negative. */
  function SaldoEsperado(totalAPagar: real, totalPagado: real): (r: real)
    ensures r >= 0.0
    ensures totalPagado <= totalAPagar ==> r + totalPagado == totalAPagar
    ensures totalPagado >= totalAPagar ==> r == 0.0
  {
    Max0(totalAPagar - totalPagado)
  }

  /** The validator of `saldo_pendiente`: the balance is accepted, unchanged,
      when it is within one cent of what is left to pay; an overpaid
      enrollment must therefore carry a balance of (nearly) zero. */
  function ValidarSaldo(v: real, totalAPagar: real, totalPagado: real): (r: Result<real>)
    ensures r.Success? <==> Abs(v - SaldoEsperado(totalAPagar, totalPagado)) <= Tolerance
    ensures r.Success? ==> r.value == v
    ensures r.Success? && totalPagado >= totalAPagar ==> v <= Tolerance
    ensures r.Success? && totalPagado <= totalAPagar ==> Abs(v - (totalAPagar - totalPagado)) <= Tolerance
  {
    var esperado := SaldoEsperado(totalAPagar, totalPagado);
    if Abs(v - esperado) > Tolerance then
      Failure(Invalid("Saldo pendiente invalido"))
    else
      Success(v)
  }

  /** The per-field bounds of the enrollment record. */
  predicate BoundsHold(costoTotal: real, costoMatricula: real, cantidadCuotas: int,
                       descuentoCursoAplicado: real, descuentoPersonalizado: Option<real>,
                       totalAPagar: real, totalPagado: real, saldoPendiente: real)
  {
    && costoTotal > 0.0
    && costoMatricula >= 0.0
    && cantidadCuotas >= 1
    && 0.0 <= descuentoCursoAplicado <= 100.0
    && (descuentoPersonalizado.Some? ==> 0.0 <= descuentoPersonalizado.value <= 100.0)
    && totalAPagar >= 0.0
    && totalPagado >= 0.0
    && saldoPendiente >= 0.0
  }

  /** Construction-time validation of an enrollment: the field bounds, with
      defaults filled in, and then the balance validator. */
  function Validar(d: EnrollmentData): (r: Outcome)
    ensures r.Pass? ==> d.costoTotal > 0.0 && d.costoMatricula >= 0.0 && d.cantidadCuotas >= 1
    ensures r.Pass? ==> d.totalAPagar >= 0.0 && d.totalPagado.GetOr(0.0) >= 0.0 && d.saldoPendiente >= 0.0
    ensures r.Pass? ==> Abs(d.saldoPendiente - SaldoEsperado(d.totalAPagar, d.totalPagado.GetOr(0.0))) <= Tolerance
    ensures r.Pass? <==> BoundsHold(d.costoTotal, d.costoMatricula, d.cantidadCuotas, d.descuentoCursoAplicado.GetOr(0.0),
                                    d.descuentoPersonalizado, d.totalAPagar, d.totalPagado.GetOr(0.0), d.saldoPendiente)
                         && ValidarSaldo(d.saldoPendiente, d.totalAPagar, d.totalPagado.GetOr(0.0)).Success?
  {
    var pagado := d.totalPagado.GetOr(0.0);
    if !BoundsHold(d.costoTotal, d.costoMatricula, d.cantidadCuotas, d.descuentoCursoAplicado.GetOr(0.0),
                   d.descuentoPersonalizado, d.totalAPagar, pagado, d.saldoPendiente) then
      Fail(Invalid("Campo fuera de rango"))
    else
      match ValidarSaldo(d.saldoPendiente, d.totalAPagar, pagado)
      case Failure(e) => Fail(e)
      case Success(_) => Pass
  }

  /** Everything an enrollment records apart from the running ledger (total
      paid, balance) and its last-update time: the parties, the price and
      discount snapshot, the total to pay, the date and the state. */
  datatype Condiciones = Condiciones(
    id: Id,
    estudianteId: Id,
    cursoId: Id,
    esEstudianteInterno: TipoEstudiante,
    costoTotal: real,
    costoMatricula: real,
    cantidadCuotas: int,
    descuentoCursoId: Option<Id>,
    descuentoCursoAplicado: real,
    descuentoEstudianteId: Option<Id>,
    descuentoPersonalizado: Option<real>,
    totalAPagar: real,
    fechaInscripcion: Timestamp,
    estado: EstadoInscripcion)

  class Enrollment {
    var id: Id
    var estudianteId: Id
    var cursoId: Id
    // Price snapshot taken at enrollment time.
    var esEstudianteInterno: TipoEstudiante
    var costoTotal: real
    var costoMatricula: real
    var cantidadCuotas: int
    // Discounts applied.
    var descuentoCursoId: Option<Id>
    var descuentoCursoAplicado: real
    var descuentoEstudianteId: Option<Id>
    var descuentoPersonalizado: Option<real>
    // Ledger.
    var totalAPagar: real
    var totalPagado: real
    var saldoPendiente: real
    // State and dates.
    var fechaInscripcion: Timestamp
    var estado: EstadoInscripcion
    var updatedAt: Timestamp

    /** The balance invariant: the stored balance is within a cent of what is left to pay. */
    predicate BalanceInvariant()
      reads this
    {
      ValidarSaldo(saldoPendiente, totalAPagar, totalPagado).Success?
    }

    /** The fields outside the running ledger. */
    function CondicionesActuales(): Condiciones
      reads this
    {
      Condiciones(id, estudianteId, cursoId, esEstudianteInterno, costoTotal, costoMatricula,
                  cantidadCuotas, descuentoCursoId, descuentoCursoAplicado, descuentoEstudianteId,
                  descuentoPersonalizado, totalAPagar, fechaInscripcion, estado)
    }

    /** Everything construction checks: the field bounds and the balance invariant. */
    predicate Valid()
      reads this
    {
      && BoundsHold(costoTotal, costoMatricula, cantidadCuotas, descuentoCursoAplicado,
                    descuentoPersonalizado, totalAPagar, totalPagado, saldoPendiente)
      && BalanceInvariant()
    }

    /** `Enrollment(**data)` once validation passed; `id` is the key storage assigns. */
    constructor (id: Id, d: EnrollmentData, now: Timestamp)
      requires Validar(d).Pass?
      ensures Valid()
      ensures this.id == id && estudianteId == d.estudianteId && cursoId == d.cursoId
      ensures esEstudianteInterno == d.esEstudianteInterno && costoTotal == d.costoTotal
      ensures costoMatricula == d.costoMatricula && cantidadCuotas == d.cantidadCuotas
      ensures descuentoCursoId == d.descuentoCursoId && descuentoCursoAplicado == d.descuentoCursoAplicado.GetOr(0.0)
      ensures descuentoEstudianteId == d.descuentoEstudianteId && descuentoPersonalizado == d.descuentoPersonalizado
      ensures totalAPagar == d.totalAPagar && totalPagado == d.totalPagado.GetOr(0.0)
      ensures saldoPendiente == d.saldoPendiente
      ensures estado == d.estado.GetOr(PendientePago)
      ensures fechaInscripcion == now && updatedAt == now
    {
      this.id := id;
      estudianteId := d.estudianteId;
      cursoId := d.cursoId;
      esEstudianteInterno := d.esEstudianteInterno;
      costoTotal := d.costoTotal;
      costoMatricula := d.costoMatricula;
      cantidadCuotas := d.cantidadCuotas;
      descuentoCursoId := d.descuentoCursoId;
      descuentoCursoAplicado := d.descuentoCursoAplicado.GetOr(0.0);
      descuentoEstudianteId := d.descuentoEstudianteId;
      descuentoPersonalizado := d.descuentoPersonalizado;
      totalAPagar := d.totalAPagar;
      totalPagado := d.totalPagado.GetOr(0.0);
      saldoPendiente := d.saldoPendiente;
      estado := d.estado.GetOr(PendientePago);
      fechaInscripcion := now;
      updatedAt := now;
    }

    /** One installment of this enrollment: the enrollment fee plus
        `cantidadCuotas` installments make up the total to pay (and 0 when
        there are no installments). */
    function CalcularMontoCuota(): (r: real)
      reads this
      ensures cantidadCuotas != 0 ==> costoMatricula + (cantidadCuotas as real) * r == totalAPagar
      ensures cantidadCuotas == 0 ==> r == 0.0
    {
      if cantidadCuotas == 0 then 0.0
      else (totalAPagar - costoMatricula) / (cantidadCuotas as real)
    }

    /** Credits an approved payment of `monto`: the total paid grows by exactly
        `monto` and the balance is recomputed from it, so the balance
        invariant holds afterwards whatever held before. Nothing else changes:
        not the total to pay, not the price snapshot, not the state. */
    method ActualizarSaldo(monto: real, now: Timestamp)
      modifies this`totalPagado, this`saldoPendiente, this`updatedAt
      ensures totalPagado == old(totalPagado) + monto
      ensures saldoPendiente == SaldoEsperado(totalAPagar, totalPagado)
      ensures updatedAt == now
      ensures CondicionesActuales() == old(CondicionesActuales())
      ensures BalanceInvariant()
      ensures old(Valid()) && monto >= 0.0 ==> Valid()
      ensures monto >= 0.0 ==> saldoPendiente <= SaldoEsperado(totalAPagar, old(totalPagado))
      ensures old(BalanceInvariant()) && monto >= 0.0 ==> saldoPendiente <= old(saldoPendiente) + Tolerance
    {
      totalPagado := totalPagado + monto;
      saldoPendiente := Max0(totalAPagar - totalPagado);
      updatedAt := now;
    }

    /** Fully paid means a balance of at most one cent. Under the balance
        invariant this holds whenever the total paid reaches the total to pay,
        and it can only hold when at most two cents remain unpaid. */
    function EstaCompletamentePagado(): (r: bool)
      reads this
      ensures r <==> saldoPendiente <= Tolerance
      ensures BalanceInvariant() && totalPagado >= totalAPagar ==> r
      ensures BalanceInvariant() && r ==> totalAPagar - totalPagado <= 2.0 * Tolerance
    {
      saldoPendiente <= Tolerance
    }

    /** The enrollment fee is still owed by more than a cent; while it is,
        nothing counts towards the installments. */
    function MatriculaPendiente(): (r: bool)
      reads this
      ensures r <==> costoMatricula - totalPagado > Tolerance
      ensures r ==> PagadoACuotas() == 0.0
    {
      totalPagado < costoMatricula && costoMatricula - totalPagado > Tolerance
    }

    /** The amount paid beyond the enrollment fee. */
    function PagadoACuotas(): (r: real)
      reads this
      ensures r >= 0.0
      ensures totalPagado >= costoMatricula ==> r == totalPagado - costoMatricula
      ensures totalPagado < costoMatricula ==> r == 0.0
    {
      Max0(totalPagado - costoMatricula)
    }

    /** The next payment to suggest: nothing once fully paid; otherwise the
        rest of the enrollment fee while more than a cent of it is owed; then
        installment k, where k - 1 installments are covered by what was paid
        beyond the fee, capped at the last installment, which asks for the
        whole balance. The fee always comes before any installment, and an
        installment number lies between 1 and `cantidadCuotas`. The division
        by the installment amount fails exactly when fee and total coincide. */
    function SiguientePago(): (r: Result<PagoSugerido>)
      reads this
      ensures (r.Success? && r.value == PagoSugerido(PagoCompletado, 0, 0.0)) <==> EstaCompletamentePagado()
      ensures (r.Success? && r.value.concepto == Matricula) <==> !EstaCompletamentePagado() && MatriculaPendiente()
      ensures r.Success? && r.value.concepto == Matricula ==>
                r.value.numeroCuota == 0 && r.value.montoSugerido == costoMatricula - totalPagado
      ensures r.Success? && r.value.concepto.Cuota? ==>
                && r.value.numeroCuota == r.value.concepto.numero <= cantidadCuotas
                && !MatriculaPendiente()
                && totalPagado >= costoMatricula - Tolerance
      ensures Valid() && r.Success? && r.value.concepto.Cuota? ==> 1 <= r.value.concepto.numero
      ensures Valid() && r.Success? ==> r.value.concepto != PagoPendiente
      ensures r.Failure? ==> r.error == ZeroDivision && totalAPagar == costoMatricula
    {
      if EstaCompletamentePagado() then
        Success(PagoSugerido(PagoCompletado, 0, 0.0))
      else if MatriculaPendiente() then
        Success(PagoSugerido(Matricula, 0, costoMatricula - totalPagado))
      else if cantidadCuotas > 0 then
        var montoPorCuota := (totalAPagar - costoMatricula) / (cantidadCuotas as real);
        if montoPorCuota == 0.0 then
          Failure(ZeroDivision)
        else
          var cuotasPagadas := TruncToInt(PagadoACuotas() / montoPorCuota);
          var siguiente := cuotasPagadas + 1;
          if siguiente >= cantidadCuotas then
            Success(PagoSugerido(Cuota(cantidadCuotas), cantidadCuotas, saldoPendiente))
          else
            Success(PagoSugerido(Cuota(siguiente), siguiente, montoPorCuota))
      else
        Success(PagoSugerido(PagoPendiente, 1, saldoPendiente))
    }
  }
  /** When the total to pay exceeds the enrollment fee, the installment that
      `SiguientePago` suggests is the one the payments have reached: with an
      installment amount m, installment k is suggested when k - 1 full
      installments are covered by what was paid beyond the fee and k are not;
      it asks for m, except the last installment, which asks for the balance. */
  lemma {:induction false} SiguienteCuotaCubreLoPagado(e: Enrollment)
    requires e.Valid() && e.totalAPagar > e.costoMatricula
    requires e.SiguientePago().Success? && e.SiguientePago().value.concepto.Cuota?
    ensures var s := e.SiguientePago().value;
            var m := e.CalcularMontoCuota();
            && m > 0.0
            && ((s.numeroCuota - 1) as real) * m <= e.PagadoACuotas()
            && (s.numeroCuota < e.cantidadCuotas ==>
                  s.montoSugerido == m && e.PagadoACuotas() < (s.numeroCuota as real) * m)
            && (s.numeroCuota == e.cantidadCuotas ==> s.montoSugerido == e.saldoPendiente)
  {
    var m := e.CalcularMontoCuota();
    var x := e.PagadoACuotas();
    var t := TruncToInt(x / m);
    CuotasPagadasBracket(x, m);
    var s := e.SiguientePago().value;
    assert !e.EstaCompletamentePagado() && !e.MatriculaPendiente() && e.cantidadCuotas > 0;
    assert (e.totalAPagar - e.costoMatricula) / (e.cantidadCuotas as real) == m;
    if t + 1 >= e.cantidadCuotas {
      assert s.numeroCuota == e.cantidadCuotas;
      assert ((s.numeroCuota - 1) as real) * m <= (t as real) * m;
    } else {
      assert s.numeroCuota == t + 1;
    }
  }

  /** The number of whole installments of `m` that `x` covers brackets `x`. */
  lemma CuotasPagadasBracket(x: real, m: real)
    requires m > 0.0 && x >= 0.0
    ensures var t := TruncToInt(x / m);
            t >= 0 && (t as real) * m <= x < ((t + 1) as real) * m
  {
    var q := x / m;
    var t := TruncToInt(q);
    var lo := t as real;
    var hi := (t + 1) as real;
    assert q * m == x;
    assert lo <= q < hi;
    MultiplyBounds(lo, q, hi, m);
    assert q * m < hi * m;
    assert x == q * m;
    assert x < hi * m;
  }

  /** Scaling a bracket by a positive factor keeps it a bracket. */
  lemma MultiplyBounds(lo: real, q: real, hi: real, m: real)
    requires m > 0.0 && lo <= q < hi
    ensures lo * m <= q * m < hi * m
  {
  }
}
