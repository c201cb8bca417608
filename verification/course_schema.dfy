/** schemas/course.py: the request that creates a course, its field bounds
    and the two installment-coherence validators. Pydantic runs a field's
    validator with the values of the fields declared BEFORE it; the
    validators below are modelled with exactly what they find there.
    Descriptive fields (name, type, modality, remarks, requirements, dates)
    are not part of this model. */
module CourseSchema {
  import opened Common
  import CourseModel

  /** The priced part of `CourseCreate`, in declaration order. */
  datatype CourseCreate = CourseCreate(
    codigo: string,
    costoTotalInterno: real,
    montoCuotaInterno: real,
    matriculaInterno: real,
    costoTotalExterno: real,
    montoCuotaExterno: real,
    matriculaExterno: real,
    cantidadCuotas: int,
    descuentoGeneral: Option<real>,
    activo: bool)

  /** The per-field bounds of the request. */
  predicate CourseCreateBoundsHold(c: CourseCreate) {
    && c.costoTotalInterno > 0.0 && c.montoCuotaInterno > 0.0 && c.matriculaInterno >= 0.0
    && c.costoTotalExterno > 0.0 && c.montoCuotaExterno > 0.0 && c.matriculaExterno >= 0.0
    && c.cantidadCuotas >= 1
    && (c.descuentoGeneral.Some? ==> 0.0 <= c.descuentoGeneral.value <= 100.0)
  }

  /** The installment `(costoTotal - matricula) / cantidad` of one price list. */
  function CuotaEsperada(costoTotal: real, matricula: real, cantidad: int): (r: real)
    requires cantidad >= 1
    ensures matricula + (cantidad as real) * r == costoTotal
  {
    (costoTotal - matricula) / (cantidad as real)
  }

  /** The body of `validar_monto_cuota_interno` / `_externo`, given which of
      the total, the fee and the number of installments the validator finds
      among the values already validated (`None`: not there). Without the
      total or the number of installments the value is accepted unchecked;
      without the fee the whole total is split. An accepted value is
      returned unchanged. */
  function ValidarMontoCuota(v: real, costoTotal: Option<real>, matricula: Option<real>, cantidad: Option<int>): (r: Result<real>)
    ensures r.Success? ==> r.value == v
    ensures costoTotal.None? || cantidad.None? ==> r == Success(v)
    ensures costoTotal.Some? && cantidad.Some? && cantidad.value == 0 ==> r == Failure(ZeroDivision)
    ensures costoTotal.Some? && cantidad.Some? && cantidad.value >= 1 ==>
              (r.Success? <==> Abs(v - CuotaEsperada(costoTotal.value, matricula.GetOr(0.0), cantidad.value)) <= Tolerance)
  {
    if costoTotal.Some? && cantidad.Some? then
      var neto := costoTotal.value - matricula.GetOr(0.0);
      if cantidad.value == 0 then Failure(ZeroDivision)
      else
        var esperado := neto / (cantidad.value as real);
        if Abs(v - esperado) > Tolerance then Failure(Invalid("El monto de cuota no coincide"))
        else Success(v)
    else Success(v)
  }

  /** Validation of a `CourseCreate` as written. `monto_cuota_interno`
      (line 49) is validated before `matricula_interno` (line 50) and
      `cantidad_cuotas` (line 58), `monto_cuota_externo` (line 54) before
      `matricula_externo` (line 55) and `cantidad_cuotas`: neither validator
      ever finds the number of installments, so both always accept. */
  function ValidarCourseCreate(c: CourseCreate): (r: Outcome)
    ensures r.Pass? <==> CourseCreateBoundsHold(c)
  {
    if !CourseCreateBoundsHold(c) then Fail(Invalid("Campo fuera de rango"))
    else
      var interno := ValidarMontoCuota(c.montoCuotaInterno, Some(c.costoTotalInterno), None, None);
      var externo := ValidarMontoCuota(c.montoCuotaExterno, Some(c.costoTotalExterno), None, None);
      if interno.Success? && externo.Success? then Pass
      else Fail(Invalid("El monto de cuota no coincide"))
  }

  /** Both installments agree, within the tolerance, with their price list. */
  predicate CuotasCoherentes(c: CourseCreate)
    requires c.cantidadCuotas >= 1
  {
    && Abs(c.montoCuotaInterno - CuotaEsperada(c.costoTotalInterno, c.matriculaInterno, c.cantidadCuotas)) <= Tolerance
    && Abs(c.montoCuotaExterno - CuotaEsperada(c.costoTotalExterno, c.matriculaExterno, c.cantidadCuotas)) <= Tolerance
  }

  /** The validation the validators evidently intend: each installment is
      checked against its total, its fee and the number of installments. */
  function ValidarCourseCreateCorregido(c: CourseCreate): (r: Outcome)
    ensures r.Pass? <==> CourseCreateBoundsHold(c) && CuotasCoherentes(c)
  {
    if !CourseCreateBoundsHold(c) then Fail(Invalid("Campo fuera de rango"))
    else
      var interno := ValidarMontoCuota(c.montoCuotaInterno, Some(c.costoTotalInterno), Some(c.matriculaInterno), Some(c.cantidadCuotas));
      var externo := ValidarMontoCuota(c.montoCuotaExterno, Some(c.costoTotalExterno), Some(c.matriculaExterno), Some(c.cantidadCuotas));
      if interno.Failure? then Fail(interno.error)
      else if externo.Failure? then Fail(externo.error)
      else Pass
  }

  /** The course a request describes, with the installment structure of the
      course model. */
  function CursoDe(id: Id, c: CourseCreate): CourseModel.Course {
    CourseModel.Course(id, c.codigo, c.costoTotalInterno, c.matriculaInterno,
                       c.costoTotalExterno, c.matriculaExterno, c.cantidadCuotas,
                       None, [], c.activo)
  }

  /** The corrected validator refuses only what the original refuses or an
      incoherent installment; and what it accepts is a valid course whose
      computed installments are, within the tolerance, the requested ones. */
  lemma {:induction false} CorregidoGarantizaCoherencia(id: Id, c: CourseCreate)
    requires ValidarCourseCreateCorregido(c).Pass?
    ensures ValidarCourseCreate(c).Pass?
    ensures CursoDe(id, c).Valid()
    ensures Abs(c.montoCuotaInterno - CursoDe(id, c).CalcularMontoCuota(true)) <= Tolerance
    ensures Abs(c.montoCuotaExterno - CursoDe(id, c).CalcularMontoCuota(false)) <= Tolerance
  {
    var k := CursoDe(id, c);
    assert k.CalcularMontoCuota(true) == CuotaEsperada(c.costoTotalInterno, c.matriculaInterno, c.cantidadCuotas);
    assert k.CalcularMontoCuota(false) == CuotaEsperada(c.costoTotalExterno, c.matriculaExterno, c.cantidadCuotas);
  }

  /** An installment of 1 on a 3000 total with a 500 fee over 5 installments
      is accepted as written and refused by the corrected validator. */
  lemma CuotaIncoherenteAceptada()
    ensures var c := CourseCreate("DIPL-2024-001", 3000.0, 1.0, 500.0, 5000.0, 900.0, 500.0, 5, Some(10.0), true);
            ValidarCourseCreate(c).Pass? && !ValidarCourseCreateCorregido(c).Pass?
  {
    var c := CourseCreate("DIPL-2024-001", 3000.0, 1.0, 500.0, 5000.0, 900.0, 500.0, 5, Some(10.0), true);
    assert CuotaEsperada(3000.0, 500.0, 5) == 500.0;
  }

  /** The documented request (internal 3000/500/500, external 5000/900/500,
      5 installments) is coherent. */
  lemma DocumentedCourseAccepted()
    ensures ValidarCourseCreateCorregido(CourseCreate("DIPL-2024-001", 3000.0, 500.0, 500.0, 5000.0, 900.0, 500.0, 5, Some(10.0), true)).Pass?
  {
    assert CuotaEsperada(3000.0, 500.0, 5) == 500.0;
    assert CuotaEsperada(5000.0, 500.0, 5) == 900.0;
  }
}
