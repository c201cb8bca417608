/** The reusable discount of models/discount.py: a percentage, an optional
    course scope, an allow-list of students and an optional validity window. */
module DiscountModel {
  import opened Common

  datatype Discount = Discount(
    id: Id,
    nombre: string,
    porcentaje: real,
    listaEstudiantes: seq<Id>,
    cursoId: Option<Id>,
    fechaInicio: Option<Timestamp>,
    fechaFin: Option<Timestamp>,
    activo: bool)
  {
    /** The bounds and the date check every stored discount passed. */
    predicate Valid() {
      && 1 <= |nombre| <= 200
      && 0.0 <= porcentaje <= 100.0
      && ValidarFechas(fechaFin, fechaInicio).Success?
    }

    /** Whether the discount may be used at `fecha`: it must be active, and
        the date must lie in the window, both ends included; a missing end
        leaves that side open. */
    predicate EsValidoEnFecha(fecha: Timestamp)
      ensures !activo ==> !EsValidoEnFecha(fecha)
      ensures activo ==>
        (EsValidoEnFecha(fecha) <==>
          (fechaInicio.None? || fecha >= fechaInicio.value)
          && (fechaFin.None? || fecha <= fechaFin.value))
    {
      if !activo then false
      else if fechaInicio.Some? && fecha < fechaInicio.value then false
      else if fechaFin.Some? && fecha > fechaFin.value then false
      else true
    }

    /** A discount without a course applies to every course; otherwise only to its own. */
    predicate AplicaACurso(curso: Id)
      ensures cursoId.None? ==> AplicaACurso(curso)
      ensures cursoId.Some? ==> (AplicaACurso(curso) <==> curso == cursoId.value)
    {
      if cursoId.None? then true else cursoId.value == curso
    }

    /** The amount taken off `monto`: never negative and never more than
        `monto` itself, and what is left is `monto` scaled by the remaining
        percentage. */
    function CalcularDescuento(monto: real): (r: real)
      ensures Valid() && monto >= 0.0 ==> 0.0 <= r <= monto
      ensures monto - r == monto * (100.0 - porcentaje) / 100.0
      ensures porcentaje == 0.0 ==> r == 0.0
    {
      monto * (porcentaje / 100.0)
    }
  }

  /** The validator of `fecha_fin`: an end strictly before the start is
      refused; equal dates, or a missing end or start, are accepted. The
      value is kept as given. */
  function ValidarFechas(fechaFin: Option<Timestamp>, fechaInicio: Option<Timestamp>): (r: Result<Option<Timestamp>>)
    ensures r.Failure? <==> fechaFin.Some? && fechaInicio.Some? && fechaFin.value < fechaInicio.value
    ensures r.Success? ==> r.value == fechaFin
  {
    if fechaFin.Some? && fechaInicio.Some? && fechaFin.value < fechaInicio.value then
      Failure(Invalid("La fecha de fin debe ser posterior a la fecha de inicio"))
    else
      Success(fechaFin)
  }

  /** An active discount without dates is valid at every date. */
  lemma PermanentDiscountIsAlwaysValid(d: Discount, fecha: Timestamp)
    requires d.activo && d.fechaInicio.None? && d.fechaFin.None?
    ensures d.EsValidoEnFecha(fecha)
  {
  }

  /** The window a stored discount accepts is never empty: an active discount
      is valid on its first and on its last day. */
  lemma WindowContainsItsEnds(d: Discount)
    requires d.Valid() && d.activo
    ensures d.fechaInicio.Some? ==> d.EsValidoEnFecha(d.fechaInicio.value)
    ensures d.fechaFin.Some? ==> d.EsValidoEnFecha(d.fechaFin.value)
  {
  }

  /** The documented example: 20 percent of 5000 is 1000. */
  lemma DocumentedDiscountExample(d: Discount)
    requires d.porcentaje == 20.0
    ensures d.CalcularDescuento(5000.0) == 1000.0
  {
  }
}
