/** The course record of models/course.py: two price lists (internal and
    external students), the installment structure, and the list of
    enrollments made in it. Descriptive fields (name, type, modality,
    remarks, dates) are not part of this model. */
module CourseModel {
  import opened Common
  import opened Enums

  datatype Course = Course(
    id: Id,
    codigo: string,
    costoTotalInterno: real,
    matriculaInterno: real,
    costoTotalExterno: real,
    matriculaExterno: real,
    cantidadCuotas: int,
    descuentoCurso: Option<real>,
    inscritos: seq<Id>,
    activo: bool)
  {
    /** The field bounds every stored course satisfies. */
    predicate Valid() {
      && costoTotalInterno > 0.0
      && matriculaInterno >= 0.0
      && costoTotalExterno > 0.0
      && matriculaExterno >= 0.0
      && cantidadCuotas >= 1
      && (descuentoCurso.Some? ==> 0.0 <= descuentoCurso.value <= 100.0)
    }

    /** The total price for an internal (`esInterno`) or an external student. */
    function GetCostoTotal(esInterno: bool): (r: real)
      ensures esInterno ==> r == costoTotalInterno
      ensures !esInterno ==> r == costoTotalExterno
      ensures Valid() ==> r > 0.0
    {
      if esInterno then costoTotalInterno else costoTotalExterno
    }

    /** The enrollment fee (matricula) from the same price list. */
    function GetMatricula(esInterno: bool): (r: real)
      ensures esInterno ==> r == matriculaInterno
      ensures !esInterno ==> r == matriculaExterno
      ensures Valid() ==> r >= 0.0
    {
      if esInterno then matriculaInterno else matriculaExterno
    }

    /** One installment: what remains after the enrollment fee, split evenly.
        The fee plus `cantidadCuotas` such installments is the total price. */
    function CalcularMontoCuota(esInterno: bool): (r: real)
      requires cantidadCuotas >= 1
      ensures GetMatricula(esInterno) + (cantidadCuotas as real) * r == GetCostoTotal(esInterno)
      ensures GetMatricula(esInterno) <= GetCostoTotal(esInterno) ==> r >= 0.0
    {
      (GetCostoTotal(esInterno) - GetMatricula(esInterno)) / (cantidadCuotas as real)
    }
  }

  /** The price list a student type selects. */
  function EsInterno(t: TipoEstudiante): bool {
    t == Interno
  }

  /** The worked example of the course documentation: 5000 total, 500 fee and
      5 installments give installments of 900. */
  lemma DocumentedInstallmentExample(c: Course)
    requires c.costoTotalExterno == 5000.0 && c.matriculaExterno == 500.0 && c.cantidadCuotas == 5
    ensures c.CalcularMontoCuota(false) == 900.0
  {
  }
}
