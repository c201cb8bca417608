/** services/enrollment_service.py: creating an enrollment (pricing it from
    the course, seeding its ledger and appending it to the course's and the
    student's lists) and the partial update of an enrollment. */
module EnrollmentService {
  import opened Common
  import opened Enums
  import opened CourseModel
  import DiscountModel
  import opened EnrollmentModel
  import opened EnrollmentSchema
  import opened Store

  /** The amount an enrollment asks for: the course's price for the
      declared student type, less the personal discount when one is given
      and is not zero. The course-level discount is not applied. */
  function PrecioInscripcion(c: Course, tipo: TipoEstudiante, descuento: Option<real>): (r: real)
    ensures descuento.None? ==> r == c.GetCostoTotal(EsInterno(tipo))
    ensures descuento.Some? ==> r == c.GetCostoTotal(EsInterno(tipo)) * (100.0 - descuento.value) / 100.0
    ensures c.Valid() && (descuento.Some? ==> 0.0 <= descuento.value <= 100.0) ==>
              0.0 <= r <= c.GetCostoTotal(EsInterno(tipo))
  {
    var base := c.GetCostoTotal(tipo == Interno);
    if descuento.Some? && descuento.value != 0.0 then
      Rebaja(base, descuento.value);
      base - base * (descuento.value / 100.0)
    else base
  }

  /** Taking `p` percent off `base`, in the two ways the source writes it. */
  lemma Rebaja(base: real, p: real)
    ensures base - base * (p / 100.0) == base * (100.0 - p) / 100.0
    ensures base >= 0.0 && 0.0 <= p <= 100.0 ==> 0.0 <= base - base * (p / 100.0) <= base
  {
    assert base * (p / 100.0) == base * p / 100.0;
  }

  /** The personal discount is taken off exactly as a stored discount of the
      same percentage computes it, and the course's own discount plays no
      part in the price. */
  lemma {:induction false} PrecioComoDescuento(c: Course, tipo: TipoEstudiante, d: DiscountModel.Discount, x: Option<real>)
    ensures PrecioInscripcion(c, tipo, Some(d.porcentaje))
              == c.GetCostoTotal(EsInterno(tipo)) - d.CalcularDescuento(c.GetCostoTotal(EsInterno(tipo)))
    ensures PrecioInscripcion(c.(descuentoCurso := x), tipo, None) == PrecioInscripcion(c, tipo, None)
  {
  }

  /** The record `create_enrollment` builds: the request's fields, the price
      snapshot of the course for the declared type, and a fresh ledger in
      which nothing is paid and the whole amount is pending. */
  function DatosInscripcion(c: Course, input: EnrollmentCreate): (d: EnrollmentData)
    ensures d.totalAPagar == PrecioInscripcion(c, input.esEstudianteInterno, input.descuentoPersonalizado)
    ensures d.totalPagado == Some(0.0) && d.saldoPendiente == d.totalAPagar
    ensures d.estudianteId == input.estudianteId && d.cursoId == input.cursoId
    ensures d.estado.None? && d.descuentoPersonalizado == input.descuentoPersonalizado
  {
    var esInterno := input.esEstudianteInterno == Interno;
    var total := PrecioInscripcion(c, input.esEstudianteInterno, input.descuentoPersonalizado);
    EnrollmentData(
      input.estudianteId, input.cursoId, input.esEstudianteInterno,
      c.GetCostoTotal(esInterno), c.GetMatricula(esInterno), c.cantidadCuotas,
      None, None, None, input.descuentoPersonalizado,
      total, Some(0.0), total, None)
  }

  /** A valid course and a valid request always give a record that passes
      the enrollment's own validation, balance invariant included. */
  lemma {:induction false} DatosInscripcionValidos(c: Course, input: EnrollmentCreate)
    requires c.Valid() && ValidarEnrollmentCreate(input).Pass?
    ensures Validar(DatosInscripcion(c, input)).Pass?
  {
    var d := DatosInscripcion(c, input);
    var base := c.GetCostoTotal(EsInterno(input.esEstudianteInterno));
    assert 0.0 <= d.totalAPagar <= base;
    assert SaldoEsperado(d.totalAPagar, 0.0) == d.totalAPagar;
  }

  /** `create_enrollment`. A missing course fails with not-found and changes
      nothing; so does a record the enrollment refuses. Otherwise the new
      enrollment is stored under `newId`, its id is appended to the course's
      list, and the course's id to the student's list when the student
      exists; nothing else changes and no list is checked for duplicates. */
  method CreateEnrollment(db: Database, input: EnrollmentCreate, newId: Id, now: Timestamp)
    returns (r: Result<Enrollment>)
    requires newId !in db.enrollments
    modifies db
    ensures input.cursoId !in old(db.courses) ==> r == Failure(NotFound("Curso no encontrado"))
    ensures input.cursoId in old(db.courses) ==>
              (r.Success? <==> Validar(DatosInscripcion(old(db.courses)[input.cursoId], input)).Pass?)
    ensures (input.cursoId in old(db.courses) && old(db.courses)[input.cursoId].Valid()
             && ValidarEnrollmentCreate(input).Pass?) ==> r.Success?
    ensures r.Failure? ==> unchanged(db)
    ensures r.Success? ==>
              var c := old(db.courses)[input.cursoId];
              && fresh(r.value)
              && r.value.id == newId && r.value.Valid()
              && r.value.estudianteId == input.estudianteId && r.value.cursoId == input.cursoId
              && r.value.totalAPagar == PrecioInscripcion(c, input.esEstudianteInterno, input.descuentoPersonalizado)
              && r.value.totalPagado == 0.0 && r.value.saldoPendiente == r.value.totalAPagar
              && r.value.estado == PendientePago
              && db.enrollments == old(db.enrollments)[newId := r.value]
              && db.courses == old(db.courses)[input.cursoId := c.(inscritos := c.inscritos + [newId])]
              && (input.estudianteId in old(db.students) ==>
                    var s := old(db.students)[input.estudianteId];
                    db.students == old(db.students)[input.estudianteId := s.(listaCursosIds := s.listaCursosIds + [c.id])])
              && (input.estudianteId !in old(db.students) ==> db.students == old(db.students))
              && db.discounts == old(db.discounts) && db.payments == old(db.payments)
  {
    if input.cursoId !in db.courses {
      return Failure(NotFound("Curso no encontrado"));
    }
    var course := db.courses[input.cursoId];
    if course.Valid() && ValidarEnrollmentCreate(input).Pass? {
      DatosInscripcionValidos(course, input);
    }
    var data := DatosInscripcion(course, input);
    var v := Validar(data);
    if v.Fail? {
      return Failure(v.error);
    }
    var enrollment := new Enrollment(newId, data, now);
    db.enrollments := db.enrollments[newId := enrollment];
    course := course.(inscritos := course.inscritos + [enrollment.id]);
    db.courses := db.courses[input.cursoId := course];
    if input.estudianteId in db.students {
      var student := db.students[input.estudianteId];
      student := student.(listaCursosIds := student.listaCursosIds + [course.id]);
      db.students := db.students[input.estudianteId := student];
    }
    r := Success(enrollment);
  }

  /** The fields of an enrollment a partial update can set. */
  datatype Editable = Editable(
    estado: EstadoInscripcion,
    descuentoPersonalizado: Option<real>,
    totalAPagar: real,
    totalPagado: real,
    saldoPendiente: real)

  function Editables(e: Enrollment): Editable
    reads e
  {
    Editable(e.estado, e.descuentoPersonalizado, e.totalAPagar, e.totalPagado, e.saldoPendiente)
  }

  /** One `setattr` of the update loop. */
  function Aplicar(s: Editable, f: Campo): Editable {
    match f
    case SetEstado(v) => s.(estado := v)
    case SetDescuentoPersonalizado(v) => s.(descuentoPersonalizado := v)
    case SetTotalAPagar(v) => s.(totalAPagar := v)
    case SetTotalPagado(v) => s.(totalPagado := v)
    case SetSaldoPendiente(v) => s.(saldoPendiente := v)
  }

  /** What an update means: every field it sets takes the new value, every
      other field keeps its old one. */
  function Fusion(s: Editable, u: EnrollmentUpdate): Editable {
    Editable(
      u.estado.GetOr(s.estado),
      u.descuentoPersonalizado.GetOr(s.descuentoPersonalizado),
      u.totalAPagar.GetOr(s.totalAPagar),
      u.totalPagado.GetOr(s.totalPagado),
      u.saldoPendiente.GetOr(s.saldoPendiente))
  }

  /** Applying the set fields one after another, in order, is the update. */
  lemma {:induction false} AplicarItemsEsFusion(s: Editable, u: EnrollmentUpdate)
    ensures Fold(Items(u), s, Aplicar) == Fusion(s, u)
  {
    var a := if u.estado.Some? then [SetEstado(u.estado.value)] else [];
    var b := if u.descuentoPersonalizado.Some? then [SetDescuentoPersonalizado(u.descuentoPersonalizado.value)] else [];
    var c := if u.totalAPagar.Some? then [SetTotalAPagar(u.totalAPagar.value)] else [];
    var d := if u.totalPagado.Some? then [SetTotalPagado(u.totalPagado.value)] else [];
    var e := if u.saldoPendiente.Some? then [SetSaldoPendiente(u.saldoPendiente.value)] else [];
    assert Items(u) == a + b + c + d + e;
    FoldAppend(a + b + c + d, e, s, Aplicar);
    FoldAppend(a + b + c, d, s, Aplicar);
    FoldAppend(a + b, c, s, Aplicar);
    FoldAppend(a, b, s, Aplicar);
  }

  /** `update_enrollment`: sets, in order, every field the update carries.
      Exactly those fields change; the price snapshot, the references and
      every field the update leaves unset keep their values. */
  method UpdateEnrollment(e: Enrollment, u: EnrollmentUpdate)
    modifies e`estado, e`descuentoPersonalizado, e`totalAPagar, e`totalPagado, e`saldoPendiente
    ensures Editables(e) == Fusion(old(Editables(e)), u)
  {
    AplicarCampos(e, Items(u));
    AplicarItemsEsFusion(old(Editables(e)), u);
  }

  /** The loop of `update_enrollment`: one `setattr` per item, in order. */
  method AplicarCampos(e: Enrollment, items: seq<Campo>)
    modifies e`estado, e`descuentoPersonalizado, e`totalAPagar, e`totalPagado, e`saldoPendiente
    ensures Editables(e) == Fold(items, old(Editables(e)), Aplicar)
  {
    ghost var s0 := Editables(e);
    var i := 0;
    while i < |items|
      invariant 0 <= i <= |items|
      invariant Editables(e) == Fold(items[..i], s0, Aplicar)
    {
      assert items[..i + 1] == items[..i] + [items[i]];
      FoldSnoc(items[..i], items[i], s0, Aplicar);
      match items[i] {
        case SetEstado(v) => e.estado := v;
        case SetDescuentoPersonalizado(v) => e.descuentoPersonalizado := v;
        case SetTotalAPagar(v) => e.totalAPagar := v;
        case SetTotalPagado(v) => e.totalPagado := v;
        case SetSaldoPendiente(v) => e.saldoPendiente := v;
      }
      i := i + 1;
    }
    assert items[..i] == items;
  }

  /** An update that sets all three ledger fields and passes validation,
      without recording an overpayment, leaves a ledger that satisfies the
      record's balance invariant; the update is not checked against the
      record's other bounds or its earlier state. */
  lemma {:induction false} ActualizacionValidaConservaSaldo(s: Editable, u: EnrollmentUpdate)
    requires ValidarEnrollmentUpdate(u).Pass?
    requires u.totalAPagar.Some? && u.totalPagado.Some? && u.saldoPendiente.Some?
    requires u.totalPagado.value <= u.totalAPagar.value
    ensures var n := Fusion(s, u);
            ValidarSaldo(n.saldoPendiente, n.totalAPagar, n.totalPagado).Success?
  {
    var n := Fusion(s, u);
    assert SaldoEsperado(n.totalAPagar, n.totalPagado) == n.totalAPagar - n.totalPagado;
  }
}
