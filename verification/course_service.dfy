/** services/course_service.py: the progress report of a course (one entry
    per enrollment whose student is found, with the payment progress as a
    guarded percentage) and the partial update of a course. */
module CourseService {
  import opened Common
  import opened Enums
  import opened CourseModel
  import opened EnrollmentModel
  import opened Store

  /** The payment progress of one enrollment, in percent: the paid share of
      the amount due, 100 when nothing is due, 0 for a negative amount due.
      Within a ledger that is not overpaid it lies between 0 and 100, and a
      ledger paid in full shows at least 100. */
  function AvancePago(totalAPagar: real, totalPagado: real): (r: real)
    ensures totalAPagar > 0.0 ==> r * totalAPagar == totalPagado * 100.0
    ensures totalAPagar == 0.0 ==> r == 100.0
    ensures totalAPagar < 0.0 ==> r == 0.0
    ensures totalAPagar >= 0.0 && totalPagado >= 0.0 ==> r >= 0.0
    ensures 0.0 <= totalPagado <= totalAPagar ==> r <= 100.0
    ensures totalAPagar >= 0.0 && totalPagado >= totalAPagar ==> r >= 100.0
  {
    if totalAPagar > 0.0 then
      Proporcion(totalPagado, totalAPagar);
      (totalPagado / totalAPagar) * 100.0
    else if totalAPagar == 0.0 then 100.0
    else 0.0
  }

  /** The percentage `p / t * 100` of a positive `t`. */
  lemma Proporcion(p: real, t: real)
    requires t > 0.0
    ensures (p / t) * 100.0 * t == p * 100.0
    ensures p >= 0.0 ==> (p / t) * 100.0 >= 0.0
    ensures p <= t ==> (p / t) * 100.0 <= 100.0
    ensures p >= t ==> (p / t) * 100.0 >= 100.0
  {
    var q := p / t;
    assert q * t == p;
    if p <= t {
      assert q * t <= 1.0 * t;
    }
    if p >= t {
      assert q * t >= 1.0 * t;
    }
  }

  /** One entry of the report (`CourseEnrolledStudent`): the student's
      identity and contact data, the enrollment, and its ledger. */
  datatype ReportItem = ReportItem(
    estudianteId: Id,
    nombre: string,
    email: Option<string>,
    celular: Option<string>,
    inscripcionId: Id,
    fechaInscripcion: Timestamp,
    estado: EstadoInscripcion,
    tipoEstudiante: TipoEstudiante,
    totalAPagar: real,
    totalPagado: real,
    saldoPendiente: real,
    avancePago: real)

  /** Python's `s or None` on a string: the empty string becomes None. */
  function OrNone(s: string): (r: Option<string>)
    ensures r.None? <==> s == []
    ensures r.Some? ==> r.value == s
  {
    if s == [] then None else Some(s)
  }

  /** The entry built for an enrollment and its student: the student's
      identity and contact data, the ledger as stored, and the progress
      computed from it. */
  function Entrada(s: Student, e: Enrollment): (it: ReportItem)
    reads e
    ensures it.inscripcionId == e.id && it.estudianteId == s.id
    ensures it.totalAPagar == e.totalAPagar && it.totalPagado == e.totalPagado
    ensures it.saldoPendiente == e.saldoPendiente
    ensures e.totalAPagar > 0.0 ==> it.avancePago * e.totalAPagar == e.totalPagado * 100.0
    ensures e.totalAPagar == 0.0 ==> it.avancePago == 100.0
    ensures s.nombre == [] ==> it.nombre == "Sin nombre"
    ensures s.nombre != [] ==> it.nombre == s.nombre
    ensures it.email == OrNone(s.email) && it.celular == OrNone(s.celular)
  {
    ReportItem(
      s.id,
      if s.nombre == [] then "Sin nombre" else s.nombre,
      OrNone(s.email), OrNone(s.celular),
      e.id, e.fechaInscripcion, e.estado, e.esEstudianteInterno,
      e.totalAPagar, e.totalPagado, e.saldoPendiente,
      AvancePago(e.totalAPagar, e.totalPagado))
  }

  /** The query `Enrollment.find(curso_id == course)`: the stored
      enrollments of the course, in storage order. */
  function DelCurso(todas: seq<Enrollment>, cursoId: Id): (r: seq<Enrollment>)
    reads todas
    ensures forall i :: 0 <= i < |r| ==> r[i] in todas && r[i].cursoId == cursoId
    ensures forall i :: 0 <= i < |todas| && todas[i].cursoId == cursoId ==> todas[i] in r
    ensures |r| <= |todas|
    decreases |todas|
  {
    if todas == [] then []
    else
      var previas := DelCurso(todas[..|todas| - 1], cursoId);
      var e := todas[|todas| - 1];
      assert todas == todas[..|todas| - 1] + [e];
      if e.cursoId == cursoId then previas + [e] else previas
  }

  /** The query keeps storage order and multiplicity: over a concatenation
      it is the concatenation of the answers, and on one enrollment it is
      that enrollment exactly when it belongs to the course. */
  lemma {:induction false} DelCursoConcatena(a: seq<Enrollment>, b: seq<Enrollment>, cursoId: Id)
    ensures DelCurso(a + b, cursoId) == DelCurso(a, cursoId) + DelCurso(b, cursoId)
    ensures forall e: Enrollment :: DelCurso([e], cursoId) == if e.cursoId == cursoId then [e] else []
    decreases |b|
  {
    forall e: Enrollment
      ensures DelCurso([e], cursoId) == if e.cursoId == cursoId then [e] else []
    {
      assert [e][..0] == [];
    }
    if b == [] {
      assert a + b == a;
    } else {
      var init := b[..|b| - 1];
      assert (a + b)[..|a + b| - 1] == a + init;
      assert (a + b)[|a + b| - 1] == b[|b| - 1];
      DelCursoConcatena(a, init, cursoId);
    }
  }

  /** The report over `es`, in order; an enrollment whose student is not in
      `students` is skipped. */
  function Reporte(es: seq<Enrollment>, students: map<Id, Student>): (r: seq<ReportItem>)
    reads es
    ensures |r| <= |es|
    ensures (forall i :: 0 <= i < |es| ==> es[i].estudianteId !in students) ==> r == []
    decreases |es|
  {
    if es == [] then []
    else
      var previo := Reporte(es[..|es| - 1], students);
      var e := es[|es| - 1];
      if e.estudianteId in students then previo + [Entrada(students[e.estudianteId], e)]
      else previo
  }

  /** `get_course_students`. With no enrollment in the course the report is
      empty; otherwise it walks the course's enrollments in order and
      appends an entry for each one whose student is found. The source
      fetches the students of these enrollments in one query and looks each
      one up by id, which finds exactly what a lookup in `db.students` does.
      `todas` is the enrollment collection in storage order: every stored
      enrollment, each once. */
  method GetCourseStudents(db: Database, courseId: Id, todas: seq<Enrollment>) returns (report: seq<ReportItem>)
    requires forall e :: e in todas <==> e in db.enrollments.Values
    requires NoDuplicates(todas)
    ensures report == Reporte(DelCurso(todas, courseId), db.students)
    ensures (forall k :: k in db.enrollments ==> db.enrollments[k].cursoId != courseId) ==> report == []
    ensures forall k :: k in db.enrollments && db.enrollments[k].cursoId == courseId
                          && db.enrollments[k].estudianteId in db.students ==>
              Entrada(db.students[db.enrollments[k].estudianteId], db.enrollments[k]) in report
  {
    var enrollments := DelCurso(todas, courseId);
    ReporteDelAlmacen(db.enrollments, db.students, todas, courseId);
    if enrollments == [] {
      return [];
    }
    var students := db.students;
    report := [];
    var i := 0;
    while i < |enrollments|
      invariant 0 <= i <= |enrollments|
      invariant report == Reporte(enrollments[..i], students)
    {
      var e := enrollments[i];
      ghost var siguiente := enrollments[..i + 1];
      assert siguiente[..|siguiente| - 1] == enrollments[..i] && siguiente[|siguiente| - 1] == e;
      if e.estudianteId in students {
        var s := students[e.estudianteId];
        report := report + [Entrada(s, e)];
        assert report == Reporte(siguiente, students);
      }
      i := i + 1;
    }
    assert enrollments[..i] == enrollments;
  }

  /** Over the stored enrollments: the report is empty when no stored
      enrollment belongs to the course, and every stored enrollment of the
      course whose student is found has its entry. */
  lemma ReporteDelAlmacen(enrollments: map<Id, Enrollment>, students: map<Id, Student>,
                          todas: seq<Enrollment>, courseId: Id)
    requires forall e :: e in todas <==> e in enrollments.Values
    ensures (forall k :: k in enrollments ==> enrollments[k].cursoId != courseId) ==>
              Reporte(DelCurso(todas, courseId), students) == []
    ensures forall k :: k in enrollments && enrollments[k].cursoId == courseId
                          && enrollments[k].estudianteId in students ==>
              Entrada(students[enrollments[k].estudianteId], enrollments[k]) in Reporte(DelCurso(todas, courseId), students)
  {
    var del := DelCurso(todas, courseId);
    forall k | k in enrollments && enrollments[k].cursoId == courseId
      ensures enrollments[k] in del
    {
      assert enrollments[k] in enrollments.Values;
    }
    if del != [] {
      assert del[0] in enrollments.Values;
      ghost var k0 :| k0 in enrollments && enrollments[k0] == del[0];
    }
    ReporteCopiaElLedger(del, students);
  }

  /** The report of a concatenation is the concatenation of the reports:
      entries come in enrollment order. */
  lemma {:induction false} ReporteConcatena(a: seq<Enrollment>, b: seq<Enrollment>, students: map<Id, Student>)
    ensures Reporte(a + b, students) == Reporte(a, students) + Reporte(b, students)
    decreases |b|
  {
    if b == [] {
      assert a + b == a;
    } else {
      var init := b[..|b| - 1];
      assert (a + b)[..|a + b| - 1] == a + init;
      assert (a + b)[|a + b| - 1] == b[|b| - 1];
      ReporteConcatena(a, init, students);
    }
  }

  /** One entry per enrollment whose student is found: exactly as many
      entries as enrollments when every student is found. */
  lemma {:induction false} ReporteUnaEntradaPorInscripcion(es: seq<Enrollment>, students: map<Id, Student>)
    ensures (forall e :: e in es ==> e.estudianteId in students) ==> |Reporte(es, students)| == |es|
    decreases |es|
  {
    if es != [] {
      var init := es[..|es| - 1];
      assert forall e :: e in init ==> e in es;
      ReporteUnaEntradaPorInscripcion(init, students);
    }
  }

  /** Every entry copies the ledger of one of the enrollments unchanged and
      carries its progress; and every enrollment whose student is found has
      its entry. */
  lemma {:induction false} ReporteCopiaElLedger(es: seq<Enrollment>, students: map<Id, Student>)
    ensures forall it :: it in Reporte(es, students) ==>
              exists e :: e in es && e.estudianteId in students && it == Entrada(students[e.estudianteId], e)
    ensures forall e :: e in es && e.estudianteId in students ==> Entrada(students[e.estudianteId], e) in Reporte(es, students)
    decreases |es|
  {
    if es != [] {
      var init := es[..|es| - 1];
      assert es == init + [es[|es| - 1]];
      ReporteCopiaElLedger(init, students);
    }
  }

  /** A partial update of a course (the fields of `CourseUpdate` that the
      course declares); `None` is a field left unset. */
  datatype CourseUpdate = CourseUpdate(
    codigo: Option<string>,
    costoTotalInterno: Option<real>,
    matriculaInterno: Option<real>,
    costoTotalExterno: Option<real>,
    matriculaExterno: Option<real>,
    cantidadCuotas: Option<int>,
    inscritos: Option<seq<Id>>,
    activo: Option<bool>)

  /** The bounds the update request enforces on the fields it sets. */
  predicate CourseUpdateBoundsHold(u: CourseUpdate) {
    && (u.costoTotalInterno.Some? ==> u.costoTotalInterno.value > 0.0)
    && (u.matriculaInterno.Some? ==> u.matriculaInterno.value >= 0.0)
    && (u.costoTotalExterno.Some? ==> u.costoTotalExterno.value > 0.0)
    && (u.matriculaExterno.Some? ==> u.matriculaExterno.value >= 0.0)
    && (u.cantidadCuotas.Some? ==> u.cantidadCuotas.value >= 1)
  }

  datatype CampoCurso =
    | SetCodigo(codigo: string)
    | SetCostoTotalInterno(costo: real)
    | SetMatriculaInterno(matricula: real)
    | SetCostoTotalExterno(costo: real)
    | SetMatriculaExterno(matricula: real)
    | SetCantidadCuotas(cuotas: int)
    | SetInscritos(inscritos: seq<Id>)
    | SetActivo(activo: bool)

  /** The `setattr` for one field, present only when the update sets it. */
  function SegCodigo(u: CourseUpdate): seq<CampoCurso> {
    if u.codigo.Some? then [SetCodigo(u.codigo.value)] else []
  }
  function SegCostoInterno(u: CourseUpdate): seq<CampoCurso> {
    if u.costoTotalInterno.Some? then [SetCostoTotalInterno(u.costoTotalInterno.value)] else []
  }
  function SegMatriculaInterno(u: CourseUpdate): seq<CampoCurso> {
    if u.matriculaInterno.Some? then [SetMatriculaInterno(u.matriculaInterno.value)] else []
  }
  function SegCostoExterno(u: CourseUpdate): seq<CampoCurso> {
    if u.costoTotalExterno.Some? then [SetCostoTotalExterno(u.costoTotalExterno.value)] else []
  }
  function SegMatriculaExterno(u: CourseUpdate): seq<CampoCurso> {
    if u.matriculaExterno.Some? then [SetMatriculaExterno(u.matriculaExterno.value)] else []
  }
  function SegCuotas(u: CourseUpdate): seq<CampoCurso> {
    if u.cantidadCuotas.Some? then [SetCantidadCuotas(u.cantidadCuotas.value)] else []
  }
  function SegInscritos(u: CourseUpdate): seq<CampoCurso> {
    if u.inscritos.Some? then [SetInscritos(u.inscritos.value)] else []
  }
  function SegActivo(u: CourseUpdate): seq<CampoCurso> {
    if u.activo.Some? then [SetActivo(u.activo.value)] else []
  }

  /** The fields explicitly set, in declaration order
      (`dict(exclude_unset=True).items()`). */
  function ItemsCurso(u: CourseUpdate): seq<CampoCurso> {
    SegCodigo(u) + SegCostoInterno(u) + SegMatriculaInterno(u) + SegCostoExterno(u)
    + SegMatriculaExterno(u) + SegCuotas(u) + SegInscritos(u) + SegActivo(u)
  }

  /** One `setattr` of the update loop. */
  function AplicarCurso(c: Course, f: CampoCurso): Course {
    match f
    case SetCodigo(v) => c.(codigo := v)
    case SetCostoTotalInterno(v) => c.(costoTotalInterno := v)
    case SetMatriculaInterno(v) => c.(matriculaInterno := v)
    case SetCostoTotalExterno(v) => c.(costoTotalExterno := v)
    case SetMatriculaExterno(v) => c.(matriculaExterno := v)
    case SetCantidadCuotas(v) => c.(cantidadCuotas := v)
    case SetInscritos(v) => c.(inscritos := v)
    case SetActivo(v) => c.(activo := v)
  }

  /** What a course update means: set fields take the new value, the others
      (the id and the course discount among them) keep theirs. */
  function FusionCurso(c: Course, u: CourseUpdate): Course {
    c.(codigo := u.codigo.GetOr(c.codigo),
       costoTotalInterno := u.costoTotalInterno.GetOr(c.costoTotalInterno),
       matriculaInterno := u.matriculaInterno.GetOr(c.matriculaInterno),
       costoTotalExterno := u.costoTotalExterno.GetOr(c.costoTotalExterno),
       matriculaExterno := u.matriculaExterno.GetOr(c.matriculaExterno),
       cantidadCuotas := u.cantidadCuotas.GetOr(c.cantidadCuotas),
       inscritos := u.inscritos.GetOr(c.inscritos),
       activo := u.activo.GetOr(c.activo))
  }

  /** Each field's `setattr` sets that field to the update's value, or
      leaves the course alone when the update does not carry it. */
  lemma SegmentosCurso(c: Course, u: CourseUpdate)
    ensures Fold(SegCodigo(u), c, AplicarCurso) == c.(codigo := u.codigo.GetOr(c.codigo))
    ensures Fold(SegCostoInterno(u), c, AplicarCurso) == c.(costoTotalInterno := u.costoTotalInterno.GetOr(c.costoTotalInterno))
    ensures Fold(SegMatriculaInterno(u), c, AplicarCurso) == c.(matriculaInterno := u.matriculaInterno.GetOr(c.matriculaInterno))
    ensures Fold(SegCostoExterno(u), c, AplicarCurso) == c.(costoTotalExterno := u.costoTotalExterno.GetOr(c.costoTotalExterno))
    ensures Fold(SegMatriculaExterno(u), c, AplicarCurso) == c.(matriculaExterno := u.matriculaExterno.GetOr(c.matriculaExterno))
    ensures Fold(SegCuotas(u), c, AplicarCurso) == c.(cantidadCuotas := u.cantidadCuotas.GetOr(c.cantidadCuotas))
    ensures Fold(SegInscritos(u), c, AplicarCurso) == c.(inscritos := u.inscritos.GetOr(c.inscritos))
    ensures Fold(SegActivo(u), c, AplicarCurso) == c.(activo := u.activo.GetOr(c.activo))
  {
    FoldUno(SegCodigo(u), c, AplicarCurso);
    FoldUno(SegCostoInterno(u), c, AplicarCurso);
    FoldUno(SegMatriculaInterno(u), c, AplicarCurso);
    FoldUno(SegCostoExterno(u), c, AplicarCurso);
    FoldUno(SegMatriculaExterno(u), c, AplicarCurso);
    FoldUno(SegCuotas(u), c, AplicarCurso);
    FoldUno(SegInscritos(u), c, AplicarCurso);
    FoldUno(SegActivo(u), c, AplicarCurso);
  }

  /** Applying the set fields one after another, in order, is the update. */
  lemma {:induction false} AplicarItemsCursoEsFusion(c: Course, u: CourseUpdate)
    ensures Fold(ItemsCurso(u), c, AplicarCurso) == FusionCurso(c, u)
  {
    var a, b, d, e := SegCodigo(u), SegCostoInterno(u), SegMatriculaInterno(u), SegCostoExterno(u);
    var f, g, h, k := SegMatriculaExterno(u), SegCuotas(u), SegInscritos(u), SegActivo(u);
    FoldAppend(a + b + d + e + f + g + h, k, c, AplicarCurso);
    FoldAppend(a + b + d + e + f + g, h, c, AplicarCurso);
    FoldAppend(a + b + d + e + f, g, c, AplicarCurso);
    FoldAppend(a + b + d + e, f, c, AplicarCurso);
    FoldAppend(a + b + d, e, c, AplicarCurso);
    FoldAppend(a + b, d, c, AplicarCurso);
    FoldAppend(a, b, c, AplicarCurso);
    var c1 := Fold(a, c, AplicarCurso);
    SegmentosCurso(c, u);
    var c2 := Fold(b, c1, AplicarCurso);
    SegmentosCurso(c1, u);
    var c3 := Fold(d, c2, AplicarCurso);
    SegmentosCurso(c2, u);
    var c4 := Fold(e, c3, AplicarCurso);
    SegmentosCurso(c3, u);
    var c5 := Fold(f, c4, AplicarCurso);
    SegmentosCurso(c4, u);
    var c6 := Fold(g, c5, AplicarCurso);
    SegmentosCurso(c5, u);
    var c7 := Fold(h, c6, AplicarCurso);
    SegmentosCurso(c6, u);
    SegmentosCurso(c7, u);
  }

  /** The `setattr` loop of the update: one field per item, in order. */
  method AplicarCamposCurso(course: Course, items: seq<CampoCurso>) returns (r: Course)
    ensures r == Fold(items, course, AplicarCurso)
  {
    r := course;
    var i := 0;
    while i < |items|
      invariant 0 <= i <= |items|
      invariant r == Fold(items[..i], course, AplicarCurso)
    {
      assert items[..i + 1] == items[..i] + [items[i]];
      FoldSnoc(items[..i], items[i], course, AplicarCurso);
      r := AplicarCurso(r, items[i]);
      i := i + 1;
    }
    assert items[..i] == items;
  }

  /** `update_course`: applies the update and saves the course under its
      id; no other collection changes. */
  method UpdateCourse(db: Database, course: Course, u: CourseUpdate) returns (r: Course)
    modifies db
    ensures r == FusionCurso(course, u)
    ensures db.courses == old(db.courses)[course.id := r]
    ensures db.discounts == old(db.discounts) && db.students == old(db.students)
    ensures db.enrollments == old(db.enrollments) && db.payments == old(db.payments)
  {
    r := AplicarCamposCurso(course, ItemsCurso(u));
    AplicarItemsCursoEsFusion(course, u);
    db.courses := db.courses[course.id := r];
  }

  /** An update within its bounds keeps a valid course valid and keeps its
      id, its discount and every price it does not set; the installment the
      course computes is then the one of the new prices. */
  lemma {:induction false} ActualizacionConservaCurso(c: Course, u: CourseUpdate, esInterno: bool)
    requires c.Valid() && CourseUpdateBoundsHold(u)
    ensures FusionCurso(c, u).Valid()
    ensures FusionCurso(c, u).id == c.id && FusionCurso(c, u).descuentoCurso == c.descuentoCurso
    ensures u.costoTotalInterno.None? ==> FusionCurso(c, u).GetCostoTotal(true) == c.GetCostoTotal(true)
    ensures u.costoTotalExterno.None? ==> FusionCurso(c, u).GetCostoTotal(false) == c.GetCostoTotal(false)
    ensures var n := FusionCurso(c, u);
            n.GetMatricula(esInterno) + (n.cantidadCuotas as real) * n.CalcularMontoCuota(esInterno) == n.GetCostoTotal(esInterno)
  {
    var n := FusionCurso(c, u);
    assert n.Valid();
  }
}
