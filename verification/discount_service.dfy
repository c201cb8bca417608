/** services/discount_service.py: the allow-list of a discount (adding and
    removing a student), the query for a student's discounts, and the
    partial update of a discount. */
module DiscountService {
  import opened Common
  import opened DiscountModel
  import opened Store

  /** The allow-list after adding `s`: unchanged when `s` is already listed,
      otherwise `s` appended at the end. The members and their order are
      kept, and a list without duplicates stays without duplicates. */
  function WithStudent(lista: seq<Id>, s: Id): (r: seq<Id>)
    ensures s in r
    ensures forall x :: x in r <==> x in lista || x == s
    ensures |lista| <= |r| && r[..|lista|] == lista
    ensures s in lista ==> r == lista
    ensures s !in lista ==> |r| == |lista| + 1
    ensures NoDuplicates(lista) ==> NoDuplicates(r)
  {
    if s in lista then lista else lista + [s]
  }

  /** Where `s` first occurs in `lista`. */
  function FirstIndex(lista: seq<Id>, s: Id): (k: nat)
    requires s in lista
    ensures k < |lista| && lista[k] == s && s !in lista[..k]
  {
    if lista[0] == s then 0
    else
      assert s in lista[1..];
      var k := 1 + FirstIndex(lista[1..], s);
      assert lista[..k] == [lista[0]] + lista[1..][..k - 1];
      k
  }

  /** Python's `list.remove`: the first occurrence of `s` is taken out; a
      list without `s` is left as it is. */
  function RemoveFirst(lista: seq<Id>, s: Id): (r: seq<Id>)
    ensures s !in lista ==> r == lista
    ensures s in lista ==> |r| == |lista| - 1
    ensures multiset(r) == multiset(lista) - multiset{s}
  {
    if lista == [] then []
    else
      assert lista == [lista[0]] + lista[1..];
      if lista[0] == s then lista[1..]
      else [lista[0]] + RemoveFirst(lista[1..], s)
  }

  /** Removing keeps the order of the other members: what is left is the
      list with its first `s` cut out. */
  lemma {:induction false} RemoveFirstCutsFirstOccurrence(lista: seq<Id>, s: Id)
    requires s in lista
    ensures var k := FirstIndex(lista, s);
            RemoveFirst(lista, s) == lista[..k] + lista[k + 1..]
  {
    if lista[0] != s {
      var t := lista[1..];
      assert s in t;
      RemoveFirstCutsFirstOccurrence(t, s);
      var k' := FirstIndex(t, s);
      var k := FirstIndex(lista, s);
      assert k == k' + 1;
      assert RemoveFirst(lista, s) == [lista[0]] + RemoveFirst(t, s);
      PrefijoYResto(lista, k');
      var x, p, q := [lista[0]], t[..k'], t[k' + 1..];
      assert RemoveFirst(lista, s) == x + (p + q);
      Asociativa(x, p, q);
      assert x + p == lista[..k];
      assert q == lista[k + 1..];
    }
  }

  /** Slicing a list and slicing its tail agree, one position apart. */
  lemma PrefijoYResto(l: seq<Id>, j: nat)
    requires j + 1 < |l|
    ensures l[..j + 1] == [l[0]] + l[1..][..j]
    ensures l[j + 2..] == l[1..][j + 1..]
  {
  }

  /** Concatenation regroups freely. */
  lemma Asociativa(x: seq<Id>, p: seq<Id>, q: seq<Id>)
    ensures x + (p + q) == (x + p) + q
  {
  }

  /** Cutting one element out of a list without duplicates leaves a list
      without duplicates. */
  lemma NoDuplicatesCut(l: seq<Id>, k: nat)
    requires NoDuplicates(l) && k < |l|
    ensures NoDuplicates(l[..k] + l[k + 1..])
  {
    var r := l[..k] + l[k + 1..];
    forall i, j | 0 <= i < j < |r|
      ensures r[i] != r[j]
    {
      var i' := if i < k then i else i + 1;
      var j' := if j < k then j else j + 1;
      assert r[i] == l[i'] && r[j] == l[j'];
    }
  }

  /** On a list without duplicates, the removed student is gone
      afterwards and the list stays without duplicates. */
  lemma {:induction false} RemoveFirstOnSetLike(lista: seq<Id>, s: Id)
    requires NoDuplicates(lista)
    ensures s !in RemoveFirst(lista, s)
    ensures NoDuplicates(RemoveFirst(lista, s))
  {
    if s in lista {
      var k := FirstIndex(lista, s);
      RemoveFirstCutsFirstOccurrence(lista, s);
      NoDuplicatesCut(lista, k);
      assert s !in lista[k + 1..] by {
        forall i | k + 1 <= i < |lista| ensures lista[i] != s {
          assert lista[k] == s;
        }
      }
    }
  }

  /** `add_student_to_discount`. A missing discount yields None and nothing
      changes; otherwise the stored discount's allow-list becomes
      `WithStudent` of it (saved only when it grew), and the discount is
      returned. */
  method AddStudentToDiscount(db: Database, discountId: Id, studentId: Id) returns (r: Option<Discount>)
    modifies db
    ensures discountId !in old(db.discounts) ==> r.None? && db.discounts == old(db.discounts)
    ensures discountId in old(db.discounts) ==>
              var d := old(db.discounts)[discountId];
              var n := d.(listaEstudiantes := WithStudent(d.listaEstudiantes, studentId));
              r == Some(n) && db.discounts == old(db.discounts)[discountId := n]
    ensures db.courses == old(db.courses) && db.students == old(db.students)
    ensures db.enrollments == old(db.enrollments) && db.payments == old(db.payments)
  {
    if discountId !in db.discounts {
      return None;
    }
    var discount := db.discounts[discountId];
    if studentId !in discount.listaEstudiantes {
      discount := discount.(listaEstudiantes := discount.listaEstudiantes + [studentId]);
      db.discounts := db.discounts[discountId := discount];
    } else {
      assert db.discounts[discountId := discount] == db.discounts;
    }
    r := Some(discount);
  }

  /** `remove_student_from_discount`. A missing discount yields None and
      nothing changes; otherwise the first occurrence of the student is
      removed from the stored allow-list (nothing changes when the student is
      not listed), and the discount is returned. */
  method RemoveStudentFromDiscount(db: Database, discountId: Id, studentId: Id) returns (r: Option<Discount>)
    modifies db
    ensures discountId !in old(db.discounts) ==> r.None? && db.discounts == old(db.discounts)
    ensures discountId in old(db.discounts) ==>
              var d := old(db.discounts)[discountId];
              var n := d.(listaEstudiantes := RemoveFirst(d.listaEstudiantes, studentId));
              r == Some(n) && db.discounts == old(db.discounts)[discountId := n]
    ensures db.courses == old(db.courses) && db.students == old(db.students)
    ensures db.enrollments == old(db.enrollments) && db.payments == old(db.payments)
  {
    if discountId !in db.discounts {
      return None;
    }
    var discount := db.discounts[discountId];
    if studentId in discount.listaEstudiantes {
      discount := discount.(listaEstudiantes := RemoveFirst(discount.listaEstudiantes, studentId));
      db.discounts := db.discounts[discountId := discount];
    } else {
      assert db.discounts[discountId := discount] == db.discounts;
    }
    r := Some(discount);
  }

  /** `get_discounts_by_student` over the stored discounts, in storage order:
      exactly the active discounts whose allow-list contains the student. */
  function DiscountsByStudent(todos: seq<Discount>, s: Id): (r: seq<Discount>)
    ensures forall d :: d in r <==> d in todos && d.activo && s in d.listaEstudiantes
    ensures |r| <= |todos|
  {
    if todos == [] then []
    else
      var resto := DiscountsByStudent(todos[1..], s);
      assert todos == [todos[0]] + todos[1..];
      if todos[0].activo && s in todos[0].listaEstudiantes then [todos[0]] + resto else resto
  }

  /** Over the stored collection (`todos` holds exactly the stored
      discounts), the query finds a stored discount iff it is active and
      lists the student, and finds nothing that is not stored. */
  lemma {:induction false} DiscountsByStudentDelAlmacen(discounts: map<Id, Discount>, todos: seq<Discount>, s: Id)
    requires forall d :: d in todos <==> d in discounts.Values
    ensures forall k :: k in discounts ==>
              (discounts[k] in DiscountsByStudent(todos, s) <==> discounts[k].activo && s in discounts[k].listaEstudiantes)
    ensures forall d :: d in DiscountsByStudent(todos, s) ==> exists k :: k in discounts && discounts[k] == d
  {
    forall k | k in discounts
      ensures discounts[k] in todos
    {
      assert discounts[k] in discounts.Values;
    }
  }

  /** After adding a student to an active discount, the query for that
      student finds the discount. */
  lemma {:induction false} AddedStudentFindsDiscount(todos: seq<Discount>, i: nat, s: Id)
    requires i < |todos| && todos[i].activo
    ensures var d := todos[i].(listaEstudiantes := WithStudent(todos[i].listaEstudiantes, s));
            d in DiscountsByStudent(todos[i := d], s)
  {
    var d := todos[i].(listaEstudiantes := WithStudent(todos[i].listaEstudiantes, s));
    assert todos[i := d][i] == d;
  }

  /** A partial update of a discount. `None` is a field left unset; the
      course and the two dates are nullable and may be set to null. */
  datatype DiscountUpdate = DiscountUpdate(
    nombre: Option<string>,
    porcentaje: Option<real>,
    listaEstudiantes: Option<seq<Id>>,
    cursoId: Option<Option<Id>>,
    fechaInicio: Option<Option<Timestamp>>,
    fechaFin: Option<Option<Timestamp>>,
    activo: Option<bool>)

  /** The bounds the update request enforces on the fields it sets. */
  predicate DiscountUpdateBoundsHold(u: DiscountUpdate) {
    && (u.nombre.Some? ==> 1 <= |u.nombre.value| <= 200)
    && (u.porcentaje.Some? ==> 0.0 <= u.porcentaje.value <= 100.0)
  }

  datatype CampoDescuento =
    | SetNombre(nombre: string)
    | SetPorcentaje(porcentaje: real)
    | SetListaEstudiantes(lista: seq<Id>)
    | SetCursoId(curso: Option<Id>)
    | SetFechaInicio(inicio: Option<Timestamp>)
    | SetFechaFin(fin: Option<Timestamp>)
    | SetActivo(activo: bool)

  /** The `setattr` for one field, present only when the update sets it. */
  function SegNombre(u: DiscountUpdate): seq<CampoDescuento> {
    if u.nombre.Some? then [SetNombre(u.nombre.value)] else []
  }
  function SegPorcentaje(u: DiscountUpdate): seq<CampoDescuento> {
    if u.porcentaje.Some? then [SetPorcentaje(u.porcentaje.value)] else []
  }
  function SegLista(u: DiscountUpdate): seq<CampoDescuento> {
    if u.listaEstudiantes.Some? then [SetListaEstudiantes(u.listaEstudiantes.value)] else []
  }
  function SegCurso(u: DiscountUpdate): seq<CampoDescuento> {
    if u.cursoId.Some? then [SetCursoId(u.cursoId.value)] else []
  }
  function SegInicio(u: DiscountUpdate): seq<CampoDescuento> {
    if u.fechaInicio.Some? then [SetFechaInicio(u.fechaInicio.value)] else []
  }
  function SegFin(u: DiscountUpdate): seq<CampoDescuento> {
    if u.fechaFin.Some? then [SetFechaFin(u.fechaFin.value)] else []
  }
  function SegActivo(u: DiscountUpdate): seq<CampoDescuento> {
    if u.activo.Some? then [SetActivo(u.activo.value)] else []
  }

  /** The fields explicitly set, in declaration order. */
  function ItemsDescuento(u: DiscountUpdate): seq<CampoDescuento> {
    SegNombre(u) + SegPorcentaje(u) + SegLista(u) + SegCurso(u) + SegInicio(u) + SegFin(u) + SegActivo(u)
  }

  function AplicarDescuento(d: Discount, f: CampoDescuento): Discount {
    match f
    case SetNombre(v) => d.(nombre := v)
    case SetPorcentaje(v) => d.(porcentaje := v)
    case SetListaEstudiantes(v) => d.(listaEstudiantes := v)
    case SetCursoId(v) => d.(cursoId := v)
    case SetFechaInicio(v) => d.(fechaInicio := v)
    case SetFechaFin(v) => d.(fechaFin := v)
    case SetActivo(v) => d.(activo := v)
  }

  /** What a discount update means: set fields take the new value, the others keep theirs. */
  function FusionDescuento(d: Discount, u: DiscountUpdate): Discount {
    d.(nombre := u.nombre.GetOr(d.nombre),
       porcentaje := u.porcentaje.GetOr(d.porcentaje),
       listaEstudiantes := u.listaEstudiantes.GetOr(d.listaEstudiantes),
       cursoId := u.cursoId.GetOr(d.cursoId),
       fechaInicio := u.fechaInicio.GetOr(d.fechaInicio),
       fechaFin := u.fechaFin.GetOr(d.fechaFin),
       activo := u.activo.GetOr(d.activo))
  }

  /** Each field's `setattr` sets that field to the update's value, or
      leaves the discount alone when the update does not carry it. */
  lemma Segmentos(d: Discount, u: DiscountUpdate)
    ensures Fold(SegNombre(u), d, AplicarDescuento) == d.(nombre := u.nombre.GetOr(d.nombre))
    ensures Fold(SegPorcentaje(u), d, AplicarDescuento) == d.(porcentaje := u.porcentaje.GetOr(d.porcentaje))
    ensures Fold(SegLista(u), d, AplicarDescuento) == d.(listaEstudiantes := u.listaEstudiantes.GetOr(d.listaEstudiantes))
    ensures Fold(SegCurso(u), d, AplicarDescuento) == d.(cursoId := u.cursoId.GetOr(d.cursoId))
    ensures Fold(SegInicio(u), d, AplicarDescuento) == d.(fechaInicio := u.fechaInicio.GetOr(d.fechaInicio))
    ensures Fold(SegFin(u), d, AplicarDescuento) == d.(fechaFin := u.fechaFin.GetOr(d.fechaFin))
    ensures Fold(SegActivo(u), d, AplicarDescuento) == d.(activo := u.activo.GetOr(d.activo))
  {
    FoldUno(SegNombre(u), d, AplicarDescuento);
    FoldUno(SegPorcentaje(u), d, AplicarDescuento);
    FoldUno(SegLista(u), d, AplicarDescuento);
    FoldUno(SegCurso(u), d, AplicarDescuento);
    FoldUno(SegInicio(u), d, AplicarDescuento);
    FoldUno(SegFin(u), d, AplicarDescuento);
    FoldUno(SegActivo(u), d, AplicarDescuento);
  }

  /** Applying the set fields one after another, in order, is the update. */
  lemma {:induction false} AplicarItemsDescuentoEsFusion(d: Discount, u: DiscountUpdate)
    ensures Fold(ItemsDescuento(u), d, AplicarDescuento) == FusionDescuento(d, u)
  {
    var a, b, c, e := SegNombre(u), SegPorcentaje(u), SegLista(u), SegCurso(u);
    var f, g, h := SegInicio(u), SegFin(u), SegActivo(u);
    FoldAppend(a + b + c + e + f + g, h, d, AplicarDescuento);
    FoldAppend(a + b + c + e + f, g, d, AplicarDescuento);
    FoldAppend(a + b + c + e, f, d, AplicarDescuento);
    FoldAppend(a + b + c, e, d, AplicarDescuento);
    FoldAppend(a + b, c, d, AplicarDescuento);
    FoldAppend(a, b, d, AplicarDescuento);
    var d1 := Fold(a, d, AplicarDescuento);
    Segmentos(d, u);
    var d2 := Fold(b, d1, AplicarDescuento);
    Segmentos(d1, u);
    var d3 := Fold(c, d2, AplicarDescuento);
    Segmentos(d2, u);
    var d4 := Fold(e, d3, AplicarDescuento);
    Segmentos(d3, u);
    var d5 := Fold(f, d4, AplicarDescuento);
    Segmentos(d4, u);
    var d6 := Fold(g, d5, AplicarDescuento);
    Segmentos(d5, u);
    Segmentos(d6, u);
  }

  /** The `setattr` loop of the update: one field per item, in order. */
  method AplicarCamposDescuento(discount: Discount, items: seq<CampoDescuento>) returns (r: Discount)
    ensures r == Fold(items, discount, AplicarDescuento)
  {
    r := discount;
    var i := 0;
    while i < |items|
      invariant 0 <= i <= |items|
      invariant r == Fold(items[..i], discount, AplicarDescuento)
    {
      assert items[..i + 1] == items[..i] + [items[i]];
      FoldSnoc(items[..i], items[i], discount, AplicarDescuento);
      r := AplicarDescuento(r, items[i]);
      i := i + 1;
    }
    assert items[..i] == items;
  }

  /** `update_discount`: applies the update and saves the discount under
      its id; no other collection changes. */
  method UpdateDiscount(db: Database, discount: Discount, u: DiscountUpdate) returns (r: Discount)
    modifies db
    ensures r == FusionDescuento(discount, u)
    ensures db.discounts == old(db.discounts)[discount.id := r]
    ensures db.courses == old(db.courses) && db.students == old(db.students)
    ensures db.enrollments == old(db.enrollments) && db.payments == old(db.payments)
  {
    r := AplicarCamposDescuento(discount, ItemsDescuento(u));
    AplicarItemsDescuentoEsFusion(discount, u);
    db.discounts := db.discounts[discount.id := r];
  }

  /** The update keeps the name and percentage bounds, but the date check
      of construction is not run again: an update can store a window that
      ends before it starts. */
  lemma {:induction false} UpdateKeepsBoundsNotDates(d: Discount, u: DiscountUpdate)
    requires d.Valid() && DiscountUpdateBoundsHold(u)
    ensures var n := FusionDescuento(d, u);
            1 <= |n.nombre| <= 200 && 0.0 <= n.porcentaje <= 100.0
    ensures var w := Discount(0, "Beca", 10.0, [], None, Some(5), Some(9), true);
            var v := DiscountUpdate(None, None, None, None, None, Some(Some(1)), None);
            w.Valid() && DiscountUpdateBoundsHold(v) && !FusionDescuento(w, v).Valid()
  {
  }
}
