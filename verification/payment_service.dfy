/** services/payment_service.py: recording a payment, its partial update and
    deletion, and the approval that credits the enrollment's ledger. */
module PaymentService {
  import opened Common
  import opened Enums
  import opened EnrollmentModel
  import opened PaymentModel
  import opened Store

  /** `create_payment`: a payment for a missing enrollment fails with
      not-found; otherwise the payment is stored as submitted, pending. No
      enrollment, and so no ledger, is touched. */
  method CreatePayment(db: Database, input: PaymentInput, newId: Id, now: Timestamp)
    returns (r: Result<Payment>)
    requires newId !in db.payments
    modifies db
    ensures input.inscripcionId !in old(db.enrollments) ==> r == Failure(NotFound("Inscripcion no encontrada"))
    ensures input.inscripcionId in old(db.enrollments) ==> (r.Success? <==> ValidarPayment(input).Pass?)
    ensures r.Failure? ==> unchanged(db)
    ensures r.Success? ==>
              && fresh(r.value) && r.value.id == newId && r.value.Valid()
              && r.value.Declarado() == input && r.value.Verificado() == SinVerificar
              && db.payments == old(db.payments)[newId := r.value]
              && db.enrollments == old(db.enrollments) && db.courses == old(db.courses)
              && db.students == old(db.students) && db.discounts == old(db.discounts)
    ensures forall e :: e in old(db.enrollments.Values) ==> unchanged(e)
  {
    if input.inscripcionId !in db.enrollments {
      return Failure(NotFound("Inscripcion no encontrada"));
    }
    var v := ValidarPayment(input);
    if v.Fail? {
      return Failure(v.error);
    }
    var payment := new Payment(newId, input, now);
    db.payments := db.payments[newId := payment];
    r := Success(payment);
  }

  /** A partial update of a payment. `None` is a field left unset; the
      nullable fields may also be set to null (`Some(None)`). */
  datatype PaymentUpdate = PaymentUpdate(
    numeroTransaccion: Option<string>,
    concepto: Option<string>,
    cantidadPago: Option<real>,
    descuentoAplicado: Option<Option<real>>,
    estadoPago: Option<EstadoPago>,
    numeroCuota: Option<Option<int>>)

  /** The bounds the update request enforces on the fields it sets. */
  predicate PaymentUpdateBoundsHold(u: PaymentUpdate) {
    && (u.concepto.Some? ==> |u.concepto.value| >= 1)
    && (u.cantidadPago.Some? ==> u.cantidadPago.value > 0.0)
    && (u.descuentoAplicado.Some? && u.descuentoAplicado.value.Some? ==> u.descuentoAplicado.value.value >= 0.0)
    && (u.numeroCuota.Some? && u.numeroCuota.value.Some? ==> u.numeroCuota.value.value >= 1)
  }

  /** One set field of a payment update. */
  datatype CampoPago =
    | SetNumeroTransaccion(numero: string)
    | SetConcepto(concepto: string)
    | SetCantidadPago(cantidad: real)
    | SetDescuentoAplicado(descuento: Option<real>)
    | SetEstadoPago(estado: EstadoPago)
    | SetNumeroCuota(cuota: Option<int>)

  /** The fields of a payment an update can set. */
  datatype EditablePago = EditablePago(
    numeroTransaccion: string,
    concepto: string,
    cantidadPago: real,
    descuentoAplicado: Option<real>,
    estadoPago: EstadoPago,
    numeroCuota: Option<int>)

  function EditablesPago(p: Payment): EditablePago
    reads p
  {
    EditablePago(p.numeroTransaccion, p.concepto, p.cantidadPago, p.descuentoAplicado, p.estadoPago, p.numeroCuota)
  }

  function AplicarPago(s: EditablePago, f: CampoPago): EditablePago {
    match f
    case SetNumeroTransaccion(v) => s.(numeroTransaccion := v)
    case SetConcepto(v) => s.(concepto := v)
    case SetCantidadPago(v) => s.(cantidadPago := v)
    case SetDescuentoAplicado(v) => s.(descuentoAplicado := v)
    case SetEstadoPago(v) => s.(estadoPago := v)
    case SetNumeroCuota(v) => s.(numeroCuota := v)
  }

  /** What a payment update means: set fields take the new value, the others keep theirs. */
  function FusionPago(s: EditablePago, u: PaymentUpdate): EditablePago {
    EditablePago(
      u.numeroTransaccion.GetOr(s.numeroTransaccion),
      u.concepto.GetOr(s.concepto),
      u.cantidadPago.GetOr(s.cantidadPago),
      u.descuentoAplicado.GetOr(s.descuentoAplicado),
      u.estadoPago.GetOr(s.estadoPago),
      u.numeroCuota.GetOr(s.numeroCuota))
  }

  /** The `k`-th field of the update, in declaration order, when it is set. */
  function TramoPago(u: PaymentUpdate, k: nat): seq<CampoPago> {
    if k == 0 then (if u.numeroTransaccion.Some? then [SetNumeroTransaccion(u.numeroTransaccion.value)] else [])
    else if k == 1 then (if u.concepto.Some? then [SetConcepto(u.concepto.value)] else [])
    else if k == 2 then (if u.cantidadPago.Some? then [SetCantidadPago(u.cantidadPago.value)] else [])
    else if k == 3 then (if u.descuentoAplicado.Some? then [SetDescuentoAplicado(u.descuentoAplicado.value)] else [])
    else if k == 4 then (if u.estadoPago.Some? then [SetEstadoPago(u.estadoPago.value)] else [])
    else (if u.numeroCuota.Some? then [SetNumeroCuota(u.numeroCuota.value)] else [])
  }

  /** The fields explicitly set, in declaration order. */
  function ItemsPago(u: PaymentUpdate): seq<CampoPago> {
    TramoPago(u, 0) + TramoPago(u, 1) + TramoPago(u, 2) + TramoPago(u, 3) + TramoPago(u, 4) + TramoPago(u, 5)
  }

  /** Setting the six runs in turn sets every carried field. */
  lemma PasosPago(s: EditablePago, u: PaymentUpdate)
    ensures Paso(TramoPago(u, 5), Paso(TramoPago(u, 4), Paso(TramoPago(u, 3), Paso(TramoPago(u, 2), Paso(TramoPago(u, 1), Paso(TramoPago(u, 0), s, AplicarPago), AplicarPago), AplicarPago), AplicarPago), AplicarPago), AplicarPago)
            == FusionPago(s, u)
  {
    var t1 := Paso(TramoPago(u, 0), s, AplicarPago);
    assert t1 == s.(numeroTransaccion := u.numeroTransaccion.GetOr(s.numeroTransaccion));
    var t2 := Paso(TramoPago(u, 1), t1, AplicarPago);
    assert t2 == t1.(concepto := u.concepto.GetOr(s.concepto));
    var t3 := Paso(TramoPago(u, 2), t2, AplicarPago);
    assert t3 == t2.(cantidadPago := u.cantidadPago.GetOr(s.cantidadPago));
    var t4 := Paso(TramoPago(u, 3), t3, AplicarPago);
    assert t4 == t3.(descuentoAplicado := u.descuentoAplicado.GetOr(s.descuentoAplicado));
    var t5 := Paso(TramoPago(u, 4), t4, AplicarPago);
    assert t5 == t4.(estadoPago := u.estadoPago.GetOr(s.estadoPago));
  }

  /** Applying the set fields one by one is the merge of the update. */
  lemma {:induction false} AplicarItemsPagoEsFusion(s: EditablePago, u: PaymentUpdate)
    ensures Fold(ItemsPago(u), s, AplicarPago) == FusionPago(s, u)
  {
    FoldTramos(TramoPago(u, 0), TramoPago(u, 1), TramoPago(u, 2), TramoPago(u, 3), TramoPago(u, 4), TramoPago(u, 5), s, AplicarPago);
    PasosPago(s, u);
  }

  /** `update_payment`: sets, in order, every field the update carries, and
      nothing else; in particular it may set the state, but it never
      touches an enrollment's ledger. A valid payment stays valid under an
      update that respects the request's bounds. */
  method UpdatePayment(p: Payment, u: PaymentUpdate)
    modifies p`numeroTransaccion, p`concepto, p`cantidadPago, p`descuentoAplicado, p`estadoPago, p`numeroCuota
    ensures EditablesPago(p) == FusionPago(old(EditablesPago(p)), u)
    ensures old(p.Valid()) && PaymentUpdateBoundsHold(u) ==> p.Valid()
  {
    AplicarCamposPago(p, ItemsPago(u));
    AplicarItemsPagoEsFusion(old(EditablesPago(p)), u);
    FusionPagoConservaCotas(old(EditablesPago(p)), u, p.montoComprobante);
  }

  /** The loop of `update_payment`: one `setattr` per item, in order. */
  method AplicarCamposPago(p: Payment, items: seq<CampoPago>)
    modifies p`numeroTransaccion, p`concepto, p`cantidadPago, p`descuentoAplicado, p`estadoPago, p`numeroCuota
    ensures EditablesPago(p) == Fold(items, old(EditablesPago(p)), AplicarPago)
  {
    ghost var s0 := EditablesPago(p);
    var i := 0;
    while i < |items|
      invariant 0 <= i <= |items|
      invariant EditablesPago(p) == Fold(items[..i], s0, AplicarPago)
    {
      assert items[..i + 1] == items[..i] + [items[i]];
      FoldSnoc(items[..i], items[i], s0, AplicarPago);
      match items[i] {
        case SetNumeroTransaccion(v) => p.numeroTransaccion := v;
        case SetConcepto(v) => p.concepto := v;
        case SetCantidadPago(v) => p.cantidadPago := v;
        case SetDescuentoAplicado(v) => p.descuentoAplicado := v;
        case SetEstadoPago(v) => p.estadoPago := v;
        case SetNumeroCuota(v) => p.numeroCuota := v;
      }
      i := i + 1;
    }
    assert items[..i] == items;
  }

  /** An update within the request's bounds keeps a payment's bounds. */
  lemma FusionPagoConservaCotas(s: EditablePago, u: PaymentUpdate, monto: real)
    ensures PaymentBoundsHold(s.concepto, s.numeroCuota, monto, s.cantidadPago, s.descuentoAplicado)
            && PaymentUpdateBoundsHold(u) ==>
            var n := FusionPago(s, u);
            PaymentBoundsHold(n.concepto, n.numeroCuota, monto, n.cantidadPago, n.descuentoAplicado)
  {
  }

  /** `delete_payment`: removes the payment when it exists and returns it;
      no ledger is touched. */
  method DeletePayment(db: Database, id: Id) returns (r: Option<Payment>)
    modifies db
    ensures id in old(db.payments) ==> r == Some(old(db.payments)[id])
    ensures id !in old(db.payments) ==> r.None?
    ensures db.payments == old(db.payments) - {id}
    ensures db.enrollments == old(db.enrollments) && db.courses == old(db.courses)
    ensures db.students == old(db.students) && db.discounts == old(db.discounts)
  {
    if id in db.payments {
      r := Some(db.payments[id]);
      db.payments := db.payments - {id};
    } else {
      r := None;
    }
  }

  /** The string the approval guard compares the state with is not the
      value of any payment state. */
  lemma AceptadoNoEsUnEstado()
    ensures ParseEstadoPago("aceptado").None?
    ensures forall e: EstadoPago :: EstadoPagoValue(e) != "aceptado"
  {
    ParseEstadoPagoSoloValores("aceptado");
  }

  /** `approve_payment_logic` with the guard it evidently means: a missing
      payment fails with not-found; an already approved one is returned
      untouched; any other (pending or rejected) is approved first and then
      its amount is credited to its enrollment's ledger, if the enrollment
      exists. No other payment changes. */
  method ApprovePaymentLogic(db: Database, paymentId: Id, admin: string, now: Timestamp)
    returns (r: Result<Payment>)
    modifies db.payments.Values, db.enrollments.Values
    ensures paymentId !in db.payments ==> r == Failure(NotFound("Pago no encontrado"))
    ensures paymentId in db.payments ==> r == Success(db.payments[paymentId])
    ensures paymentId in db.payments && old(db.payments[paymentId].estadoPago) == Aprobado ==>
              && (forall x :: x in db.payments.Values ==> unchanged(x))
              && (forall x :: x in db.enrollments.Values ==> unchanged(x))
    ensures paymentId in db.payments && old(db.payments[paymentId].estadoPago) != Aprobado ==>
              var p := db.payments[paymentId];
              && p.Verificado() == Aprobacion(admin, now)
              && p.Declarado() == old(p.Declarado())
              && (forall x :: x in db.payments.Values && x != p ==> unchanged(x))
              && (p.inscripcionId in db.enrollments ==>
                    var e := db.enrollments[p.inscripcionId];
                    && e.totalPagado == old(e.totalPagado) + p.cantidadPago
                    && e.saldoPendiente == SaldoEsperado(e.totalAPagar, e.totalPagado)
                    && e.CondicionesActuales() == old(e.CondicionesActuales())
                    && e.updatedAt == now
                    && (old(p.Valid()) && old(e.Valid()) ==> e.Valid())
                    && (forall x :: x in db.enrollments.Values && x != e ==> unchanged(x)))
              && (p.inscripcionId !in db.enrollments ==> forall x :: x in db.enrollments.Values ==> unchanged(x))
    ensures paymentId !in db.payments ==>
              (forall x :: x in db.payments.Values ==> unchanged(x))
              && (forall x :: x in db.enrollments.Values ==> unchanged(x))
  {
    if paymentId !in db.payments {
      return Failure(NotFound("Pago no encontrado"));
    }
    var payment := db.payments[paymentId];
    if payment.estadoPago == Aprobado {
      return Success(payment);
    }
    payment.AprobarPago(admin, now);
    if payment.inscripcionId in db.enrollments {
      var enrollment := db.enrollments[payment.inscripcionId];
      enrollment.ActualizarSaldo(payment.cantidadPago, now);
    }
    r := Success(payment);
  }

  /** `approve_payment_logic` as written: its early return compares the
      state with "aceptado", which no state equals, so every call approves
      the payment and credits its amount again. */
  method ApprovePaymentLogicAsWritten(db: Database, paymentId: Id, admin: string, now: Timestamp)
    returns (r: Result<Payment>)
    modifies db.payments.Values, db.enrollments.Values
    ensures paymentId !in db.payments ==> r == Failure(NotFound("Pago no encontrado"))
    ensures paymentId !in db.payments ==>
              (forall x :: x in db.payments.Values ==> unchanged(x))
              && (forall x :: x in db.enrollments.Values ==> unchanged(x))
    ensures paymentId in db.payments ==>
              var p := db.payments[paymentId];
              && r == Success(p)
              && p.Verificado() == Aprobacion(admin, now)
              && p.Declarado() == old(p.Declarado())
              && (forall x :: x in db.payments.Values && x != p ==> unchanged(x))
              && (p.inscripcionId in db.enrollments ==>
                    var e := db.enrollments[p.inscripcionId];
                    && e.totalPagado == old(e.totalPagado) + p.cantidadPago
                    && e.saldoPendiente == SaldoEsperado(e.totalAPagar, e.totalPagado)
                    && e.CondicionesActuales() == old(e.CondicionesActuales())
                    && e.updatedAt == now
                    && (old(p.Valid()) && old(e.Valid()) ==> e.Valid())
                    && (forall x :: x in db.enrollments.Values && x != e ==> unchanged(x)))
              && (p.inscripcionId !in db.enrollments ==> forall x :: x in db.enrollments.Values ==> unchanged(x))
  {
    if paymentId !in db.payments {
      return Failure(NotFound("Pago no encontrado"));
    }
    var payment := db.payments[paymentId];
    AceptadoNoEsUnEstado();
    if EstadoPagoValue(payment.estadoPago) == "aceptado" {
      return Success(payment);
    }
    payment.AprobarPago(admin, now);
    if payment.inscripcionId in db.enrollments {
      var enrollment := db.enrollments[payment.inscripcionId];
      enrollment.ActualizarSaldo(payment.cantidadPago, now);
    }
    r := Success(payment);
  }

  /** Approving the same payment twice as written credits its amount twice. */
  method DobleAprobacionComoEscrita(db: Database, paymentId: Id, admin: string, t1: Timestamp, t2: Timestamp)
    requires paymentId in db.payments && db.payments[paymentId].inscripcionId in db.enrollments
    modifies db.payments.Values, db.enrollments.Values
    ensures var p := db.payments[paymentId];
            var e := old(db.enrollments[p.inscripcionId]);
            e.totalPagado == old(e.totalPagado) + 2.0 * old(p.cantidadPago)
  {
    var p := db.payments[paymentId];
    var e := db.enrollments[p.inscripcionId];
    var _ := ApprovePaymentLogicAsWritten(db, paymentId, admin, t1);
    var _ := ApprovePaymentLogicAsWritten(db, paymentId, admin, t2);
  }

  /** With the intended guard, approving a payment twice credits it once
      (and not at all when it was already approved). */
  method DobleAprobacionCorregida(db: Database, paymentId: Id, admin: string, t1: Timestamp, t2: Timestamp)
    requires paymentId in db.payments && db.payments[paymentId].inscripcionId in db.enrollments
    modifies db.payments.Values, db.enrollments.Values
    ensures var p := db.payments[paymentId];
            var e := old(db.enrollments[p.inscripcionId]);
            && (old(p.estadoPago) != Aprobado ==> e.totalPagado == old(e.totalPagado) + old(p.cantidadPago))
            && (old(p.estadoPago) == Aprobado ==> e.totalPagado == old(e.totalPagado))
  {
    var p := db.payments[paymentId];
    var e := db.enrollments[p.inscripcionId];
    var _ := ApprovePaymentLogic(db, paymentId, admin, t1);
    var _ := ApprovePaymentLogic(db, paymentId, admin, t2);
  }
}
