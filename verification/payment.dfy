/** The payment voucher of models/payment.py: what the student declared
    about one bank transfer, and the verification an administrator records
    on it in place. */
module PaymentModel {
  import opened Common
  import opened Enums

  /** The fields a payment is built from (`Payment(**data)`); the state and
      the verification fields are not among them and take their defaults. */
  datatype PaymentInput = PaymentInput(
    inscripcionId: Id,
    estudianteId: Id,
    cursoId: Id,
    concepto: string,
    numeroCuota: Option<int>,
    numeroTransaccion: string,
    remitente: string,
    fechaComprobante: Timestamp,
    montoComprobante: real,
    banco: string,
    glosa: Option<string>,
    cuentaDestino: string,
    cantidadPago: real,
    descuentoAplicado: Option<real>,
    comprobanteUrl: string)

  /** The per-field bounds of a payment. */
  predicate PaymentBoundsHold(concepto: string, numeroCuota: Option<int>, montoComprobante: real,
                              cantidadPago: real, descuentoAplicado: Option<real>)
  {
    && |concepto| >= 1
    && (numeroCuota.Some? ==> numeroCuota.value >= 1)
    && montoComprobante > 0.0
    && cantidadPago > 0.0
    && (descuentoAplicado.Some? ==> descuentoAplicado.value >= 0.0)
  }

  /** Construction-time validation: a payment is built only when every bound holds. */
  function ValidarPayment(d: PaymentInput): (r: Outcome)
    ensures r.Pass? <==> PaymentBoundsHold(d.concepto, d.numeroCuota, d.montoComprobante, d.cantidadPago, d.descuentoAplicado)
    ensures r.Pass? ==> d.cantidadPago > 0.0 && d.montoComprobante > 0.0
    ensures r.Pass? && d.numeroCuota.Some? ==> d.numeroCuota.value >= 1
  {
    if PaymentBoundsHold(d.concepto, d.numeroCuota, d.montoComprobante, d.cantidadPago, d.descuentoAplicado) then Pass
    else Fail(Invalid("Campo fuera de rango"))
  }

  /** What an administrator records when verifying a voucher. */
  datatype Verificacion = Verificacion(
    estado: EstadoPago,
    fechaVerificacion: Option<Timestamp>,
    verificadoPor: Option<string>,
    motivoRechazo: Option<string>)

  /** The verification of a voucher nobody has looked at yet. */
  const SinVerificar: Verificacion := Verificacion(Pendiente, None, None, None)

  /** The verification `aprobar_pago` writes: it depends only on the
      administrator and the time, not on the previous state. */
  function Aprobacion(admin: string, now: Timestamp): (v: Verificacion)
    ensures v.estado == Aprobado && v.verificadoPor == Some(admin) && v.motivoRechazo.None?
    ensures v.fechaVerificacion == Some(now)
  {
    Verificacion(Aprobado, Some(now), Some(admin), None)
  }

  /** The verification `rechazar_pago` writes; the reason is kept as given. */
  function Rechazo(admin: string, motivo: string, now: Timestamp): (v: Verificacion)
    ensures v.estado == Rechazado && v.verificadoPor == Some(admin) && v.motivoRechazo == Some(motivo)
    ensures v.fechaVerificacion == Some(now)
  {
    Verificacion(Rechazado, Some(now), Some(admin), Some(motivo))
  }

  /** Approving and rejecting are overwrites without a guard: whatever the
      voucher's state, an approval leads to APROBADO, also from RECHAZADO,
      where the documented workflow asks for a new voucher first; and doing
      it twice leaves what doing it once left, up to the time stamp. */
  lemma {:induction false} VerificacionSinGuarda(v: Verificacion, admin: string, motivo: string, t1: Timestamp, t2: Timestamp)
    ensures Aprobacion(admin, t2).(fechaVerificacion := None) == Aprobacion(admin, t1).(fechaVerificacion := None)
    ensures Rechazo(admin, motivo, t2).(fechaVerificacion := None) == Rechazo(admin, motivo, t1).(fechaVerificacion := None)
    ensures v.estado == Rechazado ==> !DocumentedPaymentStep(v.estado, Aprobacion(admin, t1).estado)
    ensures v.estado == Pendiente ==> DocumentedPaymentStep(v.estado, Aprobacion(admin, t1).estado)
    ensures v.estado == Pendiente ==> DocumentedPaymentStep(v.estado, Rechazo(admin, motivo, t1).estado)
  {
  }

  class Payment {
    var id: Id
    // References.
    var inscripcionId: Id
    var estudianteId: Id
    var cursoId: Id
    // What is being paid.
    var concepto: string
    var numeroCuota: Option<int>
    // The voucher as the student declared it.
    var numeroTransaccion: string
    var remitente: string
    var fechaComprobante: Timestamp
    var montoComprobante: real
    var banco: string
    var glosa: Option<string>
    var cuentaDestino: string
    var cantidadPago: real
    var descuentoAplicado: Option<real>
    var comprobanteUrl: string
    // State and audit.
    var estadoPago: EstadoPago
    var fechaSubida: Timestamp
    var fechaVerificacion: Option<Timestamp>
    var verificadoPor: Option<string>
    var motivoRechazo: Option<string>
    var updatedAt: Timestamp

    /** The field bounds every constructed payment satisfies. */
    predicate Valid()
      reads this
    {
      PaymentBoundsHold(concepto, numeroCuota, montoComprobante, cantidadPago, descuentoAplicado)
    }

    /** The verification part of the record. */
    function Verificado(): Verificacion
      reads this
    {
      Verificacion(estadoPago, fechaVerificacion, verificadoPor, motivoRechazo)
    }

    /** The declared part of the record, which verification never touches. */
    function Declarado(): PaymentInput
      reads this
    {
      PaymentInput(inscripcionId, estudianteId, cursoId, concepto, numeroCuota, numeroTransaccion,
                   remitente, fechaComprobante, montoComprobante, banco, glosa, cuentaDestino,
                   cantidadPago, descuentoAplicado, comprobanteUrl)
    }

    /** `Payment(**data)` once validation passed: stored as submitted,
        pending, with no verification recorded. */
    constructor (id: Id, d: PaymentInput, now: Timestamp)
      requires ValidarPayment(d).Pass?
      ensures Valid()
      ensures this.id == id && Declarado() == d
      ensures Verificado() == SinVerificar
      ensures fechaSubida == now && updatedAt == now
    {
      this.id := id;
      inscripcionId := d.inscripcionId;
      estudianteId := d.estudianteId;
      cursoId := d.cursoId;
      concepto := d.concepto;
      numeroCuota := d.numeroCuota;
      numeroTransaccion := d.numeroTransaccion;
      remitente := d.remitente;
      fechaComprobante := d.fechaComprobante;
      montoComprobante := d.montoComprobante;
      banco := d.banco;
      glosa := d.glosa;
      cuentaDestino := d.cuentaDestino;
      cantidadPago := d.cantidadPago;
      descuentoAplicado := d.descuentoAplicado;
      comprobanteUrl := d.comprobanteUrl;
      estadoPago := Pendiente;
      fechaSubida := now;
      fechaVerificacion := None;
      verificadoPor := None;
      motivoRechazo := None;
      updatedAt := now;
    }

    /** Marks the voucher approved by `admin`, clearing any earlier rejection
        reason. Only the verification fields and the update time change. */
    method AprobarPago(admin: string, now: Timestamp)
      modifies this`estadoPago, this`fechaVerificacion, this`verificadoPor, this`motivoRechazo, this`updatedAt
      ensures Verificado() == Aprobacion(admin, now)
      ensures updatedAt == now
      ensures Declarado() == old(Declarado())
      ensures old(Valid()) ==> Valid()
    {
      ghost var declarado := Declarado();
      estadoPago := Aprobado;
      fechaVerificacion := Some(now);
      verificadoPor := Some(admin);
      motivoRechazo := None;
      updatedAt := now;
      assert Declarado() == declarado;
    }

    /** Marks the voucher rejected by `admin` for `motivo`. Only the
        verification fields and the update time change. */
    method RechazarPago(admin: string, motivo: string, now: Timestamp)
      modifies this`estadoPago, this`fechaVerificacion, this`verificadoPor, this`motivoRechazo, this`updatedAt
      ensures Verificado() == Rechazo(admin, motivo, now)
      ensures updatedAt == now
      ensures Declarado() == old(Declarado())
      ensures old(Valid()) ==> Valid()
    {
      ghost var declarado := Declarado();
      estadoPago := Rechazado;
      fechaVerificacion := Some(now);
      verificadoPor := Some(admin);
      motivoRechazo := Some(motivo);
      updatedAt := now;
      assert Declarado() == declarado;
    }
  }
}
