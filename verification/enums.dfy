/** The enumerations of models/enums.py that the enrollment core uses, with
    their stored string values and the lifecycles their documentation draws. */
module Enums {
  import opened Common

  /** State of a single payment voucher. */
  datatype EstadoPago = Pendiente | Rechazado | Aprobado

  /** Lifecycle state of an enrollment. */
  datatype EstadoInscripcion = PendientePago | Activo | Suspendido | Completado | Cancelado

  /** Relation of the student to the university; selects the price list. */
  datatype TipoEstudiante = Interno | Externo

  /** Roles of administrative users. */
  datatype UserRole = Admin | Superadmin

  /** The string each payment state is stored as (a `str` enum compares
      equal to it); reading it back gives the state again. */
  function EstadoPagoValue(e: EstadoPago): (r: string)
    ensures ParseEstadoPago(r) == Some(e)
  {
    match e
    case Pendiente => "pendiente"
    case Rechazado => "rechazado"
    case Aprobado => "aprobado"
  }

  /** `EstadoPago(s)`: reading a stored payment state back. */
  function ParseEstadoPago(s: string): Option<EstadoPago> {
    if s == "pendiente" then Some(Pendiente)
    else if s == "rechazado" then Some(Rechazado)
    else if s == "aprobado" then Some(Aprobado)
    else None
  }

  /** Only the stored values read back as payment states, each as the state
      it is the value of. */
  lemma ParseEstadoPagoSoloValores(s: string)
    ensures ParseEstadoPago(s).Some? ==> EstadoPagoValue(ParseEstadoPago(s).value) == s
    ensures ParseEstadoPago(s).None? ==> forall e: EstadoPago :: EstadoPagoValue(e) != s
  {
  }

  /** The string each enrollment state is stored as; reading it back gives
      the state again. */
  function EstadoInscripcionValue(e: EstadoInscripcion): (r: string)
    ensures ParseEstadoInscripcion(r) == Some(e)
  {
    match e
    case PendientePago => "pendiente_pago"
    case Activo => "activo"
    case Suspendido => "suspendido"
    case Completado => "completado"
    case Cancelado => "cancelado"
  }

  /** `EstadoInscripcion(s)`: reading a stored enrollment state back. */
  function ParseEstadoInscripcion(s: string): Option<EstadoInscripcion> {
    if s == "pendiente_pago" then Some(PendientePago)
    else if s == "activo" then Some(Activo)
    else if s == "suspendido" then Some(Suspendido)
    else if s == "completado" then Some(Completado)
    else if s == "cancelado" then Some(Cancelado)
    else None
  }

  /** Only the stored values read back as enrollment states. */
  lemma ParseEstadoInscripcionSoloValores(s: string)
    ensures ParseEstadoInscripcion(s).Some? ==> EstadoInscripcionValue(ParseEstadoInscripcion(s).value) == s
    ensures ParseEstadoInscripcion(s).None? ==> forall e: EstadoInscripcion :: EstadoInscripcionValue(e) != s
  {
  }

  /** The string each student type is stored and requested as; reading it
      back gives the type again. */
  function TipoEstudianteValue(t: TipoEstudiante): (r: string)
    ensures ParseTipoEstudiante(r) == Some(t)
  {
    match t
    case Interno => "interno"
    case Externo => "externo"
  }

  /** `TipoEstudiante(s)`: reading a student type back. */
  function ParseTipoEstudiante(s: string): Option<TipoEstudiante> {
    if s == "interno" then Some(Interno)
    else if s == "externo" then Some(Externo)
    else None
  }

  /** Only the stored values read back as student types. */
  lemma ParseTipoEstudianteSoloValores(s: string)
    ensures ParseTipoEstudiante(s).Some? ==> TipoEstudianteValue(ParseTipoEstudiante(s).value) == s
    ensures ParseTipoEstudiante(s).None? ==> forall t: TipoEstudiante :: TipoEstudianteValue(t) != s
  {
  }

  /** The string each role is stored as; reading it back gives the role
      again. */
  function UserRoleValue(r: UserRole): (v: string)
    ensures ParseUserRole(v) == Some(r)
  {
    match r
    case Admin => "admin"
    case Superadmin => "superadmin"
  }

  /** `UserRole(s)`: reading a stored role back. */
  function ParseUserRole(s: string): Option<UserRole> {
    if s == "admin" then Some(Admin)
    else if s == "superadmin" then Some(Superadmin)
    else None
  }

  /** Only the stored values read back as roles. */
  lemma ParseUserRoleSoloValores(s: string)
    ensures ParseUserRole(s).Some? ==> UserRoleValue(ParseUserRole(s).value) == s
    ensures ParseUserRole(s).None? ==> forall r: UserRole :: UserRoleValue(r) != s
  {
  }

  /** The payment workflow the enumeration documents: a pending voucher is
      approved or rejected, and a rejected one goes back to pending when a new
      voucher is uploaded. */
  predicate DocumentedPaymentStep(from: EstadoPago, to: EstadoPago) {
    (from == Pendiente && (to == Aprobado || to == Rechazado))
    || (from == Rechazado && to == Pendiente)
  }

  /** The enrollment lifecycle the enumeration documents. */
  predicate DocumentedEnrollmentStep(from: EstadoInscripcion, to: EstadoInscripcion) {
    (from == PendientePago && to == Activo)
    || (from == Activo && (to == Completado || to == Suspendido || to == Cancelado))
  }

  /** The states one documented payment step leads to from `from`. */
  function PaymentSuccessors(from: EstadoPago): (r: set<EstadoPago>)
    ensures forall to :: to in r <==> DocumentedPaymentStep(from, to)
  {
    match from
    case Pendiente => {Aprobado, Rechazado}
    case Rechazado => {Pendiente}
    case Aprobado => {}
  }

  /** The states a documented enrollment step can lead to from `from`. */
  function EnrollmentSuccessors(from: EstadoInscripcion): (r: set<EstadoInscripcion>)
    ensures forall to :: to in r <==> DocumentedEnrollmentStep(from, to)
  {
    match from
    case PendientePago => {Activo}
    case Activo => {Completado, Suspendido, Cancelado}
    case _ => {}
  }

  /** Approval is final in the documented workflow, and a rejected voucher is
      never approved directly: it must go back to pending first. */
  lemma ApprovedIsTerminal(to: EstadoPago)
    ensures !DocumentedPaymentStep(Aprobado, to)
    ensures !DocumentedPaymentStep(Rechazado, Aprobado)
  {
  }
}
