/** api/dependencies.py: who the caller is (`get_current_user`) and what the
    caller may do (`require_admin`, `require_superadmin`,
    `check_student_access`). Decoding the bearer token and looking accounts
    up are given as parameters: `decode` stands for the token decoder and
    the two maps for the user and student collections. */
module Access {
  import opened Common
  import opened Enums
  import opened Store

  /** The part of an administrator account the decisions read. */
  datatype User = User(id: Id, username: string, rol: UserRole, activo: bool)

  /** The authenticated caller: an administrator account or a student. */
  datatype Actor = AsUser(user: User) | AsStudent(student: Student)

  /** The claims of a decoded token; a missing claim is `None`. */
  datatype Payload = Payload(sub: Option<Id>, userType: Option<string>)

  /** The account development mode hands out without looking at any
      credentials. */
  const MockUser: User := User(1, "dev_admin", Superadmin, true)

  /** The token names an account of its declared kind that exists and is
      active. */
  predicate Identifica(p: Payload, users: map<Id, User>, students: map<Id, Student>) {
    && p.sub.Some?
    && (|| (p.userType == Some("user") && p.sub.value in users && users[p.sub.value].activo)
        || (p.userType == Some("student") && p.sub.value in students && students[p.sub.value].activo))
  }

  /** `get_current_user`. In development mode the superadmin mock is returned
      whatever the credentials. Otherwise the caller is authenticated exactly
      when a token is presented, it decodes, and its claims name an active
      account of the declared kind, and that account is returned; every
      refusal is a 401. */
  function GetCurrentUser(devMode: bool, credentials: Option<string>, decode: string -> Option<Payload>,
                          users: map<Id, User>, students: map<Id, Student>): (r: Result<Actor>)
    ensures devMode ==> r == Success(AsUser(MockUser))
    ensures !devMode ==>
              (r.Success? <==> credentials.Some? && decode(credentials.value).Some?
                                && Identifica(decode(credentials.value).value, users, students))
    ensures !devMode && r.Success? ==>
              var p := decode(credentials.value).value;
              || (r.value.AsUser? && p.userType == Some("user") && r.value.user == users[p.sub.value] && r.value.user.activo)
              || (r.value.AsStudent? && p.userType == Some("student") && r.value.student == students[p.sub.value] && r.value.student.activo)
    ensures r.Failure? ==> r.error.Unauthorized?
  {
    if devMode then Success(AsUser(MockUser))
    else if credentials.None? then Failure(Unauthorized("Se requiere autenticación"))
    else
      var payload := decode(credentials.value);
      if payload.None? then Failure(Unauthorized("Token inválido o expirado"))
      else
        var p := payload.value;
        if p.sub.None? || p.userType.None? then Failure(Unauthorized("Token inválido"))
        else if p.userType.value == "user" then
          if p.sub.value !in users || !users[p.sub.value].activo then
            Failure(Unauthorized("Usuario no encontrado o inactivo"))
          else Success(AsUser(users[p.sub.value]))
        else if p.userType.value == "student" then
          if p.sub.value !in students || !students[p.sub.value].activo then
            Failure(Unauthorized("Estudiante no encontrado o inactivo"))
          else Success(AsStudent(students[p.sub.value]))
        else Failure(Unauthorized("Tipo de usuario inválido"))
  }

  /** Outside development mode nobody is authenticated as an inactive or
      missing account, with a token of an unknown kind, or without a token. */
  lemma {:induction false} SinCuentaActivaNoHayAcceso(decode: string -> Option<Payload>,
                                                      users: map<Id, User>, students: map<Id, Student>, tok: string, id: Id)
    ensures GetCurrentUser(false, None, decode, users, students) == Failure(Unauthorized("Se requiere autenticación"))
    ensures decode(tok).None? ==> GetCurrentUser(false, Some(tok), decode, users, students).Failure?
    ensures decode(tok) == Some(Payload(Some(id), Some("user"))) && (id !in users || !users[id].activo) ==>
              GetCurrentUser(false, Some(tok), decode, users, students).Failure?
    ensures decode(tok) == Some(Payload(Some(id), Some("student"))) && (id !in students || !students[id].activo) ==>
              GetCurrentUser(false, Some(tok), decode, users, students).Failure?
    ensures decode(tok).Some? && decode(tok).value.userType.Some?
            && decode(tok).value.userType.value != "user" && decode(tok).value.userType.value != "student" ==>
              GetCurrentUser(false, Some(tok), decode, users, students).Failure?
  {
  }

  /** `require_superadmin`: passes exactly an administrator account with
      the SUPERADMIN role, returned as is; anyone else gets a 403. */
  function RequireSuperadmin(a: Actor): (r: Result<User>)
    ensures r.Success? <==> a.AsUser? && a.user.rol == Superadmin
    ensures r.Success? ==> r.value == a.user
    ensures r.Failure? ==> r.error.Forbidden?
  {
    match a
    case AsStudent(_) => Failure(Forbidden("Se requiere rol de SUPERADMIN"))
    case AsUser(u) =>
      if u.rol != Superadmin then Failure(Forbidden("Se requiere rol de SUPERADMIN"))
      else Success(u)
  }

  /** `require_admin`: passes exactly an administrator account with the
      ADMIN or SUPERADMIN role, returned as is; anyone else gets a 403. */
  function RequireAdmin(a: Actor): (r: Result<User>)
    ensures r.Success? <==> a.AsUser? && (a.user.rol == Admin || a.user.rol == Superadmin)
    ensures r.Success? ==> r.value == a.user
    ensures r.Failure? ==> r.error.Forbidden?
  {
    match a
    case AsStudent(_) => Failure(Forbidden("Se requiere rol de ADMIN o superior"))
    case AsUser(u) =>
      if u.rol != Admin && u.rol != Superadmin then Failure(Forbidden("Se requiere rol de ADMIN o superior"))
      else Success(u)
  }

  /** Whoever passes `require_superadmin` passes `require_admin`, as the
      same account; the converse fails for an ADMIN. As ADMIN and SUPERADMIN
      are the only roles, `require_admin` passes every administrator account
      and refuses every student. */
  lemma {:induction false} SuperadminEsAdmin(a: Actor)
    ensures RequireSuperadmin(a).Success? ==> RequireAdmin(a) == RequireSuperadmin(a)
    ensures a.AsUser? && a.user.rol == Admin ==> RequireAdmin(a).Success? && RequireSuperadmin(a).Failure?
    ensures RequireAdmin(a).Success? <==> a.AsUser?
  {
    match a
    case AsStudent(_) =>
    case AsUser(u) =>
      match u.rol
      case Admin =>
      case Superadmin =>
  }

  /** `check_student_access`: any administrator account may reach any
      student's resources; a student only their own, else 403. */
  function CheckStudentAccess(resourceStudentId: Id, a: Actor): (r: Outcome)
    ensures r.Pass? <==> a.AsUser? || a.student.id == resourceStudentId
    ensures r.Fail? ==> r.error.Forbidden?
  {
    match a
    case AsUser(_) => Pass
    case AsStudent(s) =>
      if s.id != resourceStudentId then Fail(Forbidden("No tienes permiso para acceder a este recurso"))
      else Pass
  }

  /** In development mode every check passes, whatever the credentials. */
  lemma {:induction false} ModoDesarrolloAbreTodo(credentials: Option<string>, decode: string -> Option<Payload>,
                                                 users: map<Id, User>, students: map<Id, Student>, resource: Id)
    ensures var r := GetCurrentUser(true, credentials, decode, users, students);
            && r.Success?
            && RequireSuperadmin(r.value).Success?
            && RequireAdmin(r.value).Success?
            && CheckStudentAccess(resource, r.value).Pass?
  {
  }

  /** An authenticated student reaches exactly their own resources and
      never an administrator endpoint. */
  lemma {:induction false} EstudianteSoloLoSuyo(credentials: Option<string>, decode: string -> Option<Payload>,
                                               users: map<Id, User>, students: map<Id, Student>, resource: Id)
    requires GetCurrentUser(false, credentials, decode, users, students).Success?
    requires GetCurrentUser(false, credentials, decode, users, students).value.AsStudent?
    ensures var a := GetCurrentUser(false, credentials, decode, users, students).value;
            && a.student.activo
            && RequireAdmin(a).Failure? && RequireSuperadmin(a).Failure?
            && (CheckStudentAccess(resource, a).Pass? <==> a.student.id == resource)
  {
  }
}
