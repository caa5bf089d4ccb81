/** The helpers every request route is built on: reading the session's user, the role check
    and the two response builders; plus the privileged-role set the routes and pages share. */
module ApiUtils {
  import opened Wrappers

  datatype Role = ADMIN | HR | MANAGER | EMPLOYEE

  /** The employee profile linked to a user, as far as the routes read it. */
  datatype EmployeeProfile = EmployeeProfile(id: string)

  /** The user carried by a session. */
  datatype User = User(id: string, email: string, name: string, role: Role,
                       employee: Option<EmployeeProfile>)

  /** A session as the authentication provider hands it over; `user` may be absent. */
  datatype Session = Session(user: Option<User>)

  /** A JSON response: its HTTP status and either `{ error: message }` or a payload. */
  datatype Body<T> = ErrorBody(error: string) | DataBody(data: T)
  datatype Response<T> = Response(status: int, body: Body<T>)

  /** `getAuthenticatedUser`: the session's user, or the exception 'Unauthorized'.
      `session` is what `getServerSession` resolved to (None when there is no session). */
  function GetAuthenticatedUser(session: Option<Session>): (r: Result<User, string>)
    ensures r.Success? <==> session.Some? && session.value.user.Some?
    ensures r.Success? ==> r.value == session.value.user.value
    ensures r.Failure? ==> r.error == "Unauthorized"
  {
    if session.None? || session.value.user.None? then Failure("Unauthorized")
    else Success(session.value.user.value)
  }

  /** `requireRole`: passes exactly when the role is listed, otherwise throws. */
  function RequireRole(userRole: Role, requiredRoles: seq<Role>): (r: Result<(), string>)
    ensures r.Success? <==> userRole in requiredRoles
    ensures r.Failure? ==> r.error == "Insufficient permissions"
    ensures requiredRoles == [] ==> r.Failure?
  {
    if userRole !in requiredRoles then Failure("Insufficient permissions") else Success(())
  }

  /** `createErrorResponse(message, status = 400)`; `status` is None when the caller omits it. */
  function CreateErrorResponse<T>(message: string, status: Option<int>): (r: Response<T>)
    ensures r.body == ErrorBody(message)
    ensures status.None? ==> r.status == 400
    ensures status.Some? ==> r.status == status.value
  {
    Response(status.GetOr(400), ErrorBody(message))
  }

  /** `createSuccessResponse(data, status = 200)`: the payload is the body, unchanged. */
  function CreateSuccessResponse<T>(data: T, status: Option<int>): (r: Response<T>)
    ensures r.body == DataBody(data)
    ensures status.None? ==> r.status == 200
    ensures status.Some? ==> r.status == status.value
  {
    Response(status.GetOr(200), DataBody(data))
  }

  /** The roles that see every request and the admin dashboard: ADMIN, HR and MANAGER. */
  predicate IsPrivileged(role: Role): (b: bool)
    ensures b <==> role != EMPLOYEE
  {
    role == ADMIN || role == HR || role == MANAGER
  }

  /** `user.employee?.id` when it is truthy: a missing profile and an empty id both count
      as "no profile". */
  function ProfileId(user: User): (r: Option<string>)
    ensures r.Some? <==> user.employee.Some? && user.employee.value.id != ""
    ensures r.Some? ==> r.value == user.employee.value.id && r.value != ""
  {
    if user.employee.Some? && user.employee.value.id != "" then Some(user.employee.value.id)
    else None
  }

  /** The `catch` block every route ends with: the exception 'Unauthorized' becomes 401 and
      every other exception a 500 that leaks nothing. */
  function CatchResponse<T>(thrown: string): (r: Response<T>)
    ensures thrown == "Unauthorized" ==> r == Response(401, ErrorBody("Unauthorized"))
    ensures thrown != "Unauthorized" ==> r == Response(500, ErrorBody("Internal server error"))
  {
    if thrown == "Unauthorized" then CreateErrorResponse("Unauthorized", Some(401))
    else CreateErrorResponse("Internal server error", Some(500))
  }

  /** The message of the exception `req.json()` (or the destructuring after it) throws on a
      body that is not a JSON object. */
  const MalformedBody: string := "Malformed JSON body"

  /** The 404 message every route gives a user without an employee profile. */
  const ProfileNotFound: string := "Employee profile not found"
}
