/** POST of a general request: the MEDIUM priority default, required fields, priority
    membership, insert. */
module GeneralRoute {
  import opened Wrappers
  import opened ApiUtils
  import opened RequestStore

  /** The `priority` field of the body. Only an omitted field takes the default; an explicit
      null does not. */
  datatype PriorityField = Omitted | Null | Given(s: string)

  /** `{ requestType, subject, description, priority }` as read from the JSON body. */
  datatype GeneralBody = GeneralBody(requestType: Field, subject: Field, description: Field,
                                     priority: PriorityField)

  /** The general-request columns of a stored request. */
  datatype GeneralDetails = GeneralDetails(requestType: string, subject: string, description: string,
                                           priority: Priority)

  const FieldsRequired: string := "Request type, subject, and description are required"
  const InvalidPriority: string := "Invalid priority level"

  /** `priority = Priority.MEDIUM` in the destructuring: the default replaces only an
      omitted field. */
  function WithDefault(p: PriorityField): (r: PriorityField)
    ensures p.Omitted? ==> r == Given("MEDIUM")
    ensures !p.Omitted? ==> r == p
  {
    if p.Omitted? then Given("MEDIUM") else p
  }

  /** The priority the field names, if it names a member of Priority. */
  function PriorityOf(p: PriorityField): (r: Option<Priority>)
    ensures r.Some? <==> p.Given? && p.s in {"LOW", "MEDIUM", "HIGH", "URGENT"}
    ensures r.Some? ==> PriorityNamed(p.s) == r
  {
    if p.Given? then PriorityNamed(p.s) else None
  }

  /** The checks POST makes before it inserts, in order: the session, the employee profile
      (before the body is read), the body itself, the three text fields truthy, the (possibly
      defaulted) priority a member of Priority. */
  function CheckPost(session: Option<Session>, body: Option<GeneralBody>)
    : (r: Result<Accepted<GeneralDetails>, Response<Row<GeneralDetails>>>)
    ensures GetAuthenticatedUser(session).Failure? ==> r == Failure(Response(401, ErrorBody("Unauthorized")))
    ensures GetAuthenticatedUser(session).Success? && ProfileId(GetAuthenticatedUser(session).value).None?
            ==> r == Failure(Response(404, ErrorBody(ProfileNotFound)))
    ensures GetAuthenticatedUser(session).Success? && ProfileId(GetAuthenticatedUser(session).value).Some?
            ==> match body
                case None => r == Failure(Response(500, ErrorBody("Internal server error")))
                case Some(b) =>
                  if !Truthy(b.requestType) || !Truthy(b.subject) || !Truthy(b.description) then
                    r == Failure(Response(400, ErrorBody(FieldsRequired)))
                  else if b.priority.Null? || (b.priority.Given? && b.priority.s !in {"LOW", "MEDIUM", "HIGH", "URGENT"}) then
                    r == Failure(Response(400, ErrorBody(InvalidPriority)))
                  else
                    r.Success?
    ensures r.Success? ==>
              && GetAuthenticatedUser(session).Success?
              && ProfileId(GetAuthenticatedUser(session).value) == Some(r.value.employeeId)
              && body.Some?
              && body.value.requestType == Text(r.value.details.requestType)
              && body.value.subject == Text(r.value.details.subject)
              && body.value.description == Text(r.value.details.description)
              && (body.value.priority.Omitted? ==> r.value.details.priority == MEDIUM)
              && (body.value.priority.Given? ==> PriorityNamed(body.value.priority.s) == Some(r.value.details.priority))
  {
    match GetAuthenticatedUser(session)
    case Failure(e) => Failure(CatchResponse(e))
    case Success(user) =>
      if ProfileId(user).None? then
        Failure(CreateErrorResponse(ProfileNotFound, Some(404)))
      else if body.None? then
        Failure(CatchResponse(MalformedBody))
      else
        var b := body.value;
        var priority := WithDefault(b.priority);
        if !Truthy(b.requestType) || !Truthy(b.subject) || !Truthy(b.description) then
          Failure(CreateErrorResponse(FieldsRequired, None))
        else if PriorityOf(priority).None? then
          Failure(CreateErrorResponse(InvalidPriority, None))
        else
          Success(Accepted(ProfileId(user).value,
                           GeneralDetails(b.requestType.s, b.subject.s, b.description.s,
                                          PriorityOf(priority).value)))
  }

  /** The POST handler: runs the checks, then inserts one PENDING row owned by the caller
      with the given or defaulted priority and answers 201; otherwise nothing is inserted. */
  method Post(store: Store<GeneralDetails>, session: Option<Session>, body: Option<GeneralBody>, now: int)
    returns (resp: Response<Row<GeneralDetails>>)
    requires store.Valid()
    modifies store
    ensures store.Valid()
    ensures CheckPost(session, body).Failure? ==>
              resp == CheckPost(session, body).error && store.rows == old(store.rows)
    ensures CheckPost(session, body).Success? ==>
              var a := CheckPost(session, body).value;
              && resp.status == 201 && resp.body.DataBody?
              && store.rows == old(store.rows) + [resp.body.data]
              && resp.body.data.employeeId == a.employeeId
              && resp.body.data.details == a.details
              && resp.body.data.status == PENDING
              && resp.body.data.createdAt == now
  {
    var auth := GetAuthenticatedUser(session);
    if auth.Failure? {
      return CatchResponse(auth.error);
    }
    var user := auth.value;
    if ProfileId(user).None? {
      return CreateErrorResponse(ProfileNotFound, Some(404));
    }
    if body.None? {
      return CatchResponse(MalformedBody);
    }
    var b := body.value;
    var priority := WithDefault(b.priority);
    if !Truthy(b.requestType) || !Truthy(b.subject) || !Truthy(b.description) {
      return CreateErrorResponse(FieldsRequired, None);
    }
    var parsed := PriorityOf(priority);
    if parsed.None? {
      return CreateErrorResponse(InvalidPriority, None);
    }
    var details := GeneralDetails(b.requestType.s, b.subject.s, b.description.s, parsed.value);
    var row := store.Insert(ProfileId(user).value, details, now);
    resp := CreateSuccessResponse(row, Some(201));
  }
}
