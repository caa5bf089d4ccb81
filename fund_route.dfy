/** POST of a fund request: required fields, fund-type membership, a positive amount, insert. */
module FundRoute {
  import opened Wrappers
  import opened ApiUtils
  import opened RequestStore

  /** `{ fundType, amount, reason, requestType }` as read from the JSON body. */
  datatype FundBody = FundBody(fundType: Field, amount: Field, reason: Field, requestType: Field)

  /** The fund-specific columns of a stored request. */
  datatype FundDetails = FundDetails(fundType: string, amount: real, reason: string, requestType: string)

  const FieldsRequired: string := "All fields are required"
  const InvalidFundType: string := "Invalid fund type"
  const AmountNotPositive: string := "Amount must be a positive number"

  /** The checks POST makes before it inserts, in order: the session, the employee profile
      (before the body is read), the body itself, all four fields truthy, the fund type a
      member of `fundTypes` (the FundType enumeration), the amount parsing to a positive
      number. `parseFloat` gives None where JavaScript's gives NaN. */
  function CheckPost(session: Option<Session>, body: Option<FundBody>, fundTypes: set<string>,
                     parseFloat: string -> Option<real>)
    : (r: Result<Accepted<FundDetails>, Response<Row<FundDetails>>>)
    ensures GetAuthenticatedUser(session).Failure? ==> r == Failure(Response(401, ErrorBody("Unauthorized")))
    ensures GetAuthenticatedUser(session).Success? && ProfileId(GetAuthenticatedUser(session).value).None?
            ==> r == Failure(Response(404, ErrorBody(ProfileNotFound)))
    ensures GetAuthenticatedUser(session).Success? && ProfileId(GetAuthenticatedUser(session).value).Some?
            ==> match body
                case None => r == Failure(Response(500, ErrorBody("Internal server error")))
                case Some(b) =>
                  if !Truthy(b.fundType) || !Truthy(b.amount) || !Truthy(b.reason) || !Truthy(b.requestType) then
                    r == Failure(Response(400, ErrorBody(FieldsRequired)))
                  else if b.fundType.s !in fundTypes then
                    r == Failure(Response(400, ErrorBody(InvalidFundType)))
                  else if parseFloat(b.amount.s).None? || parseFloat(b.amount.s).value <= 0.0 then
                    r == Failure(Response(400, ErrorBody(AmountNotPositive)))
                  else
                    r.Success?
    ensures r.Success? ==>
              && GetAuthenticatedUser(session).Success?
              && ProfileId(GetAuthenticatedUser(session).value) == Some(r.value.employeeId)
              && body.Some?
              && body.value.fundType == Text(r.value.details.fundType)
              && r.value.details.fundType in fundTypes
              && parseFloat(body.value.amount.s) == Some(r.value.details.amount)
              && r.value.details.amount > 0.0
              && body.value.reason == Text(r.value.details.reason) && r.value.details.reason != ""
              && body.value.requestType == Text(r.value.details.requestType)
              && r.value.details.requestType != ""
  {
    match GetAuthenticatedUser(session)
    case Failure(e) => Failure(CatchResponse(e))
    case Success(user) =>
      if ProfileId(user).None? then
        Failure(CreateErrorResponse(ProfileNotFound, Some(404)))
      else if body.None? then
        Failure(CatchResponse(MalformedBody))
      else
        var b := body.value;
        if !Truthy(b.fundType) || !Truthy(b.amount) || !Truthy(b.reason) || !Truthy(b.requestType) then
          Failure(CreateErrorResponse(FieldsRequired, None))
        else if b.fundType.s !in fundTypes then
          Failure(CreateErrorResponse(InvalidFundType, None))
        else
          var parsedAmount := parseFloat(b.amount.s);
          if parsedAmount.None? || parsedAmount.value <= 0.0 then
            Failure(CreateErrorResponse(AmountNotPositive, None))
          else
            Success(Accepted(ProfileId(user).value,
                             FundDetails(b.fundType.s, parsedAmount.value, b.reason.s, b.requestType.s)))
  }

  /** The POST handler: runs the checks, then inserts one PENDING row owned by the caller,
      holding the parsed amount, and answers 201; on any failed check nothing is inserted. */
  method Post(store: Store<FundDetails>, session: Option<Session>, body: Option<FundBody>,
              fundTypes: set<string>, parseFloat: string -> Option<real>, now: int)
    returns (resp: Response<Row<FundDetails>>)
    requires store.Valid()
    modifies store
    ensures store.Valid()
    ensures CheckPost(session, body, fundTypes, parseFloat).Failure? ==>
              resp == CheckPost(session, body, fundTypes, parseFloat).error
              && store.rows == old(store.rows)
    ensures CheckPost(session, body, fundTypes, parseFloat).Success? ==>
              var a := CheckPost(session, body, fundTypes, parseFloat).value;
              && resp.status == 201 && resp.body.DataBody?
              && store.rows == old(store.rows) + [resp.body.data]
              && resp.body.data.employeeId == a.employeeId
              && resp.body.data.details == a.details
              && resp.body.data.status == PENDING
              && resp.body.data.createdAt == now
  {
    var auth := GetAuthenticatedUser(session);
    if auth.Failure? {
      return CatchResponse(auth.error);
    }
    var user := auth.value;
    if ProfileId(user).None? {
      return CreateErrorResponse(ProfileNotFound, Some(404));
    }
    if body.None? {
      return CatchResponse(MalformedBody);
    }
    var b := body.value;
    if !Truthy(b.fundType) || !Truthy(b.amount) || !Truthy(b.reason) || !Truthy(b.requestType) {
      return CreateErrorResponse(FieldsRequired, None);
    }
    if b.fundType.s !in fundTypes {
      return CreateErrorResponse(InvalidFundType, None);
    }
    var parsedAmount := parseFloat(b.amount.s);
    if parsedAmount.None? || parsedAmount.value <= 0.0 {
      return CreateErrorResponse(AmountNotPositive, None);
    }
    var details := FundDetails(b.fundType.s, parsedAmount.value, b.reason.s, b.requestType.s);
    var row := store.Insert(ProfileId(user).value, details, now);
    resp := CreateSuccessResponse(row, Some(201));
  }
}
