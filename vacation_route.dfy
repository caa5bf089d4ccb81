/** POST of a vacation request: the guard cascade, the inclusive day count and the insert. */
module VacationRoute {
  import opened Wrappers
  import opened ApiUtils
  import opened RequestStore
  import opened Time

  /** A date field of the body: Missing when it is absent, null or the empty string (all
      falsy), otherwise the instant it parses to, in milliseconds. */
  datatype DateField = Missing | At(ms: int)

  /** `{ startDate, endDate, reason }` as read from the JSON body. */
  datatype VacationBody = VacationBody(startDate: DateField, endDate: DateField, reason: Option<string>)

  /** The vacation-specific columns of a stored request. */
  datatype VacationDetails = VacationDetails(startDate: int, endDate: int, daysRequested: int,
                                             reason: string)

  /** `Math.ceil(a / b)` for a positive divisor, in exact integer arithmetic. */
  function CeilDiv(a: int, b: int): (r: int)
    requires b > 0
    ensures b * (r - 1) < a <= b * r
  {
    -((-a) / b)
  }

  /** `Math.ceil((end - start) / (1000 * 3600 * 24)) + 1`: whole or partial days between the
      two instants, plus one; weekends are not excluded. The result is the least n whose
      n - 1 days cover the span. */
  function DaysRequested(start: int, end: int): (n: int)
    ensures MsPerDay * (n - 2) < end - start <= MsPerDay * (n - 1)
  {
    CeilDiv(end - start, MsPerDay) + 1
  }

  const DatesRequired: string := "Start date and end date are required"
  const EndBeforeStart: string := "End date must be after start date"
  const StartInPast: string := "Start date cannot be in the past"

  /** The checks POST makes before it inserts, in the order it makes them: the session, the
      employee profile (before the body is read), the body itself, both dates present,
      start strictly before end, start not in the past. `now` is the server clock. */
  function CheckPost(session: Option<Session>, body: Option<VacationBody>, now: int)
    : (r: Result<Accepted<VacationDetails>, Response<Row<VacationDetails>>>)
    ensures GetAuthenticatedUser(session).Failure? ==> r == Failure(Response(401, ErrorBody("Unauthorized")))
    ensures GetAuthenticatedUser(session).Success? && ProfileId(GetAuthenticatedUser(session).value).None?
            ==> r == Failure(Response(404, ErrorBody(ProfileNotFound)))
    ensures GetAuthenticatedUser(session).Success? && ProfileId(GetAuthenticatedUser(session).value).Some?
            ==> match body
                case None => r == Failure(Response(500, ErrorBody("Internal server error")))
                case Some(b) =>
                  if b.startDate.Missing? || b.endDate.Missing? then
                    r == Failure(Response(400, ErrorBody(DatesRequired)))
                  else if b.startDate.ms >= b.endDate.ms then
                    r == Failure(Response(400, ErrorBody(EndBeforeStart)))
                  else if b.startDate.ms < now then
                    r == Failure(Response(400, ErrorBody(StartInPast)))
                  else
                    r.Success?
    ensures r.Success? ==>
              && GetAuthenticatedUser(session).Success?
              && ProfileId(GetAuthenticatedUser(session).value) == Some(r.value.employeeId)
              && body.Some? && body.value.startDate == At(r.value.details.startDate)
              && body.value.endDate == At(r.value.details.endDate)
              && now <= r.value.details.startDate < r.value.details.endDate
              && r.value.details.daysRequested == DaysRequested(r.value.details.startDate,
                                                                 r.value.details.endDate)
              && r.value.details.daysRequested >= 2
              && r.value.details.reason == body.value.reason.GetOr("")
  {
    match GetAuthenticatedUser(session)
    case Failure(e) => Failure(CatchResponse(e))
    case Success(user) =>
      if ProfileId(user).None? then
        Failure(CreateErrorResponse(ProfileNotFound, Some(404)))
      else if body.None? then
        Failure(CatchResponse(MalformedBody))
      else
        var b := body.value;
        if b.startDate.Missing? || b.endDate.Missing? then
          Failure(CreateErrorResponse(DatesRequired, None))
        else if b.startDate.ms >= b.endDate.ms then
          Failure(CreateErrorResponse(EndBeforeStart, None))
        else if b.startDate.ms < now then
          Failure(CreateErrorResponse(StartInPast, None))
        else
          var start, end := b.startDate.ms, b.endDate.ms;
          AcceptedSpansAtLeastTwoDays(start, end);
          Success(Accepted(ProfileId(user).value,
                           VacationDetails(start, end, DaysRequested(start, end), b.reason.GetOr(""))))
  }

  /** The POST handler: runs the checks, then inserts one PENDING row owned by the caller
      and answers 201 with it; on any failed check the table is left as it was. */
  method Post(store: Store<VacationDetails>, session: Option<Session>, body: Option<VacationBody>, now: int)
    returns (resp: Response<Row<VacationDetails>>)
    requires store.Valid()
    modifies store
    ensures store.Valid()
    ensures CheckPost(session, body, now).Failure? ==>
              resp == CheckPost(session, body, now).error && store.rows == old(store.rows)
    ensures CheckPost(session, body, now).Success? ==>
              var a := CheckPost(session, body, now).value;
              && resp.status == 201 && resp.body.DataBody?
              && store.rows == old(store.rows) + [resp.body.data]
              && resp.body.data.employeeId == a.employeeId
              && resp.body.data.details == a.details
              && resp.body.data.status == PENDING
              && resp.body.data.createdAt == now
  {
    var auth := GetAuthenticatedUser(session);
    if auth.Failure? {
      return CatchResponse(auth.error);
    }
    var user := auth.value;
    if ProfileId(user).None? {
      return CreateErrorResponse(ProfileNotFound, Some(404));
    }
    if body.None? {
      return CatchResponse(MalformedBody);
    }
    var b := body.value;
    if b.startDate.Missing? || b.endDate.Missing? {
      return CreateErrorResponse(DatesRequired, None);
    }
    var start, end := b.startDate.ms, b.endDate.ms;
    if start >= end {
      return CreateErrorResponse(EndBeforeStart, None);
    }
    if start < now {
      return CreateErrorResponse(StartInPast, None);
    }
    var daysDiff := DaysRequested(start, end);
    var details := VacationDetails(start, end, daysDiff, b.reason.GetOr(""));
    var row := store.Insert(ProfileId(user).value, details, now);
    resp := CreateSuccessResponse(row, Some(201));
  }

  /** Any accepted request spans at least two days: start < end gives a positive ceiling. */
  lemma AcceptedSpansAtLeastTwoDays(start: int, end: int)
    requires start < end
    ensures DaysRequested(start, end) >= 2
  {
    var r := CeilDiv(end - start, MsPerDay);
    assert MsPerDay * r >= end - start > 0;
  }

  /** Dates exactly k days apart are booked as k + 1 days. */
  lemma WholeDaysApart(start: int, k: int)
    ensures DaysRequested(start, start + k * MsPerDay) == k + 1
  {
    var r := CeilDiv(k * MsPerDay, MsPerDay);
    assert MsPerDay * (r - 1) < k * MsPerDay <= MsPerDay * r;
  }

  /** The count is the ceiling of the length in days, plus one: it is the least n with
      end - start <= (n - 1) days. */
  lemma DaysRequestedIsLeast(start: int, end: int, n: int)
    requires end - start <= (n - 1) * MsPerDay
    ensures DaysRequested(start, end) <= n
  {
    var r := CeilDiv(end - start, MsPerDay);
    assert MsPerDay * (r - 1) < end - start;
  }

  /** 2024-01-01 to 2024-01-05 (UTC midnights) is five days; 2024-01-06 to 2024-01-07, a
      Saturday and a Sunday, is two: weekends are counted like any other day. */
  lemma WeekendsAreCounted()
    ensures DaysRequested(1704067200000, 1704412800000) == 5
    ensures DaysRequested(1704499200000, 1704585600000) == 2
  {
    WholeDaysApart(1704067200000, 4);
    WholeDaysApart(1704499200000, 1);
  }
}
