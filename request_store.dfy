/** The three request tables (vacation, fund, general) and the listing query their GET
    handlers share. Timestamps are milliseconds since the epoch. */
module RequestStore {
  import opened Wrappers
  import opened Seqs
  import opened ApiUtils

  datatype RequestStatus = PENDING | APPROVED | REJECTED | IN_PROGRESS | COMPLETED

  datatype Priority = LOW | MEDIUM | HIGH | URGENT

  /** `Object.values(Priority).includes(s)`, giving the member it names. */
  function PriorityNamed(s: string): (r: Option<Priority>)
    ensures r == Some(LOW) <==> s == "LOW"
    ensures r == Some(MEDIUM) <==> s == "MEDIUM"
    ensures r == Some(HIGH) <==> s == "HIGH"
    ensures r == Some(URGENT) <==> s == "URGENT"
  {
    if s == "LOW" then Some(LOW)
    else if s == "MEDIUM" then Some(MEDIUM)
    else if s == "HIGH" then Some(HIGH)
    else if s == "URGENT" then Some(URGENT)
    else None
  }

  /** A text field of a JSON body: Absent when it is missing or null. */
  datatype Field = Absent | Text(s: string)

  /** JavaScript truthiness of a text field: present and not the empty string. */
  predicate Truthy(f: Field): (b: bool)
    ensures f.Absent? ==> !b
    ensures f == Text("") ==> !b
    ensures f.Text? && |f.s| > 0 ==> b
  {
    f.Text? && f.s != ""
  }

  /** One stored request: the columns every kind has, and the kind's own columns `details`. */
  datatype Row<D> = Row(id: nat, employeeId: string, status: RequestStatus,
                        createdAt: int, updatedAt: int, details: D)

  /** What a POST handler's guard cascade hands to the insert: the owner (always the
      caller's own employee id) and the kind's columns. */
  datatype Accepted<D> = Accepted(employeeId: string, details: D)

  function CreatedAt<D>(r: Row<D>): int
  {
    r.createdAt
  }

  /** One request table. Rows are only ever appended; ids are server-assigned and distinct. */
  class Store<D> {
    var rows: seq<Row<D>>
    var nextId: nat

    ghost predicate Valid()
      reads this
    {
      && (forall i :: 0 <= i < |rows| ==> rows[i].id < nextId)
      && (forall i, j :: 0 <= i < j < |rows| ==> rows[i].id != rows[j].id)
    }

    constructor ()
      ensures Valid()
      ensures rows == []
    {
      rows := [];
      nextId := 0;
    }

    /** `prisma.<kind>Request.create`: appends one PENDING row owned by `employeeId`,
        stamped `now`, and returns it. No existing row changes. */
    method Insert(employeeId: string, details: D, now: int) returns (row: Row<D>)
      requires Valid()
      modifies this
      ensures Valid()
      ensures row == Row(old(nextId), employeeId, PENDING, now, now, details)
      ensures rows == old(rows) + [row]
      ensures forall i :: 0 <= i < |old(rows)| ==> old(rows)[i].id != row.id
    {
      row := Row(nextId, employeeId, PENDING, now, now, details);
      rows := rows + [row];
      nextId := nextId + 1;
    }
  }

  /** The GET handler of each request kind: privileged roles get every row, everyone else
      exactly their own rows (or 404 without a profile); newest first. */
  function ListRequests<D(!new)>(rows: seq<Row<D>>, session: Option<Session>)
    : (r: Response<seq<Row<D>>>)
    ensures GetAuthenticatedUser(session).Failure? ==> r == Response(401, ErrorBody("Unauthorized"))
    ensures GetAuthenticatedUser(session).Success? && IsPrivileged(GetAuthenticatedUser(session).value.role)
            ==> r.status == 200 && r.body.DataBody? && multiset(r.body.data) == multiset(rows)
    ensures GetAuthenticatedUser(session).Success? && !IsPrivileged(GetAuthenticatedUser(session).value.role)
            && ProfileId(GetAuthenticatedUser(session).value).None?
            ==> r == Response(404, ErrorBody(ProfileNotFound))
    ensures GetAuthenticatedUser(session).Success? && !IsPrivileged(GetAuthenticatedUser(session).value.role)
            && ProfileId(GetAuthenticatedUser(session).value).Some?
            ==> r.status == 200 && r.body.DataBody?
                && forall x :: multiset(r.body.data)[x]
                       == if x.employeeId == ProfileId(GetAuthenticatedUser(session).value).value
                          then multiset(rows)[x] else 0
    ensures r.status == 200 ==> r.body.DataBody? && SortedDesc(r.body.data, CreatedAt)
  {
    match GetAuthenticatedUser(session)
    case Failure(e) => CatchResponse(e)
    case Success(user) =>
      if IsPrivileged(user.role) then
        CreateSuccessResponse(SortDesc(rows, CreatedAt), None)
      else if ProfileId(user).None? then
        CreateErrorResponse(ProfileNotFound, Some(404))
      else
        var id := ProfileId(user).value;
        var own := Filter(rows, (x: Row<D>) => x.employeeId == id);
        assert forall x :: multiset(own)[x] == if x.employeeId == id then multiset(rows)[x] else 0 by {
          forall x ensures multiset(own)[x] == if x.employeeId == id then multiset(rows)[x] else 0 {
            FilterMultiplicity(rows, (x: Row<D>) => x.employeeId == id, x);
          }
        }
        CreateSuccessResponse(SortDesc(own, CreatedAt), None)
  }
  /** Rows created in the same millisecond are listed in the order they were inserted. */
  lemma ListKeepsInsertionOrderOnTies<D(!new)>(rows: seq<Row<D>>, session: Option<Session>, t: int)
    requires GetAuthenticatedUser(session).Success?
    requires IsPrivileged(GetAuthenticatedUser(session).value.role)
    ensures ListRequests(rows, session).body.DataBody?
    ensures Filter(ListRequests(rows, session).body.data, (x: Row<D>) => x.createdAt == t)
         == Filter(rows, (x: Row<D>) => x.createdAt == t)
  {
    SortDescStable(rows, CreatedAt, (x: Row<D>) => x.createdAt == t, t);
  }

  /** A request appended for the caller's own employee id is in what the caller lists next,
      whatever the caller's role. */
  lemma CreatorSeesOwnRequest<D(!new)>(rows: seq<Row<D>>, row: Row<D>, session: Option<Session>)
    requires GetAuthenticatedUser(session).Success?
    requires ProfileId(GetAuthenticatedUser(session).value) == Some(row.employeeId)
    ensures ListRequests(rows + [row], session).status == 200
    ensures row in ListRequests(rows + [row], session).body.data
  {
    var data := ListRequests(rows + [row], session).body.data;
    assert multiset(rows + [row])[row] > 0;
    assert multiset(data)[row] > 0;
  }
}
