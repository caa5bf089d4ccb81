/** The admin (and HR and manager) dashboard: the merged request list, the employee search,
    the pending and department lists, the "Approved Today" card and the review calls. */
module AdminDashboard {
  import opened Wrappers
  import opened Seqs
  import opened Text
  import opened Fetch
  import opened RequestStore
  import opened Time

  /** An employee as `/api/employees` lists it, as far as the dashboard reads it. */
  datatype EmployeeRecord = EmployeeRecord(id: string, employeeCode: string, firstName: string,
                                           lastName: string, department: Option<string>,
                                           email: string)

  /** A request of any kind as the dashboard reads it; the kind itself is not kept. */
  datatype RequestSummary = RequestSummary(id: nat, employeeId: string, status: RequestStatus,
                                           createdAt: int, updatedAt: int)

  function SummaryCreatedAt(r: RequestSummary): int
  {
    r.createdAt
  }

  /** The lists of the ok responses, concatenated in response order; a response that is not
      ok contributes nothing. */
  function OkConcat<T(!new)>(responses: seq<Fetched<seq<T>>>): (r: seq<T>)
    ensures forall x :: x in r <==>
              exists i :: 0 <= i < |responses| && responses[i].Ok? && x in responses[i].data
  {
    if responses == [] then []
    else
      var init := responses[..|responses| - 1];
      var last := responses[|responses| - 1];
      assert forall i :: 0 <= i < |init| ==> init[i] == responses[i];
      OkConcat(init) + (if last.Ok? then last.data else [])
  }

  /** The loop of `fetchData` that pushes the requests of every ok response into one list. */
  method MergeResponses<T(!new)>(responses: seq<Fetched<seq<T>>>) returns (all: seq<T>)
    ensures all == OkConcat(responses)
  {
    all := [];
    for i := 0 to |responses|
      invariant all == OkConcat(responses[..i])
    {
      assert responses[..i + 1][..i] == responses[..i];
      if responses[i].Ok? {
        all := all + responses[i].data;
      }
    }
    assert responses[..|responses|] == responses;
  }

  /** Lengths add up: the merged list has as many entries as the ok responses together. */
  lemma {:induction false} OkConcatLength<T(!new)>(responses: seq<Fetched<seq<T>>>)
    ensures |OkConcat(responses)| == OkTotal(responses)
  {
    if responses != [] {
      OkConcatLength(responses[..|responses| - 1]);
    }
  }

  function OkTotal<T>(responses: seq<Fetched<seq<T>>>): nat
  {
    if responses == [] then 0
    else OkTotal(responses[..|responses| - 1])
         + (if responses[|responses| - 1].Ok? then |responses[|responses| - 1].data| else 0)
  }

  /** A case-insensitive substring test, as the search box applies it. */
  predicate Matches(field: string, searchTerm: string)
  {
    Includes(ToLower(field), ToLower(searchTerm))
  }

  /** The test `filteredEmployees` applies to one employee. */
  predicate EmployeeMatches(e: EmployeeRecord, searchTerm: string, selectedDepartment: string)
  {
    && (Matches(e.firstName, searchTerm) || Matches(e.lastName, searchTerm)
        || Matches(e.employeeCode, searchTerm) || Matches(e.email, searchTerm))
    && (selectedDepartment == "" || e.department == Some(selectedDepartment))
  }

  /** `filteredEmployees`: the employees passing the search and the department filter, in
      their order. */
  function FilteredEmployees(employees: seq<EmployeeRecord>, searchTerm: string,
                             selectedDepartment: string): (r: seq<EmployeeRecord>)
    ensures forall e :: e in r <==> e in employees && EmployeeMatches(e, searchTerm, selectedDepartment)
  {
    Filter(employees, e => EmployeeMatches(e, searchTerm, selectedDepartment))
  }

  /** With no search term and no department selected, every employee is listed, in order. */
  lemma UnfilteredEmployees(employees: seq<EmployeeRecord>)
    ensures FilteredEmployees(employees, "", "") == employees
  {
    forall e | e in employees ensures EmployeeMatches(e, "", "") {
      IncludesEmpty(ToLower(e.firstName));
    }
    FilterKeepsAll(employees, e => EmployeeMatches(e, "", ""));
  }

  predicate IsPending(r: RequestSummary)
  {
    r.status == PENDING
  }

  /** `pendingRequests`: the PENDING requests, in list order. Each PENDING request occurs
      as often as in the list and no other request occurs; the result reads the list at
      strictly increasing positions that include every PENDING one. */
  function PendingRequests(requests: seq<RequestSummary>): (r: seq<RequestSummary>)
    ensures forall x :: x in r <==> x in requests && x.status == PENDING
    ensures forall x :: multiset(r)[x] == if x.status == PENDING then multiset(requests)[x] else 0
    ensures PicksInOrder(requests, IsPending, r, FilterIndices(requests, IsPending))
  {
    assert forall x :: multiset(Filter(requests, IsPending))[x]
                       == if x.status == PENDING then multiset(requests)[x] else 0 by {
      forall x ensures multiset(Filter(requests, IsPending))[x]
                       == if x.status == PENDING then multiset(requests)[x] else 0 {
        FilterMultiplicity(requests, IsPending, x);
      }
    }
    Filter(requests, IsPending)
  }

  /** The department an employee adds to `NonEmptyDepartments`: none when it is missing or
      empty. */
  function DepartmentOf(e: EmployeeRecord): (r: seq<string>)
    ensures |r| <= 1
    ensures forall d :: d in r <==> e.department == Some(d) && d != ""
  {
    if e.department.Some? && e.department.value != "" then [e.department.value] else []
  }

  /** `employees.map(emp => emp.department).filter(Boolean)`. */
  function NonEmptyDepartments(employees: seq<EmployeeRecord>): (r: seq<string>)
    ensures forall d :: d in r <==>
              d != "" && exists i :: 0 <= i < |employees| && employees[i].department == Some(d)
  {
    if employees == [] then []
    else
      var e := employees[0];
      var rest := NonEmptyDepartments(employees[1..]);
      assert forall i :: 0 <= i < |employees| - 1 ==> employees[1..][i] == employees[i + 1];
      DepartmentOf(e) + rest
  }

  /** `departments`: every non-empty department once, in order of first appearance. */
  function Departments(employees: seq<EmployeeRecord>): (r: seq<string>)
    ensures NoDuplicates(r)
    ensures forall d :: d in r <==>
              d != "" && exists i :: 0 <= i < |employees| && employees[i].department == Some(d)
  {
    Dedup(NonEmptyDepartments(employees))
  }

  /** `map(...).filter(Boolean)` keeps employee order: one more employee only appends its
      department, if it has one. */
  lemma {:induction false} NonEmptyDepartmentsSnoc(employees: seq<EmployeeRecord>, e: EmployeeRecord)
    ensures NonEmptyDepartments(employees + [e]) == NonEmptyDepartments(employees) + DepartmentOf(e)
  {
    var s := employees + [e];
    if employees == [] {
      assert s == [e] && s[1..] == [];
    } else {
      assert s[0] == employees[0];
      assert s[1..] == employees[1..] + [e];
      NonEmptyDepartmentsSnoc(employees[1..], e);
    }
  }

  /** First-appearance order: one more employee appends its department to `departments`
      exactly when it is non-empty and not listed yet. */
  lemma DepartmentsSnoc(employees: seq<EmployeeRecord>, e: EmployeeRecord)
    ensures Departments(employees + [e])
            == Departments(employees)
               + (if e.department.Some? && e.department.value != ""
                     && e.department.value !in Departments(employees)
                  then [e.department.value] else [])
  {
    var t := NonEmptyDepartments(employees);
    NonEmptyDepartmentsSnoc(employees, e);
    if DepartmentOf(e) == [] {
      assert t + DepartmentOf(e) == t;
    } else {
      var d := e.department.value;
      var s := t + [d];
      assert s[..|s| - 1] == t && s[|s| - 1] == d;
    }
  }

  /** The calendar day of an instant, as `toDateString` reads it: `tzOffset(t)` is how many
      milliseconds the browser's local time is ahead of UTC at the instant `t`, so a change
      of daylight saving time between two instants is taken into account. */
  function LocalDay(t: int, tzOffset: int -> int): (d: int)
    ensures d * MsPerDay <= t + tzOffset(t) < (d + 1) * MsPerDay
  {
    (t + tzOffset(t)) / MsPerDay
  }

  predicate IsApproved(r: RequestSummary)
  {
    r.status == APPROVED
  }

  /** "Approved Today": the APPROVED requests whose creation (not approval) falls on the
      local day of `now`, counted by position. */
  function ApprovedToday(requests: seq<RequestSummary>, now: int, tzOffset: int -> int): (n: nat)
    ensures n == |set i | 0 <= i < |requests| && requests[i].status == APPROVED
                          && LocalDay(requests[i].createdAt, tzOffset) == LocalDay(now, tzOffset)|
    ensures n <= Count(requests, IsApproved)
  {
    var p := (r: RequestSummary) =>
      r.status == APPROVED && LocalDay(r.createdAt, tzOffset) == LocalDay(now, tzOffset);
    CountMonotone(requests, p, IsApproved);
    CountIsIndexCount(requests, p);
    assert IndexSet(requests, p)
        == (set i | 0 <= i < |requests| && requests[i].status == APPROVED
                    && LocalDay(requests[i].createdAt, tzOffset) == LocalDay(now, tzOffset));
    Count(requests, p)
  }

  /** The card ignores `updatedAt`: two lists that differ only in when their requests were
      last updated show the same number. */
  lemma ApprovedTodayIgnoresUpdate(a: seq<RequestSummary>, b: seq<RequestSummary>, now: int,
                                   tzOffset: int -> int)
    requires |a| == |b|
    requires forall i :: 0 <= i < |a| ==> a[i].(updatedAt := b[i].updatedAt) == b[i]
    ensures ApprovedToday(a, now, tzOffset) == ApprovedToday(b, now, tzOffset)
  {
    assert forall i :: 0 <= i < |a| ==> a[i].status == b[i].status && a[i].createdAt == b[i].createdAt by {
      forall i | 0 <= i < |a| ensures a[i].status == b[i].status && a[i].createdAt == b[i].createdAt {
        assert a[i].(updatedAt := b[i].updatedAt) == b[i];
      }
    }
    assert (set i | 0 <= i < |a| && a[i].status == APPROVED
                    && LocalDay(a[i].createdAt, tzOffset) == LocalDay(now, tzOffset))
        == (set i | 0 <= i < |b| && b[i].status == APPROVED
                    && LocalDay(b[i].createdAt, tzOffset) == LocalDay(now, tzOffset));
  }

  /** A request created on an earlier day and approved today adds nothing to the card: it
      reads `createdAt`, not `updatedAt`. */
  lemma ApprovedTodayReadsCreation(requests: seq<RequestSummary>, r: RequestSummary, now: int,
                                   tzOffset: int -> int)
    requires r.status == APPROVED
    requires LocalDay(r.createdAt, tzOffset) < LocalDay(now, tzOffset) == LocalDay(r.updatedAt, tzOffset)
    ensures ApprovedToday(requests + [r], now, tzOffset) == ApprovedToday(requests, now, tzOffset)
  {
    var s := requests + [r];
    assert forall i :: 0 <= i < |requests| ==> s[i] == requests[i];
    assert (set i | 0 <= i < |s| && s[i].status == APPROVED
                    && LocalDay(s[i].createdAt, tzOffset) == LocalDay(now, tzOffset))
        == (set i | 0 <= i < |requests| && requests[i].status == APPROVED
                    && LocalDay(requests[i].createdAt, tzOffset) == LocalDay(now, tzOffset));
  }

  /** An APPROVED request created today adds one to the card. */
  lemma ApprovedTodayCountsCreation(requests: seq<RequestSummary>, r: RequestSummary, now: int,
                                    tzOffset: int -> int)
    requires r.status == APPROVED
    requires LocalDay(r.createdAt, tzOffset) == LocalDay(now, tzOffset)
    ensures ApprovedToday(requests + [r], now, tzOffset) == ApprovedToday(requests, now, tzOffset) + 1
  {
    var s := requests + [r];
    assert forall i :: 0 <= i < |requests| ==> s[i] == requests[i];
    var before := set i | 0 <= i < |requests| && requests[i].status == APPROVED
                          && LocalDay(requests[i].createdAt, tzOffset) == LocalDay(now, tzOffset);
    assert (set i | 0 <= i < |s| && s[i].status == APPROVED
                    && LocalDay(s[i].createdAt, tzOffset) == LocalDay(now, tzOffset))
        == before + {|requests|};
    assert |requests| !in before;
  }

  /** The review call the buttons make: `PUT /api/requests/{kind}/{id}` with `{ status }`. */
  datatype PutCall = PutCall(kind: Kind, requestId: nat, status: RequestStatus)

  /** `handleApproveRequest` / `handleRejectRequest`: the call they send. */
  function ReviewCall(requestId: nat, kind: Kind, approve: bool): (c: PutCall)
    ensures c.kind == kind && c.requestId == requestId
    ensures c.status == APPROVED <==> approve
    ensures c.status == REJECTED <==> !approve
  {
    PutCall(kind, requestId, if approve then APPROVED else REJECTED)
  }

  /** The buttons of the Requests tab: they always name the vacation route, whatever list
      the request came from. */
  function TabReviewCall(r: RequestSummary, approve: bool): (c: PutCall)
    ensures c.kind == Vacation && c.requestId == r.id
    ensures c.status == if approve then APPROVED else REJECTED
  {
    ReviewCall(r.id, Vacation, approve)
  }

  /** The dashboard's state: the employees and the merged requests as last fetched. */
  class Dashboard {
    var employees: seq<EmployeeRecord>
    var requests: seq<RequestSummary>

    constructor ()
      ensures employees == [] && requests == []
    {
      employees, requests := [], [];
    }

    /** `fetchData`: the employees are replaced only on an ok response; the requests are
        always replaced, by the merge of the ok request responses, newest first. */
    method FetchData(employeesRes: Fetched<seq<EmployeeRecord>>,
                     requestResponses: seq<Fetched<seq<RequestSummary>>>)
      modifies this
      ensures employees == Refreshed(employeesRes, old(employees))
      ensures requests == SortDesc(OkConcat(requestResponses), SummaryCreatedAt)
      ensures SortedDesc(requests, SummaryCreatedAt)
      ensures multiset(requests) == multiset(OkConcat(requestResponses))
    {
      if employeesRes.Ok? {
        employees := employeesRes.data;
      }
      var all := MergeResponses(requestResponses);
      requests := SortDesc(all, SummaryCreatedAt);
    }

    /** The approve and reject handlers: the call is sent, and only an ok answer triggers a
        refetch (whose responses are the last two arguments). */
    method HandleReview(requestId: nat, kind: Kind, approve: bool, responseOk: bool,
                        employeesRes: Fetched<seq<EmployeeRecord>>,
                        requestResponses: seq<Fetched<seq<RequestSummary>>>)
      returns (call: PutCall)
      modifies this
      ensures call == ReviewCall(requestId, kind, approve)
      ensures responseOk ==>
                && employees == Refreshed(employeesRes, old(employees))
                && requests == SortDesc(OkConcat(requestResponses), SummaryCreatedAt)
      ensures !responseOk ==> unchanged(this)
    {
      call := ReviewCall(requestId, kind, approve);
      if responseOk {
        FetchData(employeesRes, requestResponses);
      }
    }
  }
}
