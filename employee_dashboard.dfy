/** The employee's dashboard: its three request lists, the merged "all requests" view with its
    counts, and the three request forms. */
module EmployeeDashboard {
  import opened Seqs
  import opened Fetch
  import opened RequestStore
  import opened VacationRoute
  import opened FundRoute
  import opened GeneralRoute

  /** `{ ...req, type }`: a request of any kind, tagged with the kind it was fetched as. */
  datatype Entry =
    | VacationEntry(vacation: Row<VacationDetails>)
    | FundEntry(fund: Row<FundDetails>)
    | GeneralEntry(general: Row<GeneralDetails>)
  {
    function Kind(): Kind
    {
      match this
      case VacationEntry(_) => Vacation
      case FundEntry(_) => Fund
      case GeneralEntry(_) => General
    }

    function Status(): RequestStatus
    {
      match this
      case VacationEntry(r) => r.status
      case FundEntry(r) => r.status
      case GeneralEntry(r) => r.status
    }
  }

  function EntryCreatedAt(e: Entry): int
  {
    match e
    case VacationEntry(r) => r.createdAt
    case FundEntry(r) => r.createdAt
    case GeneralEntry(r) => r.createdAt
  }

  function TagVacation(rs: seq<Row<VacationDetails>>): (r: seq<Entry>)
    ensures |r| == |rs|
    ensures forall i :: 0 <= i < |rs| ==> r[i] == VacationEntry(rs[i])
  {
    seq(|rs|, i requires 0 <= i < |rs| => VacationEntry(rs[i]))
  }

  function TagFund(rs: seq<Row<FundDetails>>): (r: seq<Entry>)
    ensures |r| == |rs|
    ensures forall i :: 0 <= i < |rs| ==> r[i] == FundEntry(rs[i])
  {
    seq(|rs|, i requires 0 <= i < |rs| => FundEntry(rs[i]))
  }

  function TagGeneral(rs: seq<Row<GeneralDetails>>): (r: seq<Entry>)
    ensures |r| == |rs|
    ensures forall i :: 0 <= i < |rs| ==> r[i] == GeneralEntry(rs[i])
  {
    seq(|rs|, i requires 0 <= i < |rs| => GeneralEntry(rs[i]))
  }

  /** `allRequests`: the three lists tagged with their kind, concatenated and stably sorted
      newest first. Nothing is lost or added, and entries created at the same instant keep
      their concatenation order: vacation, then fund, then general, each in list order. */
  function AllRequests(vacation: seq<Row<VacationDetails>>, fund: seq<Row<FundDetails>>,
                       general: seq<Row<GeneralDetails>>): (r: seq<Entry>)
    ensures |r| == |vacation| + |fund| + |general|
    ensures multiset(r) == multiset(TagVacation(vacation) + TagFund(fund) + TagGeneral(general))
    ensures SortedDesc(r, EntryCreatedAt)
    ensures forall i :: 0 <= i < |vacation| ==> VacationEntry(vacation[i]) in r
    ensures forall i :: 0 <= i < |fund| ==> FundEntry(fund[i]) in r
    ensures forall i :: 0 <= i < |general| ==> GeneralEntry(general[i]) in r
    ensures forall k :: Filter(r, KeyIs(EntryCreatedAt, k))
                        == Filter(TagVacation(vacation) + TagFund(fund) + TagGeneral(general),
                                  KeyIs(EntryCreatedAt, k))
  {
    var tagged := TagVacation(vacation) + TagFund(fund) + TagGeneral(general);
    var r := SortDesc(tagged, EntryCreatedAt);
    SortDescKeepsTies(tagged, EntryCreatedAt);
    assert forall x :: x in tagged ==> x in r by {
      forall x | x in tagged ensures x in r {
        assert x in multiset(tagged);
      }
    }
    assert forall i :: 0 <= i < |vacation| ==> tagged[i] == VacationEntry(vacation[i]);
    assert forall i :: 0 <= i < |fund| ==> tagged[|vacation| + i] == FundEntry(fund[i]);
    assert forall i :: 0 <= i < |general| ==> tagged[|vacation| + |fund| + i] == GeneralEntry(general[i]);
    r
  }

  predicate IsPending(e: Entry)
  {
    e.Status() == PENDING
  }

  predicate IsApproved(e: Entry)
  {
    e.Status() == APPROVED
  }

  /** The "Pending Requests" and "Approved Requests" cards never add up to more than the
      "Total Requests" card. */
  lemma CardsBoundedByTotal(all: seq<Entry>)
    ensures Count(all, IsPending) + Count(all, IsApproved) <= |all|
  {
    CountExclusive2(all, IsPending, IsApproved);
  }

  /** "Recent Requests": the first five entries of `allRequests`, or all of them when fewer. */
  function Recent(all: seq<Entry>): (r: seq<Entry>)
    ensures |r| == if |all| < 5 then |all| else 5
    ensures r <= all
  {
    if |all| < 5 then all else all[..5]
  }

  /** `getStatusColor`: the badge classes of a status. */
  function StatusColor(status: RequestStatus): (r: string)
    ensures status == APPROVED ==> r == "bg-green-100 text-green-800"
    ensures status == REJECTED ==> r == "bg-red-100 text-red-800"
    ensures status == PENDING ==> r == "bg-yellow-100 text-yellow-800"
    ensures r == "bg-gray-100 text-gray-800" <==> status !in {APPROVED, REJECTED, PENDING}
  {
    match status
    case APPROVED => "bg-green-100 text-green-800"
    case REJECTED => "bg-red-100 text-red-800"
    case PENDING => "bg-yellow-100 text-yellow-800"
    case _ => "bg-gray-100 text-gray-800"
  }

  /** The three forms, as the inputs hold them. */
  datatype VacationForm = VacationForm(startDate: string, endDate: string, reason: string)
  datatype FundForm = FundForm(fundType: string, amount: string, reason: string, requestType: string)
  datatype GeneralForm = GeneralForm(requestType: string, subject: string, description: string,
                                     priority: Priority)

  const InitialVacationForm: VacationForm := VacationForm("", "", "")
  const InitialFundForm: FundForm := FundForm("TRAVEL", "", "", "")
  const InitialGeneralForm: GeneralForm := GeneralForm("", "", "", MEDIUM)

  /** The dashboard's state: the three lists as last fetched and the three forms. */
  class Dashboard {
    var vacationRequests: seq<Row<VacationDetails>>
    var fundRequests: seq<Row<FundDetails>>
    var generalRequests: seq<Row<GeneralDetails>>
    var vacationForm: VacationForm
    var fundForm: FundForm
    var generalForm: GeneralForm

    constructor ()
      ensures vacationRequests == [] && fundRequests == [] && generalRequests == []
      ensures vacationForm == InitialVacationForm && fundForm == InitialFundForm
      ensures generalForm == InitialGeneralForm
    {
      vacationRequests, fundRequests, generalRequests := [], [], [];
      vacationForm, fundForm, generalForm := InitialVacationForm, InitialFundForm, InitialGeneralForm;
    }

    /** `fetchRequests`: each list is replaced only when its own response is ok; the forms
        are untouched. */
    method FetchRequests(vacationRes: Fetched<seq<Row<VacationDetails>>>,
                         fundRes: Fetched<seq<Row<FundDetails>>>,
                         generalRes: Fetched<seq<Row<GeneralDetails>>>)
      modifies this
      ensures vacationRequests == Refreshed(vacationRes, old(vacationRequests))
      ensures fundRequests == Refreshed(fundRes, old(fundRequests))
      ensures generalRequests == Refreshed(generalRes, old(generalRequests))
      ensures vacationForm == old(vacationForm) && fundForm == old(fundForm)
      ensures generalForm == old(generalForm)
    {
      if vacationRes.Ok? {
        vacationRequests := vacationRes.data;
      }
      if fundRes.Ok? {
        fundRequests := fundRes.data;
      }
      if generalRes.Ok? {
        generalRequests := generalRes.data;
      }
    }

    /** `submitVacationRequest`: after an ok response the form is cleared and the lists are
        fetched again (their responses are the last three arguments); otherwise nothing
        changes. */
    method SubmitVacation(responseOk: bool, vacationRes: Fetched<seq<Row<VacationDetails>>>,
                          fundRes: Fetched<seq<Row<FundDetails>>>,
                          generalRes: Fetched<seq<Row<GeneralDetails>>>)
      modifies this
      ensures responseOk ==> vacationForm == InitialVacationForm
      ensures responseOk ==>
                && vacationRequests == Refreshed(vacationRes, old(vacationRequests))
                && fundRequests == Refreshed(fundRes, old(fundRequests))
                && generalRequests == Refreshed(generalRes, old(generalRequests))
      ensures fundForm == old(fundForm) && generalForm == old(generalForm)
      ensures !responseOk ==> unchanged(this)
    {
      if responseOk {
        vacationForm := InitialVacationForm;
        FetchRequests(vacationRes, fundRes, generalRes);
      }
    }

    /** `submitFundRequest`: as SubmitVacation, resetting the fund form (fund type TRAVEL). */
    method SubmitFund(responseOk: bool, vacationRes: Fetched<seq<Row<VacationDetails>>>,
                      fundRes: Fetched<seq<Row<FundDetails>>>,
                      generalRes: Fetched<seq<Row<GeneralDetails>>>)
      modifies this
      ensures responseOk ==> fundForm == InitialFundForm
      ensures responseOk ==>
                && vacationRequests == Refreshed(vacationRes, old(vacationRequests))
                && fundRequests == Refreshed(fundRes, old(fundRequests))
                && generalRequests == Refreshed(generalRes, old(generalRequests))
      ensures vacationForm == old(vacationForm) && generalForm == old(generalForm)
      ensures !responseOk ==> unchanged(this)
    {
      if responseOk {
        fundForm := InitialFundForm;
        FetchRequests(vacationRes, fundRes, generalRes);
      }
    }

    /** `submitGeneralRequest`: as SubmitVacation, resetting the general form (priority
        MEDIUM). */
    method SubmitGeneral(responseOk: bool, vacationRes: Fetched<seq<Row<VacationDetails>>>,
                         fundRes: Fetched<seq<Row<FundDetails>>>,
                         generalRes: Fetched<seq<Row<GeneralDetails>>>)
      modifies this
      ensures responseOk ==> generalForm == InitialGeneralForm
      ensures responseOk ==>
                && vacationRequests == Refreshed(vacationRes, old(vacationRequests))
                && fundRequests == Refreshed(fundRes, old(fundRequests))
                && generalRequests == Refreshed(generalRes, old(generalRequests))
      ensures vacationForm == old(vacationForm) && fundForm == old(fundForm)
      ensures !responseOk ==> unchanged(this)
    {
      if responseOk {
        generalForm := InitialGeneralForm;
        FetchRequests(vacationRes, fundRes, generalRes);
      }
    }
  }
}
