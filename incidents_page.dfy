/** The incidents page: its search and filters, the stat cards, reporting a new incident and
    which actions each role is offered. */
module IncidentsPage {
  import opened Wrappers
  import opened Seqs
  import opened Text
  import opened ApiUtils
  import opened RequestStore

  datatype Incident = Incident(id: int, title: string, description: string, priority: Priority,
                               status: RequestStatus, reportedBy: string,
                               assignedTo: Option<string>, createdAt: int, updatedAt: int,
                               category: string)

  /** The "report incident" form. */
  datatype IncidentForm = IncidentForm(title: string, description: string, priority: Priority,
                                       category: string)

  const InitialForm: IncidentForm := IncidentForm("", "", MEDIUM, "General")

  /** The test `filteredIncidents` applies to one incident: the search term occurs,
      ignoring case, in its title, description or category, and each filter is either unset
      (None, the empty selection) or equal to the incident's value. */
  predicate IncidentMatches(i: Incident, searchTerm: string, filterStatus: Option<RequestStatus>,
                            filterPriority: Option<Priority>)
  {
    var term := ToLower(searchTerm);
    && (Includes(ToLower(i.title), term) || Includes(ToLower(i.description), term)
        || Includes(ToLower(i.category), term))
    && (filterStatus.None? || filterStatus.value == i.status)
    && (filterPriority.None? || filterPriority.value == i.priority)
  }

  /** `filteredIncidents`: the incidents passing search and filters, in list order. */
  function FilteredIncidents(incidents: seq<Incident>, searchTerm: string,
                             filterStatus: Option<RequestStatus>, filterPriority: Option<Priority>)
    : (r: seq<Incident>)
    ensures forall i :: i in r <==> i in incidents && IncidentMatches(i, searchTerm, filterStatus, filterPriority)
  {
    Filter(incidents, i => IncidentMatches(i, searchTerm, filterStatus, filterPriority))
  }

  /** With no search term and no filter set, every incident is listed, in order. */
  lemma UnfilteredIncidents(incidents: seq<Incident>)
    ensures FilteredIncidents(incidents, "", None, None) == incidents
  {
    forall i | i in incidents ensures IncidentMatches(i, "", None, None) {
      IncludesEmpty(ToLower(i.title));
    }
    FilterKeepsAll(incidents, i => IncidentMatches(i, "", None, None));
  }

  predicate IsPending(i: Incident)
  {
    i.status == PENDING
  }

  predicate IsInProgress(i: Incident)
  {
    i.status == IN_PROGRESS
  }

  predicate IsCompleted(i: Incident)
  {
    i.status == COMPLETED
  }

  /** The Pending, In Progress and Resolved cards count disjoint statuses, so together they
      never exceed Total Incidents. */
  lemma StatCardsBoundedByTotal(incidents: seq<Incident>)
    ensures Count(incidents, IsPending) + Count(incidents, IsInProgress) + Count(incidents, IsCompleted)
            <= |incidents|
  {
    CountExclusive3(incidents, IsPending, IsInProgress, IsCompleted);
  }

  /** `session?.user.name || 'Unknown'`: a missing or empty name reads 'Unknown'. */
  function ReporterName(sessionName: Option<string>): (r: string)
    ensures r != ""
    ensures sessionName.Some? && sessionName.value != "" ==> r == sessionName.value
    ensures sessionName.None? || sessionName.value == "" ==> r == "Unknown"
  {
    if sessionName.Some? && sessionName.value != "" then sessionName.value else "Unknown"
  }

  /** The incident `handleCreateIncident` builds from the form: id and timestamps from the
      clock `now`, status PENDING, the reporter from the session. */
  function NewIncident(form: IncidentForm, sessionName: Option<string>, now: int): (i: Incident)
    ensures i.status == PENDING && i.assignedTo.None?
    ensures i.title == form.title && i.description == form.description
    ensures i.priority == form.priority && i.category == form.category
    ensures i.reportedBy == ReporterName(sessionName)
    ensures i.id == now && i.createdAt == now && i.updatedAt == now
  {
    Incident(now, form.title, form.description, form.priority, PENDING, ReporterName(sessionName),
             None, now, now, form.category)
  }

  /** `getPriorityColor`: the badge classes of a priority. */
  function PriorityColor(p: Priority): (r: string)
    ensures p == URGENT <==> r == "bg-red-100 text-red-800"
    ensures p == HIGH <==> r == "bg-orange-100 text-orange-800"
    ensures p == MEDIUM <==> r == "bg-yellow-100 text-yellow-800"
    ensures p == LOW <==> r == "bg-green-100 text-green-800"
  {
    match p
    case URGENT => "bg-red-100 text-red-800"
    case HIGH => "bg-orange-100 text-orange-800"
    case MEDIUM => "bg-yellow-100 text-yellow-800"
    case LOW => "bg-green-100 text-green-800"
  }

  /** `getStatusColor` of this page: COMPLETED green, IN_PROGRESS blue, PENDING yellow,
      REJECTED red, anything else gray. */
  function IncidentStatusColor(s: RequestStatus): (r: string)
    ensures s == COMPLETED <==> r == "bg-green-100 text-green-800"
    ensures s == IN_PROGRESS <==> r == "bg-blue-100 text-blue-800"
    ensures s == PENDING <==> r == "bg-yellow-100 text-yellow-800"
    ensures s == REJECTED <==> r == "bg-red-100 text-red-800"
    ensures s == APPROVED <==> r == "bg-gray-100 text-gray-800"
  {
    match s
    case COMPLETED => "bg-green-100 text-green-800"
    case IN_PROGRESS => "bg-blue-100 text-blue-800"
    case PENDING => "bg-yellow-100 text-yellow-800"
    case REJECTED => "bg-red-100 text-red-800"
    case _ => "bg-gray-100 text-gray-800"
  }

  /** View and edit buttons: shown to ADMIN, HR and MANAGER (None: no session). */
  predicate CanViewAndEdit(role: Option<Role>)
  {
    role.Some? && IsPrivileged(role.value)
  }

  /** Delete button: shown to ADMIN only. */
  predicate CanDelete(role: Option<Role>)
  {
    role == Some(ADMIN)
  }

  /** Whoever may delete may also view and edit; an EMPLOYEE gets neither. */
  lemma DeleteImpliesEdit(role: Option<Role>)
    ensures CanDelete(role) ==> CanViewAndEdit(role)
    ensures role == Some(EMPLOYEE) ==> !CanViewAndEdit(role) && !CanDelete(role)
    ensures CanViewAndEdit(role) && !CanDelete(role) <==> role == Some(HR) || role == Some(MANAGER)
  {
  }

  /** The page's state: the incident list, the form and whether the form is open. */
  class Page {
    var incidents: seq<Incident>
    var newIncident: IncidentForm
    var showCreateForm: bool

    constructor ()
      ensures incidents == [] && newIncident == InitialForm && !showCreateForm
    {
      incidents, newIncident, showCreateForm := [], InitialForm, false;
    }

    /** `handleCreateIncident`: prepends exactly one new PENDING incident built from the form,
        keeps every existing incident in order, resets the form and closes it. */
    method CreateIncident(sessionName: Option<string>, now: int)
      modifies this
      ensures incidents == [NewIncident(old(newIncident), sessionName, now)] + old(incidents)
      ensures incidents[1..] == old(incidents) && |incidents| == |old(incidents)| + 1
      ensures newIncident == InitialForm && !showCreateForm
    {
      var incident := NewIncident(newIncident, sessionName, now);
      incidents := [incident] + incidents;
      newIncident := InitialForm;
      showCreateForm := false;
    }
  }
}
