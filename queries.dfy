/** The read-only queries of both handler files: the filtered incident listing, the
    dashboard's lists and counts, and an incident's comments. */
module Queries {
  import opened Rows
  import opened IncidentModel

  /** The `status`, `priority` and `type` query parameters; an absent parameter reads as
      "", and "" (falsy) adds no condition. */
  datatype Filter = Filter(status: string, priority: string, incidentType: string)

  const NoFilter := Filter("", "", "")

  /** Every non-empty parameter must equal its column (`filter_by`, ANDed). */
  predicate Matches(f: Filter, inc: Incident)
  {
    && (f.status == "" || inc.status == f.status)
    && (f.priority == "" || inc.priority == f.priority)
    && (f.incidentType == "" || inc.incidentType == f.incidentType)
  }

  /** ORDER BY created_at DESC, as an ascending sort key. */
  function NewestFirstKey(inc: Incident): int { -(inc.createdAt as int) }

  /** ORDER BY created_at (ascending). */
  function OldestFirstKey(c: Comment): int { c.createdAt }

  /** The rows of `s`, newest first. */
  function NewestFirst(s: seq<Incident>): (r: seq<Incident>)
    ensures forall i, j | 0 <= i < j < |r| :: r[i].createdAt >= r[j].createdAt
    ensures multiset(r) == multiset(s)
  {
    var r := SortBy(s, NewestFirstKey);
    assert forall i, j | 0 <= i < j < |r| :: NewestFirstKey(r[i]) <= NewestFirstKey(r[j]);
    r
  }

  /** The incident listing of the API and of the browser: exactly the incidents that match
      every given filter, each as often as it is stored, newest first. */
  function Listing(incidents: seq<Incident>, f: Filter): (r: seq<Incident>)
    ensures forall i, j | 0 <= i < j < |r| :: r[i].createdAt >= r[j].createdAt
    ensures forall x :: x in r <==> x in incidents && Matches(f, x)
    ensures forall x :: multiset(r)[x] == if Matches(f, x) then multiset(incidents)[x] else 0
  {
    var r := NewestFirst(Where(incidents, (inc: Incident) => Matches(f, inc)));
    assert forall x :: x in r <==> x in multiset(r);
    r
  }

  /** Without parameters the listing holds every incident. */
  lemma EmptyFilterListsAll(incidents: seq<Incident>)
    ensures multiset(Listing(incidents, NoFilter)) == multiset(incidents)
  {
    var r := Listing(incidents, NoFilter);
    assert forall x :: multiset(r)[x] == multiset(incidents)[x];
  }

  /** Two parameters select the intersection of what each selects on its own. */
  lemma FiltersIntersect(incidents: seq<Incident>, status: string, priority: string)
    ensures forall x :: x in Listing(incidents, Filter(status, priority, ""))
                       <==> x in Listing(incidents, Filter(status, "", "")) && x in Listing(incidents, Filter("", priority, ""))
  {
  }

  /** How many incidents have the given status (`filter_by(status=...).count()`). */
  function CountStatus(incidents: seq<Incident>, status: string): (n: nat)
    ensures n <= |incidents|
  {
    if incidents == [] then 0
    else (if incidents[0].status == status then 1 else 0) + CountStatus(incidents[1..], status)
  }

  /** The count is zero exactly when no incident has the status, and the whole table
      exactly when every incident has it. */
  lemma {:induction false} CountStatusExtremes(incidents: seq<Incident>, status: string)
    ensures CountStatus(incidents, status) == 0
            <==> forall i | 0 <= i < |incidents| :: incidents[i].status != status
    ensures CountStatus(incidents, status) == |incidents|
            <==> forall i | 0 <= i < |incidents| :: incidents[i].status == status
  {
    if incidents != [] {
      var rest := incidents[1..];
      assert forall i | 0 <= i < |rest| :: rest[i] == incidents[i + 1];
      CountStatusExtremes(rest, status);
    }
  }

  /** Per status, the count is the number of incidents the listing filtered on that
      status returns. */
  lemma CountMatchesListing(incidents: seq<Incident>, status: string)
    requires status != ""
    ensures CountStatus(incidents, status) == |Listing(incidents, Filter(status, "", ""))|
  {
    CountIsWhereLength(incidents, status);
    var w := Where(incidents, (inc: Incident) => Matches(Filter(status, "", ""), inc));
    assert |Listing(incidents, Filter(status, "", ""))| == |SortBy(w, NewestFirstKey)|;
  }

  lemma {:induction false} CountIsWhereLength(incidents: seq<Incident>, status: string)
    requires status != ""
    ensures CountStatus(incidents, status) == |Where(incidents, (inc: Incident) => Matches(Filter(status, "", ""), inc))|
  {
    if incidents != [] {
      CountIsWhereLength(incidents[1..], status);
    }
  }

  /** When every status is one of the four, the four counts add up to the total. */
  lemma {:induction false} StatusCountsAddUp(incidents: seq<Incident>)
    requires forall i | 0 <= i < |incidents| :: incidents[i].status in Statuses
    ensures CountStatus(incidents, "open") + CountStatus(incidents, "in_progress")
            + CountStatus(incidents, "resolved") + CountStatus(incidents, "closed") == |incidents|
  {
    if incidents != [] {
      StatusCountsAddUp(incidents[1..]);
    }
  }

  /** What the dashboard shows the actor. */
  datatype Dashboard = Dashboard(
    openIncidents: seq<Incident>,
    total: nat,
    openCount: nat,
    inProgressCount: nat,
    resolvedCount: nat,
    closedCount: nat,
    myIncidents: seq<Incident>,
    createdIncidents: seq<Incident>)

  /** Every incident that is not closed, newest first. */
  function NotClosed(incidents: seq<Incident>): (r: seq<Incident>)
    ensures forall i, j | 0 <= i < j < |r| :: r[i].createdAt >= r[j].createdAt
    ensures forall x :: x in r <==> x in incidents && x.status != "closed"
    ensures forall x :: multiset(r)[x] == if x.status != "closed" then multiset(incidents)[x] else 0
  {
    var r := NewestFirst(Where(incidents, (inc: Incident) => inc.status != "closed"));
    assert forall x :: x in r <==> x in multiset(r);
    r
  }

  /** The actor's assigned incidents that are not closed, in table order (the query has
      no ORDER BY). A null assignee never equals the actor's id. */
  function AssignedTo(incidents: seq<Incident>, actorId: nat): (r: seq<Incident>)
    ensures forall x :: x in r <==> x in incidents && x.assigneeId == Some(actorId) && x.status != "closed"
    ensures forall x :: multiset(r)[x] ==
              if x.assigneeId == Some(actorId) && x.status != "closed" then multiset(incidents)[x] else 0
  {
    Where(incidents, (inc: Incident) => inc.assigneeId == Some(actorId) && inc.status != "closed")
  }

  /** Every incident the actor created, newest first. */
  function CreatedBy(incidents: seq<Incident>, actorId: nat): (r: seq<Incident>)
    ensures forall i, j | 0 <= i < j < |r| :: r[i].createdAt >= r[j].createdAt
    ensures forall x :: x in r <==> x in incidents && x.creatorId == actorId
    ensures forall x :: multiset(r)[x] == if x.creatorId == actorId then multiset(incidents)[x] else 0
    ensures multiset(r) <= multiset(incidents)
  {
    var r := NewestFirst(Where(incidents, (inc: Incident) => inc.creatorId == actorId));
    assert forall x :: x in r <==> x in multiset(r);
    r
  }

  /** The five most recent incidents the actor created, newest first (LIMIT 5). */
  function RecentlyCreatedBy(incidents: seq<Incident>, actorId: nat): (r: seq<Incident>)
    ensures |r| <= 5
    ensures forall x | x in r :: x in incidents && x.creatorId == actorId
    ensures forall i, j | 0 <= i < j < |r| :: r[i].createdAt >= r[j].createdAt
    ensures forall y | y in incidents && y.creatorId == actorId && y !in r ::
              |r| == 5 && forall x | x in r :: x.createdAt >= y.createdAt
    ensures multiset(r) <= multiset(incidents)
  {
    var mine := CreatedBy(incidents, actorId);
    NewestPrefix(mine, 5);
    Limit(mine, 5)
  }

  /** The first `n` rows of a newest-first list are at least as recent as every row left out. */
  lemma NewestPrefix(s: seq<Incident>, n: nat)
    requires forall i, j | 0 <= i < j < |s| :: s[i].createdAt >= s[j].createdAt
    ensures forall x | x in Limit(s, n) :: x in s
    ensures forall i, j | 0 <= i < j < |Limit(s, n)| :: Limit(s, n)[i].createdAt >= Limit(s, n)[j].createdAt
    ensures forall y | y in s && y !in Limit(s, n) ::
              |Limit(s, n)| == n && forall x | x in Limit(s, n) :: x.createdAt >= y.createdAt
    ensures multiset(Limit(s, n)) <= multiset(s)
  {
    var r := Limit(s, n);
    assert s == r + s[|r|..];
    forall y | y in s && y !in r ensures |r| == n && forall x | x in r :: x.createdAt >= y.createdAt {
      var k :| 0 <= k < |s| && s[k] == y;
      assert k >= |r|;
    }
  }

  /** The dashboard for `actorId`. */
  function DashboardFor(incidents: seq<Incident>, actorId: nat): (d: Dashboard)
    ensures d.total == |incidents|
    ensures (forall i | 0 <= i < |incidents| :: incidents[i].status in Statuses) ==>
              d.openCount + d.inProgressCount + d.resolvedCount + d.closedCount == d.total
    ensures forall x :: x in d.openIncidents <==> x in incidents && x.status != "closed"
    ensures forall x :: x in d.myIncidents <==> x in incidents && x.assigneeId == Some(actorId) && x.status != "closed"
    ensures |d.createdIncidents| <= 5 && forall x | x in d.createdIncidents :: x in incidents && x.creatorId == actorId
    ensures d.openIncidents == NotClosed(incidents) && d.myIncidents == AssignedTo(incidents, actorId)
    ensures d.createdIncidents == RecentlyCreatedBy(incidents, actorId)
  {
    var d := Dashboard(
      NotClosed(incidents),
      |incidents|,
      CountStatus(incidents, "open"),
      CountStatus(incidents, "in_progress"),
      CountStatus(incidents, "resolved"),
      CountStatus(incidents, "closed"),
      AssignedTo(incidents, actorId),
      RecentlyCreatedBy(incidents, actorId));
    if forall i | 0 <= i < |incidents| :: incidents[i].status in Statuses then
      StatusCountsAddUp(incidents);
      d
    else
      d
  }

  /** The comments on incident `id`, oldest first: exactly those comments, each once as
      stored. */
  function CommentsFor(comments: seq<Comment>, id: nat): (r: seq<Comment>)
    ensures forall i, j | 0 <= i < j < |r| :: r[i].createdAt <= r[j].createdAt
    ensures forall c :: c in r <==> c in comments && c.incidentId == id
    ensures forall c :: multiset(r)[c] == if c.incidentId == id then multiset(comments)[c] else 0
  {
    var r := SortBy(Where(comments, (c: Comment) => c.incidentId == id), OldestFirstKey);
    assert forall c :: c in r <==> c in multiset(r);
    assert forall i, j | 0 <= i < j < |r| :: OldestFirstKey(r[i]) <= OldestFirstKey(r[j]);
    r
  }
}
