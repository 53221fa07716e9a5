/** The changes the request handlers make to a loaded incident row before committing it:
    a partial update (API PUT), a full form edit (browser), an assignment and a status
    change, and the commit itself, which refreshes updated_at when a column changed. */
module Lifecycle {
  import opened Rows
  import opened IncidentModel
  import opened Permissions

  /** The columns neither a PUT nor an edit form can reach agree in `a` and `b`. */
  predicate SameLifecycle(a: Incident, b: Incident)
  {
    a.id == b.id && a.status == b.status && a.creatorId == b.creatorId
    && a.assigneeId == b.assigneeId && a.createdAt == b.createdAt && a.resolvedAt == b.resolvedAt
  }

  /** The value under `key` if the request carries it, else `current`. */
  function Field(data: map<string, string>, key: string, current: string): string
  {
    if key in data then data[key] else current
  }

  /** API PUT: each of title, description, priority and incident_type present in the body
      overwrites its column; nothing else is read. */
  function Patched(inc: Incident, data: map<string, string>): (r: Incident)
    ensures SameLifecycle(inc, r) && r.updatedAt == inc.updatedAt
    ensures "title" in data ==> r.title == data["title"]
    ensures "title" !in data ==> r.title == inc.title
    ensures "description" in data ==> r.description == data["description"]
    ensures "description" !in data ==> r.description == inc.description
    ensures "priority" in data ==> r.priority == data["priority"]
    ensures "priority" !in data ==> r.priority == inc.priority
    ensures "incident_type" in data ==> r.incidentType == data["incident_type"]
    ensures "incident_type" !in data ==> r.incidentType == inc.incidentType
    ensures r == inc <==> ("title" in data ==> data["title"] == inc.title)
                          && ("description" in data ==> data["description"] == inc.description)
                          && ("priority" in data ==> data["priority"] == inc.priority)
                          && ("incident_type" in data ==> data["incident_type"] == inc.incidentType)
  {
    inc.(title := Field(data, "title", inc.title),
         description := Field(data, "description", inc.description),
         priority := Field(data, "priority", inc.priority),
         incidentType := Field(data, "incident_type", inc.incidentType))
  }

  /** Browser edit: the four form fields overwrite their columns unconditionally. */
  function Edited(inc: Incident, title: string, description: string, priority: string, incidentType: string): (r: Incident)
    ensures SameLifecycle(inc, r) && r.updatedAt == inc.updatedAt
    ensures r.title == title && r.description == description
    ensures r.priority == priority && r.incidentType == incidentType
    ensures r == inc <==> title == inc.title && description == inc.description
                          && priority == inc.priority && incidentType == inc.incidentType
  {
    inc.(title := title, description := description, priority := priority, incidentType := incidentType)
  }

  /** Assignment: the assignee is set and the status becomes in_progress, whatever it was. */
  function Assigned(inc: Incident, assigneeId: nat): (r: Incident)
    ensures r.assigneeId == Some(assigneeId) && r.status == "in_progress"
    ensures r.(status := inc.status, assigneeId := inc.assigneeId) == inc
    ensures r == inc <==> inc.status == "in_progress" && inc.assigneeId == Some(assigneeId)
  {
    inc.(assigneeId := Some(assigneeId), status := "in_progress")
  }

  /** Status change: the status is set; "resolved" also stamps resolved_at, and no other
      status touches it. */
  function StatusSet(inc: Incident, status: string, now: nat): (r: Incident)
    ensures r.status == status
    ensures status == "resolved" ==> r.resolvedAt == Some(now)
    ensures status != "resolved" ==> r.resolvedAt == inc.resolvedAt
    ensures r.(status := inc.status, resolvedAt := inc.resolvedAt) == inc
    ensures r == inc <==> inc.status == status && (status == "resolved" ==> inc.resolvedAt == Some(now))
  {
    inc.(status := status, resolvedAt := if status == "resolved" then Some(now) else inc.resolvedAt)
  }

  /** Committing `after` over the stored `before`: the row is written, with updated_at
      refreshed by its onupdate default, only if some column value differs. */
  function Committed(before: Incident, after: Incident, now: nat): (r: Incident)
    ensures r == before || r == after.(updatedAt := now)
    ensures r.(updatedAt := after.updatedAt) == after
    ensures after == before ==> r == before
    ensures after != before ==> r.updatedAt == now
  {
    if after == before then before else after.(updatedAt := now)
  }

  /** A PUT changes exactly the editable columns the body names, to the values it gives;
      a body naming none of them leaves the row as it was, updated_at included. */
  lemma PatchChangesOnlyNamedKeys(inc: Incident, data: map<string, string>, now: nat)
    ensures var r := Committed(inc, Patched(inc, data), now);
      && SameLifecycle(inc, r)
      && ("title" in data ==> r.title == data["title"]) && ("title" !in data ==> r.title == inc.title)
      && ("description" in data ==> r.description == data["description"])
      && ("description" !in data ==> r.description == inc.description)
      && ("priority" in data ==> r.priority == data["priority"])
      && ("priority" !in data ==> r.priority == inc.priority)
      && ("incident_type" in data ==> r.incidentType == data["incident_type"])
      && ("incident_type" !in data ==> r.incidentType == inc.incidentType)
      && (r.updatedAt == inc.updatedAt || r.updatedAt == now)
      && ("title" !in data && "description" !in data && "priority" !in data && "incident_type" !in data ==> r == inc)
  {
  }

  /** Sending the same PUT body twice has the effect of sending it once. */
  lemma PatchIdempotent(inc: Incident, data: map<string, string>)
    ensures Patched(Patched(inc, data), data) == Patched(inc, data)
  {
  }

  /** A browser edit sets exactly title, description, priority and type. */
  lemma EditSetsFormFields(inc: Incident, title: string, description: string, priority: string, incidentType: string, now: nat)
    ensures var r := Committed(inc, Edited(inc, title, description, priority, incidentType), now);
      SameLifecycle(inc, r) && r.title == title && r.description == description
      && r.priority == priority && r.incidentType == incidentType
  {
  }

  /** Assignment forces in_progress from any status, records the assignee, and keeps
      everything else except updated_at. */
  lemma AssignForcesInProgress(inc: Incident, assigneeId: nat, now: nat)
    ensures var r := Committed(inc, Assigned(inc, assigneeId), now);
      && r.status == "in_progress" && r.assigneeId == Some(assigneeId)
      && r.(status := inc.status, assigneeId := inc.assigneeId, updatedAt := inc.updatedAt) == inc
  {
  }

  /** Resolving stamps resolved_at with the time of the request; any other status keeps
      the previous stamp, so re-opening a resolved incident does not clear it. */
  lemma ResolvedAtStamp(inc: Incident, status: string, now: nat)
    ensures var r := Committed(inc, StatusSet(inc, status, now), now);
      && r.status == status
      && (status == "resolved" ==> r.resolvedAt == Some(now))
      && (status != "resolved" ==> r.resolvedAt == inc.resolvedAt)
      && (inc.resolvedAt.Some? ==> r.resolvedAt.Some?)
      && r.(status := inc.status, resolvedAt := inc.resolvedAt, updatedAt := inc.updatedAt) == inc
  {
  }

  /** Whoever is assigned may then change the status. */
  lemma AssigneeMayUpdateStatus(inc: Incident, actor: User, now: nat)
    ensures CanUpdateStatus(actor, Committed(inc, Assigned(inc, actor.id), now))
  {
  }

  /** No operation moves the right to edit: the creator never changes. */
  lemma EditRightIsPermanent(inc: Incident, actor: User, data: map<string, string>, assigneeId: nat, status: string, now: nat)
    ensures CanEdit(actor, Committed(inc, Patched(inc, data), now)) == CanEdit(actor, inc)
    ensures CanEdit(actor, Committed(inc, Assigned(inc, assigneeId), now)) == CanEdit(actor, inc)
    ensures CanEdit(actor, Committed(inc, StatusSet(inc, status, now), now)) == CanEdit(actor, inc)
  {
  }
}
