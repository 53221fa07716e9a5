/** The rows the application stores: incidents (models/incident.py) and the user and
    comment rows they refer to, plus the JSON object an incident is serialised to. */
module IncidentModel {
  import opened Rows

  /** A user account; `role` is compared as a string ("admin", "manager", anything else). */
  datatype User = User(id: nat, username: string, email: string, role: string)

  /** A comment on an incident; timestamps are opaque natural numbers. */
  datatype Comment = Comment(id: nat, content: string, incidentId: nat, authorId: nat, createdAt: nat)

  /** An incident row. `creatorId` is NOT NULL; `assigneeId` and `resolvedAt` are nullable.
      Priority, status and type are free strings in the table: only the request handlers
      restrict them. */
  datatype Incident = Incident(
    id: nat,
    title: string,
    description: string,
    priority: string,
    status: string,
    incidentType: string,
    creatorId: nat,
    assigneeId: Option<nat>,
    createdAt: nat,
    updatedAt: nat,
    resolvedAt: Option<nat>)

  const DefaultPriority: string := "medium"
  const DefaultStatus: string := "open"

  /** The four lifecycle states. */
  const Statuses: set<string> := {"open", "in_progress", "resolved", "closed"}

  /** The row an insert produces: a column the caller leaves unset takes its declared
      default, created_at and updated_at take the insertion time, and the assignee and
      the resolution time start out null. */
  function NewIncident(id: nat, title: string, description: string, priority: Option<string>,
                       status: Option<string>, incidentType: string, creatorId: nat, now: nat): (r: Incident)
    ensures r.assigneeId.None? && r.resolvedAt.None?
    ensures r.createdAt == now && r.updatedAt == now
  {
    Incident(id, title, description,
             if priority.Some? then priority.value else DefaultPriority,
             if status.Some? then status.value else DefaultStatus,
             incidentType, creatorId, None, now, now, None)
  }

  /** A row inserted without priority and status is a medium-priority open incident. */
  lemma ColumnDefaults(id: nat, title: string, description: string, incidentType: string, creatorId: nat, now: nat)
    ensures var r := NewIncident(id, title, description, None, None, incidentType, creatorId, now);
            r.priority == "medium" && r.status == "open" && r.status in Statuses
            && r.creatorId == creatorId && r.assigneeId.None? && r.resolvedAt.None?
  {
  }

  /** A JSON value; timestamps stay opaque (their ISO-8601 text is not modelled). */
  datatype Json = Null | Int(i: int) | Str(s: string) | Time(t: nat)

  const IncidentKeys: set<string> :=
    {"id", "title", "description", "priority", "status", "incident_type", "creator_id",
     "assignee_id", "created_at", "updated_at", "resolved_at"}

  /** The JSON object `to_dict` builds for an incident: every column under its own key,
      with a null assignee and an unset resolution time as JSON null. */
  function ToDict(inc: Incident): (d: map<string, Json>)
    ensures d.Keys == IncidentKeys
    ensures d["id"] == Int(inc.id) && d["creator_id"] == Int(inc.creatorId)
    ensures d["title"] == Str(inc.title) && d["description"] == Str(inc.description)
    ensures d["priority"] == Str(inc.priority) && d["status"] == Str(inc.status)
    ensures d["incident_type"] == Str(inc.incidentType)
    ensures d["created_at"] == Time(inc.createdAt) && d["updated_at"] == Time(inc.updatedAt)
    ensures d["assignee_id"] == Null <==> inc.assigneeId.None?
    ensures inc.assigneeId.Some? ==> d["assignee_id"] == Int(inc.assigneeId.value)
    ensures d["resolved_at"] == Null <==> inc.resolvedAt.None?
    ensures inc.resolvedAt.Some? ==> d["resolved_at"] == Time(inc.resolvedAt.value)
  {
    map[
      "id" := Int(inc.id),
      "title" := Str(inc.title),
      "description" := Str(inc.description),
      "priority" := Str(inc.priority),
      "status" := Str(inc.status),
      "incident_type" := Str(inc.incidentType),
      "creator_id" := Int(inc.creatorId),
      "assignee_id" := if inc.assigneeId.Some? then Int(inc.assigneeId.value) else Null,
      "created_at" := Time(inc.createdAt),
      "updated_at" := Time(inc.updatedAt),
      "resolved_at" := if inc.resolvedAt.Some? then Time(inc.resolvedAt.value) else Null
    ]
  }

  /** The serialised form loses nothing: two incidents with the same JSON object are the
      same incident. */
  lemma ToDictInjective(a: Incident, b: Incident)
    requires ToDict(a) == ToDict(b)
    ensures a == b
  {
  }
}
