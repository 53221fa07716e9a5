/** The JSON API (routes/api.py). Every route first requires an authenticated user
    (401 otherwise); routes under `/incidents/<id>` then load the incident (404 otherwise).
    Queries are functions of the tables; the routes that write are module-level methods
    that take the database and may modify it, and a rejected request leaves it unchanged. */
module Api {
  import opened Rows
  import opened IncidentModel
  import opened Permissions
  import opened Lifecycle
  import opened Store
  import opened Queries
  import opened Notify

  /** The error responses: 401, 403, 404, 400 with its message, and 500 for a handler
      that raises. */
  datatype ApiError = Unauthenticated | Forbidden | NotFound | BadRequest(message: string) | InternalError

  /** A response: a success code with its body, or an error. */
  datatype Result<T> = Ok(code: nat, value: T) | Err(error: ApiError)

  /** The comment object the API returns; the author's username is joined in. */
  datatype CommentView = CommentView(id: nat, content: string, authorId: nat, authorName: string, createdAt: nat)

  /** The keys a create request must carry, checked in this order. */
  const RequiredFields: seq<string> := ["title", "description", "incident_type"]

  /** The first required key the body lacks, if any, in the order title, description,
      incident_type. */
  function MissingRequired(data: map<string, string>): (r: Option<string>)
    ensures r.None? <==> "title" in data && "description" in data && "incident_type" in data
    ensures r.Some? ==> r.value in RequiredFields && r.value !in data
    ensures r == Some("description") ==> "title" in data
    ensures r == Some("incident_type") ==> "title" in data && "description" in data
  {
    if "title" !in data then Some("title")
    else if "description" !in data then Some("description")
    else if "incident_type" !in data then Some("incident_type")
    else None
  }

  /** The loop over the required fields: it stops at the first one the body lacks. */
  method CheckRequired(data: map<string, string>) returns (missing: Option<string>)
    ensures missing == MissingRequired(data)
  {
    missing := None;
    var i := 0;
    while i < |RequiredFields|
      invariant 0 <= i <= |RequiredFields|
      invariant forall j | 0 <= j < i :: RequiredFields[j] in data
    {
      if RequiredFields[i] !in data {
        missing := Some(RequiredFields[i]);
        return;
      }
      i := i + 1;
    }
  }

  /** The JSON objects of `l`, in order. */
  function Serialised(l: seq<Incident>): (out: seq<map<string, Json>>)
    ensures |out| == |l| && forall k | 0 <= k < |l| :: out[k] == ToDict(l[k])
  {
    seq(|l|, k requires 0 <= k < |l| => ToDict(l[k]))
  }

  /** GET /incidents: the listing for the filters, serialised. */
  function GetIncidents(users: seq<User>, incidents: seq<Incident>, session: Session, f: Filter)
    : (r: Result<seq<map<string, Json>>>)
    ensures r.Err? <==> CurrentUser(users, session).None?
    ensures r.Err? ==> r.error == Unauthenticated
    ensures r.Ok? ==> r.code == 200 && r.value == Serialised(Listing(incidents, f))
  {
    if CurrentUser(users, session).None? then Err(Unauthenticated) else Ok(200, Serialised(Listing(incidents, f)))
  }

  /** Serialising keeps exactly the rows: each row's object is there, and each object is
      some row's. */
  lemma SerialisedRows(l: seq<Incident>)
    ensures forall x | x in l :: ToDict(x) in Serialised(l)
    ensures forall d | d in Serialised(l) :: exists x | x in l :: d == ToDict(x)
  {
    var out := Serialised(l);
    forall x | x in l ensures ToDict(x) in out {
      var k :| 0 <= k < |l| && l[k] == x;
      assert out[k] == ToDict(x);
    }
    forall d | d in out ensures exists x | x in l :: d == ToDict(x) {
      var k :| 0 <= k < |out| && out[k] == d;
      assert l[k] in l;
    }
  }

  /** The listing response holds the JSON of exactly the incidents that match every
      non-empty filter. */
  lemma GetIncidentsMatchesFilters(users: seq<User>, incidents: seq<Incident>, session: Session, f: Filter)
    requires CurrentUser(users, session).Some?
    ensures var r := GetIncidents(users, incidents, session, f);
      && r.Ok?
      && (forall x | x in incidents && Matches(f, x) :: ToDict(x) in r.value)
      && (forall d | d in r.value :: exists x | x in incidents :: Matches(f, x) && d == ToDict(x))
  {
    SerialisedRows(Listing(incidents, f));
  }

  /** Every object of the listing response carries each non-empty filter's value. */
  lemma GetIncidentsCarryFilters(users: seq<User>, incidents: seq<Incident>, session: Session, f: Filter)
    requires CurrentUser(users, session).Some?
    ensures var r := GetIncidents(users, incidents, session, f);
      && r.Ok?
      && forall k | 0 <= k < |r.value| ::
           && (f.status != "" ==> r.value[k]["status"] == Str(f.status))
           && (f.priority != "" ==> r.value[k]["priority"] == Str(f.priority))
           && (f.incidentType != "" ==> r.value[k]["incident_type"] == Str(f.incidentType))
  {
    var l := Listing(incidents, f);
    var out := Serialised(l);
    forall k | 0 <= k < |out|
      ensures && (f.status != "" ==> out[k]["status"] == Str(f.status))
              && (f.priority != "" ==> out[k]["priority"] == Str(f.priority))
              && (f.incidentType != "" ==> out[k]["incident_type"] == Str(f.incidentType))
    {
      assert l[k] in l;
    }
  }

  /** The objects of the listing response run from the newest `created_at` to the oldest. */
  lemma GetIncidentsNewestFirst(users: seq<User>, incidents: seq<Incident>, session: Session, f: Filter)
    requires CurrentUser(users, session).Some?
    ensures var r := GetIncidents(users, incidents, session, f);
      && r.Ok?
      && forall i, j | 0 <= i < j < |r.value| :: r.value[i]["created_at"].t >= r.value[j]["created_at"].t
  {
    var l := Listing(incidents, f);
    var out: seq<map<string, Json>> := Serialised(l);
    forall i, j | 0 <= i < j < |out| ensures out[i]["created_at"].t >= out[j]["created_at"].t {
      assert out[i] == ToDict(l[i]) && out[j] == ToDict(l[j]);
    }
  }

  /** GET /incidents/<id>: the incident's JSON. */
  function GetIncident(users: seq<User>, incidents: seq<Incident>, session: Session, id: nat)
    : (r: Result<map<string, Json>>)
    ensures r == Err(Unauthenticated) <==> CurrentUser(users, session).None?
    ensures r == Err(NotFound) <==> CurrentUser(users, session).Some? && forall i | 0 <= i < |incidents| :: incidents[i].id != id
    ensures r.Err? ==> r.error == Unauthenticated || r.error == NotFound
    ensures r.Ok? ==> r.code == 200 && exists i | 0 <= i < |incidents| :: incidents[i].id == id && r.value == ToDict(incidents[i])
  {
    match Load(users, incidents, session, id)
    case NoSession => Err(Unauthenticated)
    case NoIncident => Err(NotFound)
    case Found(_, k) => Ok(200, ToDict(incidents[k]))
  }

  /** The comment objects for `comments`, in order; `None` if an author row does not load
      (the handler would raise). */
  function Views(users: seq<User>, comments: seq<Comment>): (r: Option<seq<CommentView>>)
    ensures r.None? <==> exists k | 0 <= k < |comments| :: FindUser(users, comments[k].authorId).None?
    ensures r.Some? ==> |r.value| == |comments|
    ensures r.Some? ==> forall k | 0 <= k < |comments| ::
              var c := comments[k];
              r.value[k] == CommentView(c.id, c.content, c.authorId, FindUser(users, c.authorId).value.username, c.createdAt)
  {
    if comments == [] then Some([])
    else
      var c := comments[|comments| - 1];
      var front := comments[..|comments| - 1];
      match Views(users, front)
      case None =>
        assert exists k | 0 <= k < |front| :: FindUser(users, front[k].authorId).None?;
        None
      case Some(vs) =>
        match FindUser(users, c.authorId)
        case None => None
        case Some(author) =>
          Some(vs + [CommentView(c.id, c.content, c.authorId, author.username, c.createdAt)])
  }

  /** GET /incidents/<id>/comments: that incident's comments, oldest first, each with its
      author's username. */
  function GetComments(users: seq<User>, incidents: seq<Incident>, comments: seq<Comment>, session: Session, id: nat)
    : (r: Result<seq<CommentView>>)
    ensures r == Err(Unauthenticated) <==> CurrentUser(users, session).None?
    ensures r == Err(NotFound) <==> CurrentUser(users, session).Some? && forall i | 0 <= i < |incidents| :: incidents[i].id != id
    ensures r.Err? ==> r.error in {Unauthenticated, NotFound, InternalError}
    ensures r == Err(InternalError) ==> exists c | c in comments :: c.incidentId == id && FindUser(users, c.authorId).None?
    ensures r.Ok? ==> r.code == 200 && Views(users, CommentsFor(comments, id)) == Some(r.value)
  {
    match Load(users, incidents, session, id)
    case NoSession => Err(Unauthenticated)
    case NoIncident => Err(NotFound)
    case Found(_, _) =>
      var cs := CommentsFor(comments, id);
      match Views(users, cs)
      case None =>
        var k :| 0 <= k < |cs| && FindUser(users, cs[k].authorId).None?;
        assert cs[k] in cs;
        Err(InternalError)
      case Some(vs) => Ok(200, vs)
  }

  /** The comment listing holds one object per comment on the incident and no other,
      oldest first. */
  lemma GetCommentsOrdered(users: seq<User>, incidents: seq<Incident>, comments: seq<Comment>, session: Session, id: nat)
    ensures var r := GetComments(users, incidents, comments, session, id);
      r.Ok? ==>
        && |r.value| == |CommentsFor(comments, id)|
        && (forall i, j | 0 <= i < j < |r.value| :: r.value[i].createdAt <= r.value[j].createdAt)
        && (forall v | v in r.value :: exists c | c in comments ::
              c.incidentId == id && v.id == c.id && v.content == c.content && v.authorId == c.authorId)
  {
    var r := GetComments(users, incidents, comments, session, id);
    if r.Ok? {
      var cs := CommentsFor(comments, id);
      forall v | v in r.value
        ensures exists c | c in comments :: c.incidentId == id && v.id == c.id && v.content == c.content && v.authorId == c.authorId
      {
        var k :| 0 <= k < |r.value| && r.value[k] == v;
        assert cs[k] in cs;
      }
    }
  }

  /** In consistent tables every comment's author loads, so listing comments never fails. */
  lemma GetCommentsNeverFails(users: seq<User>, incidents: seq<Incident>, comments: seq<Comment>,
                              nextIncidentId: nat, nextCommentId: nat, session: Session, id: nat)
    requires Consistent(users, incidents, comments, nextIncidentId, nextCommentId)
    ensures GetComments(users, incidents, comments, session, id) != Err(InternalError)
  {
    forall c | c in comments ensures FindUser(users, c.authorId).Some? {
      var k :| 0 <= k < |comments| && comments[k] == c;
    }
  }

  /** POST /incidents: a new open incident owned by the actor, announced to the admins
      and managers. */
  method CreateIncident(db: Database, session: Session, data: map<string, string>, now: nat)
    returns (r: Result<map<string, Json>>, mail: Option<Notification>)
    requires db.Valid()
    modifies db
    ensures db.Valid()
    ensures db.users == old(db.users) && db.comments == old(db.comments) && db.nextCommentId == old(db.nextCommentId)
    ensures r.Err? ==> mail.None? && unchanged(db)
    ensures match CurrentUser(old(db.users), session)
      case None => r == Err(Unauthenticated)
      case Some(actor) =>
        if |data| == 0 then r == Err(BadRequest("No data provided"))
        else if MissingRequired(data).Some? then
          r == Err(BadRequest("Missing required field: " + MissingRequired(data).value))
        else
          var inc := NewIncident(old(db.nextIncidentId), data["title"], data["description"],
                                 Some(Field(data, "priority", DefaultPriority)), Some("open"),
                                 data["incident_type"], actor.id, now);
          && db.incidents == old(db.incidents) + [inc]
          && db.nextIncidentId == old(db.nextIncidentId) + 1
          && r == Ok(201, ToDict(inc))
          && mail == CreationNotice(old(db.users), inc.id)
  {
    mail := None;
    var current := CurrentUser(db.users, session);
    if current.None? {
      return Err(Unauthenticated), None;
    }
    var actor := current.value;
    if |data| == 0 {
      return Err(BadRequest("No data provided")), None;
    }
    var missing := CheckRequired(data);
    if missing.Some? {
      return Err(BadRequest("Missing required field: " + missing.value)), None;
    }
    var priority := Field(data, "priority", DefaultPriority);
    var inc := NewIncident(db.nextIncidentId, data["title"], data["description"], Some(priority), Some("open"),
                           data["incident_type"], actor.id, now);
    db.AddIncident(inc);
    var recipients := CreationRecipients(db.users);
    CreationNoticeSentWhenRecipients(db.users, inc.id);
    if |recipients| > 0 {
      mail := Some(Notification(IncidentCreated, inc.id, recipients));
    }
    r := Ok(201, ToDict(inc));
  }

  /** PUT /incidents/<id>: the creator, an admin or a manager overwrites the columns the
      body names. */
  method UpdateIncident(db: Database, session: Session, id: nat, data: map<string, string>, now: nat)
    returns (r: Result<map<string, Json>>)
    requires db.Valid()
    modifies db
    ensures db.Valid()
    ensures db.users == old(db.users) && db.comments == old(db.comments)
    ensures db.nextIncidentId == old(db.nextIncidentId) && db.nextCommentId == old(db.nextCommentId)
    ensures r.Err? ==> unchanged(db)
    ensures match Load(old(db.users), old(db.incidents), session, id)
      case NoSession => r == Err(Unauthenticated)
      case NoIncident => r == Err(NotFound)
      case Found(actor, k) =>
        var inc := old(db.incidents)[k];
        if !CanEdit(actor, inc) then r == Err(Forbidden)
        else if |data| == 0 then r == Err(BadRequest("No data provided"))
        else
          var inc' := Committed(inc, Patched(inc, data), now);
          db.incidents == old(db.incidents)[k := inc'] && r == Ok(200, ToDict(inc'))
  {
    var access := Load(db.users, db.incidents, session, id);
    if access.NoSession? {
      return Err(Unauthenticated);
    }
    if access.NoIncident? {
      return Err(NotFound);
    }
    var actor, k := access.actor, access.index;
    var incident := db.incidents[k];
    if actor.id != incident.creatorId && !(actor.role == "admin" || actor.role == "manager") {
      return Err(Forbidden);
    }
    if |data| == 0 {
      return Err(BadRequest("No data provided"));
    }
    var before := incident;
    if "title" in data {
      incident := incident.(title := data["title"]);
    }
    if "description" in data {
      incident := incident.(description := data["description"]);
    }
    if "priority" in data {
      incident := incident.(priority := data["priority"]);
    }
    if "incident_type" in data {
      incident := incident.(incidentType := data["incident_type"]);
    }
    assert incident == Patched(before, data);
    incident := Committed(before, incident, now);
    db.SaveIncident(k, incident);
    r := Ok(200, ToDict(incident));
  }

  /** POST /incidents/<id>/assign: an admin or manager hands the incident to an existing
      user, which puts it in progress and emails that user. */
  method AssignIncident(db: Database, session: Session, id: nat, assigneeId: Option<nat>, now: nat)
    returns (r: Result<map<string, Json>>, mail: Option<Notification>)
    requires db.Valid()
    modifies db
    ensures db.Valid()
    ensures db.users == old(db.users) && db.comments == old(db.comments)
    ensures db.nextIncidentId == old(db.nextIncidentId) && db.nextCommentId == old(db.nextCommentId)
    ensures r.Err? ==> mail.None? && unchanged(db)
    ensures match Load(old(db.users), old(db.incidents), session, id)
      case NoSession => r == Err(Unauthenticated)
      case NoIncident => r == Err(NotFound)
      case Found(actor, k) =>
        var inc := old(db.incidents)[k];
        if !CanAssign(actor) then r == Err(Forbidden)
        else if assigneeId.None? then r == Err(BadRequest("No assignee_id provided"))
        else if FindUser(old(db.users), assigneeId.value).None? then r == Err(BadRequest("Invalid assignee_id"))
        else
          var assignee := FindUser(old(db.users), assigneeId.value).value;
          var inc' := Committed(inc, Assigned(inc, assignee.id), now);
          && db.incidents == old(db.incidents)[k := inc']
          && r == Ok(200, ToDict(inc'))
          && mail == Some(Notification(IncidentAssigned, id, [assignee.email]))
  {
    mail := None;
    var access := Load(db.users, db.incidents, session, id);
    if access.NoSession? {
      return Err(Unauthenticated), None;
    }
    if access.NoIncident? {
      return Err(NotFound), None;
    }
    var actor, k := access.actor, access.index;
    if !(actor.role == "admin" || actor.role == "manager") {
      return Err(Forbidden), None;
    }
    if assigneeId.None? {
      return Err(BadRequest("No assignee_id provided")), None;
    }
    var assignee := FindUser(db.users, assigneeId.value);
    if assignee.None? {
      return Err(BadRequest("Invalid assignee_id")), None;
    }
    var before := db.incidents[k];
    var incident := before.(assigneeId := Some(assignee.value.id));
    incident := incident.(status := "in_progress");
    incident := Committed(before, incident, now);
    db.SaveIncident(k, incident);
    mail := Some(Notification(IncidentAssigned, incident.id, [assignee.value.email]));
    r := Ok(200, ToDict(incident));
  }

  /** POST /incidents/<id>/status: the assignee, an admin or a manager sets one of the four
      statuses; the creator and a distinct assignee are emailed. */
  method UpdateStatus(db: Database, session: Session, id: nat, status: Option<string>, now: nat)
    returns (r: Result<map<string, Json>>, mail: Option<Notification>)
    requires db.Valid()
    modifies db
    ensures db.Valid()
    ensures db.users == old(db.users) && db.comments == old(db.comments)
    ensures db.nextIncidentId == old(db.nextIncidentId) && db.nextCommentId == old(db.nextCommentId)
    ensures r.Err? && r.error != InternalError ==> mail.None? && unchanged(db)
    ensures match Load(old(db.users), old(db.incidents), session, id)
      case NoSession => r == Err(Unauthenticated)
      case NoIncident => r == Err(NotFound)
      case Found(actor, k) =>
        var inc := old(db.incidents)[k];
        if !CanUpdateStatus(actor, inc) then r == Err(Forbidden)
        else if status.None? then r == Err(BadRequest("No status provided"))
        else if status.value !in Statuses then r == Err(BadRequest("Invalid status value"))
        else
          var inc' := Committed(inc, StatusSet(inc, status.value, now), now);
          && db.incidents == old(db.incidents)[k := inc']
          && match StatusRecipients(old(db.users), inc', actor.id)
             case None => r == Err(InternalError) && mail.None?
             case Some(recipients) =>
               r == Ok(200, ToDict(inc')) && mail == Some(Notification(StatusUpdated, id, recipients))
  {
    mail := None;
    var access := Load(db.users, db.incidents, session, id);
    if access.NoSession? {
      return Err(Unauthenticated), None;
    }
    if access.NoIncident? {
      return Err(NotFound), None;
    }
    var actor, k := access.actor, access.index;
    var before := db.incidents[k];
    if before.assigneeId != Some(actor.id) && !(actor.role == "admin" || actor.role == "manager") {
      return Err(Forbidden), None;
    }
    if status.None? {
      return Err(BadRequest("No status provided")), None;
    }
    var s := status.value;
    if s !in Statuses {
      return Err(BadRequest("Invalid status value")), None;
    }
    var incident := before.(status := s);
    if s == "resolved" {
      incident := incident.(resolvedAt := Some(now));
    }
    incident := Committed(before, incident, now);
    db.SaveIncident(k, incident);
    var recipients := StatusRecipients(db.users, incident, actor.id);
    if recipients.None? {
      return Err(InternalError), None;
    }
    mail := Some(Notification(StatusUpdated, incident.id, recipients.value));
    r := Ok(200, ToDict(incident));
  }

  /** POST /incidents/<id>/comments: any signed-in user adds a comment to an existing
      incident. */
  method AddComment(db: Database, session: Session, id: nat, content: Option<string>, now: nat)
    returns (r: Result<CommentView>)
    requires db.Valid()
    modifies db
    ensures db.Valid()
    ensures db.users == old(db.users) && db.incidents == old(db.incidents) && db.nextIncidentId == old(db.nextIncidentId)
    ensures r.Err? ==> unchanged(db)
    ensures match Load(old(db.users), old(db.incidents), session, id)
      case NoSession => r == Err(Unauthenticated)
      case NoIncident => r == Err(NotFound)
      case Found(actor, _) =>
        if content.None? then r == Err(BadRequest("No comment content provided"))
        else
          var c := Comment(old(db.nextCommentId), content.value, id, actor.id, now);
          && db.comments == old(db.comments) + [c]
          && db.nextCommentId == old(db.nextCommentId) + 1
          && r == Ok(201, CommentView(c.id, c.content, actor.id, actor.username, now))
  {
    var access := Load(db.users, db.incidents, session, id);
    if access.NoSession? {
      return Err(Unauthenticated);
    }
    if access.NoIncident? {
      return Err(NotFound);
    }
    var actor := access.actor;
    if content.None? {
      return Err(BadRequest("No comment content provided"));
    }
    var c := Comment(db.nextCommentId, content.value, id, actor.id, now);
    InsertCommentKeepsConsistent(db.users, db.incidents, db.comments, db.nextIncidentId, db.nextCommentId, c);
    db.comments := db.comments + [c];
    db.nextCommentId := db.nextCommentId + 1;
    var author := FindUser(db.users, c.authorId);
    r := Ok(201, CommentView(c.id, c.content, c.authorId, author.value.username, c.createdAt));
  }
}
