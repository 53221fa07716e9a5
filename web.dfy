/** The browser pages (routes/incidents.py). Every page requires a signed-in user (a
    redirect to the login page otherwise). A submitted form that does not validate, or a
    refused request, changes nothing; only the outcome of a request is modelled, not the
    page it renders or the flash message it shows. */
module Web {
  import opened Rows
  import opened IncidentModel
  import opened Permissions
  import opened Lifecycle
  import opened Store
  import opened Queries
  import opened Notify

  /** How a form submission ends: sent to the login page, 404, refused with a flash
      message, form rejected (or nothing to do), done, or a handler that raises (500). */
  datatype Outcome = LoginRedirect | NotFound | Denied | Unchanged | Done | InternalError

  /** A page that only reads: the login redirect, 404, or what it shows. */
  datatype Page<T> = LoginRequired | Missing | Shown(content: T)

  /** The incident form's submitted fields; `None` is a field absent from the request. */
  datatype IncidentForm = IncidentForm(
    title: Option<string>,
    description: Option<string>,
    priority: Option<string>,
    incidentType: Option<string>)

  /** The values of a form that validated. */
  datatype FormValues = FormValues(title: string, description: string, priority: string, incidentType: string)

  /** The priority select field's choices. */
  const Priorities: set<string> := {"low", "medium", "high", "critical"}

  /** The type select field's choices. */
  const IncidentTypes: set<string> := {"infrastructure", "application", "security", "network", "database", "other"}

  /** The ASCII characters `str.strip()` removes. */
  predicate IsSpace(c: char)
  {
    c == ' ' || c == '\t' || c == '\n' || c == '\r' || '\U{B}' <= c <= '\U{C}' || '\U{1C}' <= c <= '\U{1F}'
  }

  /** A string with nothing left once whitespace is stripped. */
  predicate Blank(s: string)
  {
    forall i | 0 <= i < |s| :: IsSpace(s[i])
  }

  /** The DataRequired validator: the field is present and not blank. */
  predicate DataRequired(field: Option<string>)
  {
    field.Some? && !Blank(field.value)
  }

  /** The value of the priority select field: its default, "medium", when the request
      leaves it out. */
  function SelectedPriority(form: IncidentForm): string
  {
    if form.priority.Some? then form.priority.value else DefaultPriority
  }

  /** Validating the incident form: title and description required, and each select
      field's value one of its choices (the type field has no default, so it must be
      sent). */
  function Validate(form: IncidentForm): (r: Option<FormValues>)
    ensures r.Some? <==> && DataRequired(form.title) && DataRequired(form.description)
                         && (form.priority.None? || form.priority.value in Priorities)
                         && form.incidentType.Some? && form.incidentType.value in IncidentTypes
    ensures r.Some? ==> && r.value.priority in Priorities && r.value.incidentType in IncidentTypes
                        && !Blank(r.value.title) && !Blank(r.value.description)
    ensures r.Some? ==> && r.value.title == form.title.value && r.value.description == form.description.value
                        && r.value.incidentType == form.incidentType.value
                        && r.value.priority == (if form.priority.Some? then form.priority.value else "medium")
  {
    if DataRequired(form.title) && DataRequired(form.description)
       && SelectedPriority(form) in Priorities
       && form.incidentType.Some? && form.incidentType.value in IncidentTypes
    then Some(FormValues(form.title.value, form.description.value, SelectedPriority(form), form.incidentType.value))
    else None
  }

  /** A form that validates stores the default priority when it leaves the field out, so
      an edit form without a priority resets the incident's priority to "medium". */
  lemma EditWithoutPriorityResetsIt(inc: Incident, form: IncidentForm, now: nat)
    requires Validate(form).Some? && form.priority.None?
    ensures var v := Validate(form).value;
      Committed(inc, Edited(inc, v.title, v.description, v.priority, v.incidentType), now).priority == "medium"
  {
    var v := Validate(form).value;
    assert v.priority == "medium";
  }

  /** GET /dashboard. */
  function DashboardPage(users: seq<User>, incidents: seq<Incident>, session: Session): (p: Page<Dashboard>)
    ensures p != Missing
    ensures p.LoginRequired? <==> CurrentUser(users, session).None?
    ensures p.Shown? ==> p.content == DashboardFor(incidents, CurrentUser(users, session).value.id)
  {
    match CurrentUser(users, session)
    case None => LoginRequired
    case Some(actor) => Shown(DashboardFor(incidents, actor.id))
  }

  /** GET /incidents: the same listing as the JSON API's. */
  function ListPage(users: seq<User>, incidents: seq<Incident>, session: Session, f: Filter): (p: Page<seq<Incident>>)
    ensures p != Missing
    ensures p.LoginRequired? <==> CurrentUser(users, session).None?
    ensures p.Shown? ==> && (forall x :: x in p.content <==> x in incidents && Matches(f, x))
                         && (forall x :: multiset(p.content)[x] == if Matches(f, x) then multiset(incidents)[x] else 0)
                         && (forall i, j | 0 <= i < j < |p.content| :: p.content[i].createdAt >= p.content[j].createdAt)
  {
    if CurrentUser(users, session).None? then LoginRequired else Shown(Listing(incidents, f))
  }

  /** What the incident page shows: the row and its comments. */
  datatype IncidentView = IncidentView(incident: Incident, comments: seq<Comment>)

  /** GET /incidents/<id>: the incident and its comments, oldest first. */
  function ViewIncident(users: seq<User>, incidents: seq<Incident>, comments: seq<Comment>, session: Session, id: nat)
    : (p: Page<IncidentView>)
    ensures p.LoginRequired? <==> CurrentUser(users, session).None?
    ensures p.Missing? <==> CurrentUser(users, session).Some? && forall i | 0 <= i < |incidents| :: incidents[i].id != id
    ensures p.Shown? ==> && p.content.incident in incidents && p.content.incident.id == id
                         && (forall c :: c in p.content.comments <==> c in comments && c.incidentId == id)
                         && (forall c :: multiset(p.content.comments)[c] ==
                               if c.incidentId == id then multiset(comments)[c] else 0)
                         && (forall i, j | 0 <= i < j < |p.content.comments| ::
                               p.content.comments[i].createdAt <= p.content.comments[j].createdAt)
  {
    match Load(users, incidents, session, id)
    case NoSession => LoginRequired
    case NoIncident => Missing
    case Found(_, k) => Shown(IncidentView(incidents[k], CommentsFor(comments, id)))
  }

  /** POST /incidents/create: a validated form becomes a new open incident of the actor,
      announced to the admins and managers. */
  method CreateIncident(db: Database, session: Session, form: IncidentForm, now: nat)
    returns (o: Outcome, mail: Option<Notification>)
    requires db.Valid()
    modifies db
    ensures db.Valid()
    ensures db.users == old(db.users) && db.comments == old(db.comments) && db.nextCommentId == old(db.nextCommentId)
    ensures o != Done ==> mail.None? && unchanged(db)
    ensures match CurrentUser(old(db.users), session)
      case None => o == LoginRedirect
      case Some(actor) =>
        match Validate(form)
        case None => o == Unchanged
        case Some(v) =>
          var inc := NewIncident(old(db.nextIncidentId), v.title, v.description, Some(v.priority), Some("open"),
                                 v.incidentType, actor.id, now);
          && db.incidents == old(db.incidents) + [inc]
          && db.nextIncidentId == old(db.nextIncidentId) + 1
          && o == Done
          && mail == CreationNotice(old(db.users), inc.id)
  {
    mail := None;
    var current := CurrentUser(db.users, session);
    if current.None? {
      return LoginRedirect, None;
    }
    var actor := current.value;
    var values := Validate(form);
    if values.None? {
      return Unchanged, None;
    }
    var v := values.value;
    var inc := NewIncident(db.nextIncidentId, v.title, v.description, Some(v.priority), Some("open"),
                           v.incidentType, actor.id, now);
    db.AddIncident(inc);
    var recipients := CreationRecipients(db.users);
    if |recipients| > 0 {
      mail := Some(Notification(IncidentCreated, inc.id, recipients));
    }
    o := Done;
  }

  /** POST /incidents/<id>/edit: the creator, an admin or a manager overwrites title,
      description, priority and type with a validated form. */
  method EditIncident(db: Database, session: Session, id: nat, form: IncidentForm, now: nat)
    returns (o: Outcome)
    requires db.Valid()
    modifies db
    ensures db.Valid()
    ensures db.users == old(db.users) && db.comments == old(db.comments)
    ensures db.nextIncidentId == old(db.nextIncidentId) && db.nextCommentId == old(db.nextCommentId)
    ensures o != Done ==> unchanged(db)
    ensures match Load(old(db.users), old(db.incidents), session, id)
      case NoSession => o == LoginRedirect
      case NoIncident => o == NotFound
      case Found(actor, k) =>
        var inc := old(db.incidents)[k];
        if !CanEdit(actor, inc) then o == Denied
        else
          match Validate(form)
          case None => o == Unchanged
          case Some(v) =>
            var inc' := Committed(inc, Edited(inc, v.title, v.description, v.priority, v.incidentType), now);
            db.incidents == old(db.incidents)[k := inc'] && o == Done
  {
    var access := Load(db.users, db.incidents, session, id);
    if access.NoSession? {
      return LoginRedirect;
    }
    if access.NoIncident? {
      return NotFound;
    }
    var actor, k := access.actor, access.index;
    var before := db.incidents[k];
    if actor.id != before.creatorId && !(actor.role == "admin" || actor.role == "manager") {
      return Denied;
    }
    var values := Validate(form);
    if values.None? {
      return Unchanged;
    }
    var v := values.value;
    var incident := before.(title := v.title);
    incident := incident.(description := v.description);
    incident := incident.(priority := v.priority);
    incident := incident.(incidentType := v.incidentType);
    incident := Committed(before, incident, now);
    db.SaveIncident(k, incident);
    o := Done;
  }

  /** POST /incidents/<id>/comment: any signed-in user comments on an existing incident;
      the comment must not be blank. */
  method AddComment(db: Database, session: Session, id: nat, content: Option<string>, now: nat)
    returns (o: Outcome)
    requires db.Valid()
    modifies db
    ensures db.Valid()
    ensures db.users == old(db.users) && db.incidents == old(db.incidents) && db.nextIncidentId == old(db.nextIncidentId)
    ensures o != Done ==> unchanged(db)
    ensures match Load(old(db.users), old(db.incidents), session, id)
      case NoSession => o == LoginRedirect
      case NoIncident => o == NotFound
      case Found(actor, _) =>
        if !DataRequired(content) then o == Unchanged
        else
          && db.comments == old(db.comments) + [Comment(old(db.nextCommentId), content.value, id, actor.id, now)]
          && db.nextCommentId == old(db.nextCommentId) + 1
          && o == Done
  {
    var access := Load(db.users, db.incidents, session, id);
    if access.NoSession? {
      return LoginRedirect;
    }
    if access.NoIncident? {
      return NotFound;
    }
    if !DataRequired(content) {
      return Unchanged;
    }
    var c := Comment(db.nextCommentId, content.value, id, access.actor.id, now);
    InsertCommentKeepsConsistent(db.users, db.incidents, db.comments, db.nextIncidentId, db.nextCommentId, c);
    db.comments := db.comments + [c];
    db.nextCommentId := db.nextCommentId + 1;
    o := Done;
  }

  /** POST /incidents/<id>/assign: an admin or manager sets any non-empty assignee id,
      which puts the incident in progress. The id is not checked against the user table;
      the assignee is emailed only when the id loads a user. `None` is an absent or empty
      form field. */
  method AssignIncident(db: Database, session: Session, id: nat, assigneeId: Option<nat>, now: nat)
    returns (o: Outcome, mail: Option<Notification>)
    requires db.Valid()
    modifies db
    ensures db.Valid()
    ensures db.users == old(db.users) && db.comments == old(db.comments)
    ensures db.nextIncidentId == old(db.nextIncidentId) && db.nextCommentId == old(db.nextCommentId)
    ensures o != Done ==> mail.None? && unchanged(db)
    ensures match Load(old(db.users), old(db.incidents), session, id)
      case NoSession => o == LoginRedirect
      case NoIncident => o == NotFound
      case Found(actor, k) =>
        var inc := old(db.incidents)[k];
        if !CanAssign(actor) then o == Denied
        else if assigneeId.None? then o == Unchanged
        else
          && db.incidents == old(db.incidents)[k := Committed(inc, Assigned(inc, assigneeId.value), now)]
          && o == Done
          && mail == match FindUser(old(db.users), assigneeId.value)
                     case None => None
                     case Some(assignee) => Some(Notification(IncidentAssigned, id, [assignee.email]))
  {
    mail := None;
    var access := Load(db.users, db.incidents, session, id);
    if access.NoSession? {
      return LoginRedirect, None;
    }
    if access.NoIncident? {
      return NotFound, None;
    }
    var actor, k := access.actor, access.index;
    if !(actor.role == "admin" || actor.role == "manager") {
      return Denied, None;
    }
    if assigneeId.None? {
      return Unchanged, None;
    }
    var before := db.incidents[k];
    var incident := before.(assigneeId := assigneeId);
    incident := incident.(status := "in_progress");
    incident := Committed(before, incident, now);
    db.SaveIncident(k, incident);
    var assignee := FindUser(db.users, assigneeId.value);
    if assignee.Some? {
      mail := Some(Notification(IncidentAssigned, incident.id, [assignee.value.email]));
    }
    o := Done;
  }

  /** POST /incidents/<id>/status: the assignee, an admin or a manager sets one of the four
      statuses; any other value (or none) is ignored without a message. The creator and a
      distinct assignee are emailed after the commit. */
  method UpdateStatus(db: Database, session: Session, id: nat, status: Option<string>, now: nat)
    returns (o: Outcome, mail: Option<Notification>)
    requires db.Valid()
    modifies db
    ensures db.Valid()
    ensures db.users == old(db.users) && db.comments == old(db.comments)
    ensures db.nextIncidentId == old(db.nextIncidentId) && db.nextCommentId == old(db.nextCommentId)
    ensures o != Done && o != InternalError ==> mail.None? && unchanged(db)
    ensures match Load(old(db.users), old(db.incidents), session, id)
      case NoSession => o == LoginRedirect
      case NoIncident => o == NotFound
      case Found(actor, k) =>
        var inc := old(db.incidents)[k];
        if !CanUpdateStatus(actor, inc) then o == Denied
        else if status.None? || status.value !in Statuses then o == Unchanged
        else
          var inc' := Committed(inc, StatusSet(inc, status.value, now), now);
          && db.incidents == old(db.incidents)[k := inc']
          && match StatusRecipients(old(db.users), inc', actor.id)
             case None => o == InternalError && mail.None?
             case Some(recipients) => o == Done && mail == Some(Notification(StatusUpdated, id, recipients))
  {
    mail := None;
    var access := Load(db.users, db.incidents, session, id);
    if access.NoSession? {
      return LoginRedirect, None;
    }
    if access.NoIncident? {
      return NotFound, None;
    }
    var actor, k := access.actor, access.index;
    var before := db.incidents[k];
    if before.assigneeId != Some(actor.id) && !(actor.role == "admin" || actor.role == "manager") {
      return Denied, None;
    }
    if status.None? || status.value !in Statuses {
      return Unchanged, None;
    }
    var s := status.value;
    var incident := before.(status := s);
    if s == "resolved" {
      incident := incident.(resolvedAt := Some(now));
    }
    incident := Committed(before, incident, now);
    db.SaveIncident(k, incident);
    var recipients := StatusRecipients(db.users, incident, actor.id);
    if recipients.None? {
      return InternalError, None;
    }
    mail := Some(Notification(StatusUpdated, incident.id, recipients.value));
    o := Done;
  }

  /** The browser accepts an assignee id that loads no user. A later status change by
      anyone other than that id then fails after its commit, because the assignee's email
      cannot be looked up. */
  lemma DanglingAssigneeBreaksStatusChange(users: seq<User>, inc: Incident, a: nat, actor: User,
                                                              status: string, now: nat)
    requires FindUser(users, a).None? && a != 0 && actor.id != a
    ensures var taken := Committed(inc, Assigned(inc, a), now);
      StatusRecipients(users, Committed(taken, StatusSet(taken, status, now), now), actor.id).None?
  {
    var taken := Committed(inc, Assigned(inc, a), now);
    assert taken.assigneeId == Some(a);
    var inc' := Committed(taken, StatusSet(taken, status, now), now);
    assert inc'.assigneeId == Some(a);
  }
}
