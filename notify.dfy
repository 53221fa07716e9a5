/** Who is emailed on each incident event. The mailer itself (templates, transport, a
    detached thread per message) is not modelled: a notification is the event, the
    incident and the recipient list handed to it. */
module Notify {
  import opened Rows
  import opened IncidentModel
  import opened Store

  datatype Event = IncidentCreated | IncidentAssigned | StatusUpdated

  datatype Notification = Notification(event: Event, incidentId: nat, recipients: seq<string>)

  /** Python truthiness of a nullable integer column: null and 0 are false. */
  predicate Truthy(id: Option<nat>)
  {
    id.Some? && id.value != 0
  }

  /** The selection `filter_by(role=role)`. */
  function HasRole(role: string): User -> bool
  {
    (u: User) => u.role == role
  }

  /** The email of every user with the given role, in table order
      (`[u.email for u in User.query.filter_by(role=role).all()]`): one address per such
      user. */
  function EmailsWithRole(users: seq<User>, role: string): (r: seq<string>)
    ensures |r| <= |users|
    ensures |r| == |Where(users, HasRole(role))|
    ensures forall k | 0 <= k < |r| :: r[k] == Where(users, HasRole(role))[k].email
    ensures forall e :: e in r <==> exists u | u in users :: u.role == role && u.email == e
  {
    var w := Where(users, HasRole(role));
    var r := seq(|w|, k requires 0 <= k < |w| => w[k].email);
    forall e | e in r
      ensures exists u | u in users :: u.role == role && u.email == e
    {
      var k :| 0 <= k < |r| && r[k] == e;
      assert w[k] in w;
    }
    forall u | u in users && u.role == role
      ensures u.email in r
    {
      assert u in w;
      var k :| 0 <= k < |w| && w[k] == u;
      assert r[k] == u.email;
    }
    r
  }

  /** A new incident is announced to every admin, then every manager. */
  function CreationRecipients(users: seq<User>): (r: seq<string>)
    ensures forall e :: e in r <==> exists u | u in users :: (u.role == "admin" || u.role == "manager") && u.email == e
    ensures r == EmailsWithRole(users, "admin") + EmailsWithRole(users, "manager")
    ensures |r| == |Where(users, HasRole("admin"))| + |Where(users, HasRole("manager"))|
  {
    EmailsWithRole(users, "admin") + EmailsWithRole(users, "manager")
  }

  /** The creation notification: sent only when there is at least one admin or manager. */
  function CreationNotice(users: seq<User>, incidentId: nat): (n: Option<Notification>)
    ensures n.Some? <==> exists u | u in users :: u.role == "admin" || u.role == "manager"
    ensures n.Some? ==> n.value == Notification(IncidentCreated, incidentId, CreationRecipients(users))
  {
    var recipients := CreationRecipients(users);
    if |recipients| > 0 then
      assert recipients[0] in recipients;
      Some(Notification(IncidentCreated, incidentId, recipients))
    else
      assert forall u | u in users :: u.email !in recipients;
      None
  }

  /** The notice is sent exactly when the recipient list is non-empty. */
  lemma CreationNoticeSentWhenRecipients(users: seq<User>, incidentId: nat)
    ensures var recipients := CreationRecipients(users);
      CreationNotice(users, incidentId)
      == if |recipients| > 0 then Some(Notification(IncidentCreated, incidentId, recipients)) else None
  {
  }

  /** The status-change recipients, computed after the commit: the creator's email, then
      the assignee's when an assignee is set (truthy) and is not the actor. The two are not
      deduplicated. `None` stands for the handler raising because one of those user rows
      does not load (`.email` on a missing user). */
  function StatusRecipients(users: seq<User>, inc: Incident, actorId: nat): (r: Option<seq<string>>)
    ensures r.None? <==> FindUser(users, inc.creatorId).None?
                         || (Truthy(inc.assigneeId) && inc.assigneeId.value != actorId
                             && FindUser(users, inc.assigneeId.value).None?)
    ensures r.Some? ==> 1 <= |r.value| <= 2 && r.value[0] == FindUser(users, inc.creatorId).value.email
    ensures r.Some? ==> (|r.value| == 2 <==> Truthy(inc.assigneeId) && inc.assigneeId.value != actorId)
    ensures r.Some? && |r.value| == 2 ==> r.value[1] == FindUser(users, inc.assigneeId.value).value.email
  {
    match FindUser(users, inc.creatorId)
    case None => None
    case Some(creator) =>
      if Truthy(inc.assigneeId) && inc.assigneeId.value != actorId then
        match FindUser(users, inc.assigneeId.value)
        case None => None
        case Some(assignee) => Some([creator.email, assignee.email])
      else
        Some([creator.email])
  }

  /** When the creator is also the assignee and someone else (an admin or manager)
      changes the status, the creator's email is listed twice. */
  lemma StatusRecipientsNotDeduplicated(users: seq<User>, inc: Incident, actorId: nat)
    requires FindUser(users, inc.creatorId).Some?
    requires inc.assigneeId == Some(inc.creatorId) && inc.creatorId != 0 && inc.creatorId != actorId
    ensures var e := FindUser(users, inc.creatorId).value.email;
            StatusRecipients(users, inc, actorId) == Some([e, e])
  {
  }

  /** The assignee who changes the status is not emailed about their own change. */
  lemma AssigneeActingIsNotNotified(users: seq<User>, inc: Incident)
    requires FindUser(users, inc.creatorId).Some? && inc.assigneeId.Some?
    ensures StatusRecipients(users, inc, inc.assigneeId.value) == Some([FindUser(users, inc.creatorId).value.email])
  {
  }
}
