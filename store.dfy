/** The database the handlers share: the user, incident and comment tables, the next
    primary keys, the signed-in session, and the lookups every handler starts with. */
module Store {
  import opened Rows
  import opened IncidentModel

  /** The request's login session: nobody, or the id of a user. */
  datatype Session = Anonymous | SignedIn(userId: nat)

  /** `User.query.get(id)`: the user row with that primary key, if any. */
  function FindUser(users: seq<User>, id: nat): (r: Option<User>)
    ensures r.Some? ==> r.value in users && r.value.id == id
    ensures r.None? ==> forall u | u in users :: u.id != id
  {
    if users == [] then None
    else if users[0].id == id then Some(users[0])
    else FindUser(users[1..], id)
  }

  /** The authenticated user of a request: the session's user id must still load a user
      row, otherwise the request is anonymous. */
  function CurrentUser(users: seq<User>, session: Session): (r: Option<User>)
    ensures r.Some? ==> session.SignedIn? && r.value in users && r.value.id == session.userId
    ensures r.None? <==> session.Anonymous? || forall u | u in users :: u.id != session.userId
  {
    if session.SignedIn? then FindUser(users, session.userId) else None
  }

  /** Where the incident with primary key `id` sits in the table, if it is there. */
  function IndexOf(incidents: seq<Incident>, id: nat): (r: Option<nat>)
    ensures r.Some? ==> r.value < |incidents| && incidents[r.value].id == id
    ensures r.None? ==> forall i | 0 <= i < |incidents| :: incidents[i].id != id
  {
    if incidents == [] then None
    else if incidents[|incidents| - 1].id == id then Some(|incidents| - 1)
    else IndexOf(incidents[..|incidents| - 1], id)
  }

  /** What a handler for `/incidents/<id>` finds before it looks at the request body:
      no authenticated user, no such incident (`get_or_404`), or the actor and the row. */
  datatype Access = NoSession | NoIncident | Found(actor: User, index: nat)

  function Load(users: seq<User>, incidents: seq<Incident>, session: Session, id: nat): (r: Access)
    ensures r.NoSession? <==> CurrentUser(users, session).None?
    ensures r.NoIncident? <==> CurrentUser(users, session).Some? && forall i | 0 <= i < |incidents| :: incidents[i].id != id
    ensures r.Found? ==> CurrentUser(users, session) == Some(r.actor) && r.actor in users
                         && r.index < |incidents| && incidents[r.index].id == id
  {
    match CurrentUser(users, session)
    case None => NoSession
    case Some(actor) =>
      match IndexOf(incidents, id)
      case None => NoIncident
      case Some(k) => Found(actor, k)
  }

  function UserKey(u: User): int { u.id }
  function IncidentKey(inc: Incident): int { inc.id }
  function CommentKey(c: Comment): int { c.id }

  /** An incident row every handler keeps well formed: its creator exists, its status is
      one of the four, and a resolved incident carries its resolution time. */
  ghost predicate WellFormed(users: seq<User>, inc: Incident)
  {
    && FindUser(users, inc.creatorId).Some?
    && inc.status in Statuses
    && (inc.status == "resolved" ==> inc.resolvedAt.Some?)
  }

  /** The invariant of the tables: unique primary keys below the next one to be handed
      out, well-formed incidents, and comments whose incident and author exist. */
  ghost predicate Consistent(users: seq<User>, incidents: seq<Incident>, comments: seq<Comment>,
                             nextIncidentId: nat, nextCommentId: nat)
  {
    && UniqueBy(users, UserKey)
    && UniqueBy(incidents, IncidentKey)
    && (forall i | 0 <= i < |incidents| :: incidents[i].id < nextIncidentId && WellFormed(users, incidents[i]))
    && UniqueBy(comments, CommentKey)
    && (forall i | 0 <= i < |comments| :: comments[i].id < nextCommentId)
    && (forall i | 0 <= i < |comments| :: IndexOf(incidents, comments[i].incidentId).Some?)
    && (forall i | 0 <= i < |comments| :: FindUser(users, comments[i].authorId).Some?)
  }

  /** Overwriting a row with one of the same primary key keeps every lookup by key. */
  lemma ReplaceKeepsLookups(incidents: seq<Incident>, k: nat, inc: Incident)
    requires k < |incidents| && inc.id == incidents[k].id
    ensures forall id :: IndexOf(incidents[k := inc], id).Some? == IndexOf(incidents, id).Some?
  {
    forall id ensures IndexOf(incidents[k := inc], id).Some? == IndexOf(incidents, id).Some? {
      var r, r' := IndexOf(incidents, id), IndexOf(incidents[k := inc], id);
      if r.Some? {
        assert incidents[k := inc][r.value].id == id;
      }
      if r'.Some? {
        assert incidents[r'.value].id == id;
      }
    }
  }

  /** Appending a row keeps every lookup that succeeded before. */
  lemma AppendKeepsLookups(incidents: seq<Incident>, inc: Incident)
    ensures forall id | IndexOf(incidents, id).Some? :: IndexOf(incidents + [inc], id).Some?
  {
    forall id | IndexOf(incidents, id).Some? ensures IndexOf(incidents + [inc], id).Some? {
      var k := IndexOf(incidents, id).value;
      assert (incidents + [inc])[k].id == id;
    }
  }

  /** Writing back a loaded incident that is still well formed keeps the tables consistent. */
  lemma ReplaceKeepsConsistent(users: seq<User>, incidents: seq<Incident>, comments: seq<Comment>,
                               nextIncidentId: nat, nextCommentId: nat, k: nat, inc: Incident)
    requires Consistent(users, incidents, comments, nextIncidentId, nextCommentId)
    requires k < |incidents| && inc.id == incidents[k].id && WellFormed(users, inc)
    ensures Consistent(users, incidents[k := inc], comments, nextIncidentId, nextCommentId)
  {
    ReplaceKeepsLookups(incidents, k, inc);
  }

  /** Inserting a well-formed incident under the next free key keeps the tables consistent. */
  lemma InsertKeepsConsistent(users: seq<User>, incidents: seq<Incident>, comments: seq<Comment>,
                              nextIncidentId: nat, nextCommentId: nat, inc: Incident)
    requires Consistent(users, incidents, comments, nextIncidentId, nextCommentId)
    requires inc.id == nextIncidentId && WellFormed(users, inc)
    ensures Consistent(users, incidents + [inc], comments, nextIncidentId + 1, nextCommentId)
  {
    AppendKeepsLookups(incidents, inc);
  }

  /** Inserting a comment under the next free key, on an existing incident and by an
      existing user, keeps the tables consistent. */
  lemma InsertCommentKeepsConsistent(users: seq<User>, incidents: seq<Incident>, comments: seq<Comment>,
                                     nextIncidentId: nat, nextCommentId: nat, c: Comment)
    requires Consistent(users, incidents, comments, nextIncidentId, nextCommentId)
    requires c.id == nextCommentId && IndexOf(incidents, c.incidentId).Some? && FindUser(users, c.authorId).Some?
    ensures Consistent(users, incidents, comments + [c], nextIncidentId, nextCommentId + 1)
  {
  }

  /** The incident table without the row keyed `id`. */
  function WithoutIncident(incidents: seq<Incident>, id: nat): seq<Incident>
  {
    Where(incidents, (inc: Incident) => inc.id != id)
  }

  /** The comment table without the comments on incident `id`. */
  function CommentsNotOn(comments: seq<Comment>, id: nat): seq<Comment>
  {
    Where(comments, (c: Comment) => c.incidentId != id)
  }

  /** Removing an incident together with its comments keeps the tables consistent;
      removing it alone would leave its comments dangling. */
  lemma RemovalKeepsConsistent(users: seq<User>, incidents: seq<Incident>, comments: seq<Comment>,
                               nextIncidentId: nat, nextCommentId: nat, id: nat)
    requires Consistent(users, incidents, comments, nextIncidentId, nextCommentId)
    ensures Consistent(users, WithoutIncident(incidents, id), CommentsNotOn(comments, id), nextIncidentId, nextCommentId)
  {
    var incidents', comments' := WithoutIncident(incidents, id), CommentsNotOn(comments, id);
    WhereKeepsUnique(incidents, (inc: Incident) => inc.id != id, IncidentKey);
    WhereKeepsUnique(comments, (c: Comment) => c.incidentId != id, CommentKey);
    forall i | 0 <= i < |incidents'| ensures incidents'[i].id < nextIncidentId && WellFormed(users, incidents'[i]) {
      assert incidents'[i] in incidents;
    }
    forall i | 0 <= i < |comments'|
      ensures comments'[i].id < nextCommentId && FindUser(users, comments'[i].authorId).Some?
      ensures IndexOf(incidents', comments'[i].incidentId).Some?
    {
      var c := comments'[i];
      assert c in comments && c.incidentId != id;
      var k :| 0 <= k < |comments| && comments[k] == c;
      var j := IndexOf(incidents, c.incidentId).value;
      assert incidents[j] in incidents';
    }
  }

  class Database {
    var users: seq<User>
    var incidents: seq<Incident>
    var comments: seq<Comment>
    var nextIncidentId: nat
    var nextCommentId: nat

    ghost predicate Valid()
      reads this
    {
      Consistent(users, incidents, comments, nextIncidentId, nextCommentId)
    }

    /** A database holding the given accounts and nothing else. */
    constructor (users: seq<User>)
      requires UniqueBy(users, UserKey)
      ensures Valid()
      ensures this.users == users && incidents == [] && comments == []
    {
      this.users := users;
      incidents, comments := [], [];
      nextIncidentId, nextCommentId := 1, 1;
    }

    /** Adding a new incident row under the next free key and committing it. */
    method AddIncident(inc: Incident)
      requires Valid()
      requires inc.id == nextIncidentId && WellFormed(users, inc)
      modifies this
      ensures Valid()
      ensures incidents == old(incidents) + [inc] && nextIncidentId == old(nextIncidentId) + 1
      ensures users == old(users) && comments == old(comments) && nextCommentId == old(nextCommentId)
    {
      InsertKeepsConsistent(users, incidents, comments, nextIncidentId, nextCommentId, inc);
      incidents := incidents + [inc];
      nextIncidentId := nextIncidentId + 1;
    }

    /** Committing a loaded incident row back under its own key. */
    method SaveIncident(k: nat, inc: Incident)
      requires Valid()
      requires k < |incidents| && inc.id == incidents[k].id && WellFormed(users, inc)
      modifies this
      ensures Valid()
      ensures incidents == old(incidents)[k := inc]
      ensures users == old(users) && comments == old(comments)
      ensures nextIncidentId == old(nextIncidentId) && nextCommentId == old(nextCommentId)
    {
      ReplaceKeepsConsistent(users, incidents, comments, nextIncidentId, nextCommentId, k, inc);
      incidents := incidents[k := inc];
    }

    /** Deleting an incident deletes its comments with it (the relationship's
        delete-orphan cascade), so no comment is left pointing at a missing incident. */
    method RemoveIncident(id: nat)
      requires Valid()
      modifies this
      ensures Valid()
      ensures incidents == WithoutIncident(old(incidents), id)
      ensures comments == CommentsNotOn(old(comments), id)
      ensures forall c | c in comments :: c.incidentId != id
      ensures forall c | c in old(comments) && c.incidentId != id :: c in comments
      ensures users == old(users) && nextIncidentId == old(nextIncidentId) && nextCommentId == old(nextCommentId)
    {
      RemovalKeepsConsistent(users, incidents, comments, nextIncidentId, nextCommentId, id);
      incidents := WithoutIncident(incidents, id);
      comments := CommentsNotOn(comments, id);
    }
  }
}
