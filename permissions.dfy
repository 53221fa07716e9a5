/** The three permission checks both request-handler files perform against the signed-in
    user. Each is a pure function of the actor and the incident. */
module Permissions {
  import opened Rows
  import opened IncidentModel

  /** `role in ['admin', 'manager']`. */
  predicate IsStaff(actor: User)
  {
    actor.role == "admin" || actor.role == "manager"
  }

  /** Editing: the creator, or any admin or manager. */
  function CanEdit(actor: User, inc: Incident): (allowed: bool)
    ensures IsStaff(actor) ==> allowed
    ensures !IsStaff(actor) ==> (allowed <==> actor.id == inc.creatorId)
    ensures inc.creatorId == actor.id ==> allowed
  {
    actor.id == inc.creatorId || IsStaff(actor)
  }

  /** Assigning: admins and managers only, whatever the incident; whoever may assign may
      also edit and change the status of any incident. */
  function CanAssign(actor: User): (allowed: bool)
    ensures allowed <==> actor.role == "admin" || actor.role == "manager"
    ensures allowed ==> forall inc :: CanEdit(actor, inc) && CanUpdateStatus(actor, inc)
  {
    IsStaff(actor)
  }

  /** Changing the status: the assignee, or any admin or manager. An unassigned incident
      (null assignee) never equals the actor's id. */
  function CanUpdateStatus(actor: User, inc: Incident): (allowed: bool)
    ensures IsStaff(actor) ==> allowed
    ensures !IsStaff(actor) ==> (allowed <==> inc.assigneeId == Some(actor.id))
    ensures inc.assigneeId.None? ==> (allowed <==> IsStaff(actor))
  {
    inc.assigneeId == Some(actor.id) || IsStaff(actor)
  }

  /** Admins and managers pass every check, on every incident. */
  lemma StaffMayDoEverything(actor: User, inc: Incident)
    requires actor.role == "admin" || actor.role == "manager"
    ensures CanEdit(actor, inc) && CanAssign(actor) && CanUpdateStatus(actor, inc)
  {
  }

  /** Any other role: no assigning, editing only one's own incidents, changing the status
      only of incidents assigned to oneself. Being the creator gives no right to change
      the status, and being the assignee gives no right to edit. */
  lemma MemberRights(actor: User, inc: Incident)
    requires actor.role != "admin" && actor.role != "manager"
    ensures !CanAssign(actor)
    ensures CanEdit(actor, inc) <==> actor.id == inc.creatorId
    ensures CanUpdateStatus(actor, inc) <==> inc.assigneeId == Some(actor.id)
  {
  }
}
