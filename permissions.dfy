/** `IsOwnerOrTargetReadOnly` of api/permissions.py: the object-level permission on a
    notification. */
module Permissions {
  import opened Wrappers
  import opened Models
  import opened Visibility

  datatype HttpMethod = Get | Head | Options | Post | Put | Patch | Delete

  /** `permissions.SAFE_METHODS`. */
  predicate IsSafe(m: HttpMethod)
  {
    m == Get || m == Head || m == Options
  }

  /** Whether the principal is among the class's students (`students.filter(id=...)`). */
  predicate AttendsClass(d: Directory, user: UserId, c: ClassId)
  {
    exists s :: s in d.users && s.id == user && s.attends == Some(c)
  }

  /** `has_object_permission`: the owner may do anything; on a read, a targeted student may,
      and when no student is targeted, a student of the targeted class may. */
  function HasObjectPermission(d: Directory, n: Notification, user: User, m: HttpMethod): (r: bool)
    ensures n.owner == user.id ==> r
    ensures r && n.owner != user.id ==>
              IsSafe(m) && (n.targetStudent == Some(user.id) || (n.targetStudent.None? && n.targetClass.Some?))
  {
    if n.owner == user.id then true
    else if IsSafe(m) then
      if n.targetStudent.Some? then n.targetStudent.value == user.id
      else if n.targetClass.Some? then AttendsClass(d, user.id, n.targetClass.value)
      else false
    else false
  }

  /** The owner is permitted every method. */
  lemma OwnerAlwaysPermitted(d: Directory, n: Notification, user: User, m: HttpMethod)
    requires n.owner == user.id
    ensures HasObjectPermission(d, n, user, m)
  {
  }

  /** Only the owner may write. */
  lemma WritesOwnerOnly(d: Directory, n: Notification, user: User, m: HttpMethod)
    requires !IsSafe(m)
    ensures HasObjectPermission(d, n, user, m) <==> n.owner == user.id
  {
  }

  /** A read is permitted exactly to the owner, the targeted student, or, when no student is
      targeted, a student of the targeted class. */
  lemma ReadPermittedIff(d: Directory, n: Notification, user: User, m: HttpMethod)
    requires IsSafe(m)
    ensures HasObjectPermission(d, n, user, m) <==>
      n.owner == user.id || n.targetStudent == Some(user.id) ||
      (n.targetStudent.None? && n.targetClass.Some? && AttendsClass(d, user.id, n.targetClass.value))
  {
  }

  /** A targeted student takes precedence over the class: a classmate who is not the owner is
      refused even though it attends the targeted class. */
  lemma StudentTargetExcludesClassmates(d: Directory, n: Notification, user: User, m: HttpMethod)
    requires n.owner != user.id && n.targetStudent.Some? && n.targetStudent.value != user.id
    ensures !HasObjectPermission(d, n, user, m)
  {
  }

  /** Everything a Teacher lists, it is permitted to act on. */
  lemma TeacherListingPermitted(d: Directory, table: seq<Notification>, t: User, n: Notification, m: HttpMethod)
    requires RoleOf(t) == Some(TeacherRole)
    requires n in ListNotifications(d, table, t, NoFilters()).value
    ensures HasObjectPermission(d, n, t, m)
  {
    TeacherListsOwned(d, table, t, n);
  }

  /** The permission and the Parent listing disagree: a parent lists a notification aimed at
      its child but, not being the owner or the target, would be refused the object. */
  lemma ParentListedButRefused(d: Directory, table: seq<Notification>, p: User, c: User, n: Notification)
    requires RoleOf(p) == Some(ParentRole) && c in d.users && p.id in c.parents && c.id != p.id
    requires n in table && n.targetStudent == Some(c.id) && n.owner != p.id
    ensures n in ListNotifications(d, table, p, NoFilters()).value
    ensures !HasObjectPermission(d, n, p, Get)
  {
    ParentListsChildrens(d, table, p, n);
  }
}
