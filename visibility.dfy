/** Role-scoped visibility of api/views.py: which users, subjects, schedule rows and
    notifications a principal may list, and the notification filter pipeline. */
module Visibility {
  import opened Wrappers
  import opened Seqs
  import opened Models

  datatype Role = AdminRole | TeacherRole | ParentRole | StudentRole

  function GroupOf(r: Role): Group
  {
    match r
    case AdminRole => AdminGroup
    case TeacherRole => TeacherGroup
    case ParentRole => ParentGroup
    case StudentRole => StudentGroup
  }

  /** Position of a role in the `if/elif` chains of the views. */
  function Rank(r: Role): nat
  {
    match r
    case AdminRole => 0
    case TeacherRole => 1
    case ParentRole => 2
    case StudentRole => 3
  }

  /** The group tests of the views, taken in order: Admin, Teacher, Parent, Student. */
  function RoleOf(u: User): (r: Option<Role>)
    ensures r.Some? ==> GroupOf(r.value) in u.groups
  {
    if AdminGroup in u.groups then Some(AdminRole)
    else if TeacherGroup in u.groups then Some(TeacherRole)
    else if ParentGroup in u.groups then Some(ParentRole)
    else if StudentGroup in u.groups then Some(StudentRole)
    else None
  }

  /** A principal acts in a role exactly when it holds that group and no earlier one. */
  lemma RolePrecedence(u: User, r: Role)
    ensures RoleOf(u) == Some(r) <==>
      GroupOf(r) in u.groups && forall r' :: Rank(r') < Rank(r) ==> GroupOf(r') !in u.groups
  {
    if RoleOf(u) == Some(r) {
      forall r' | Rank(r') < Rank(r) ensures GroupOf(r') !in u.groups {
        match r' { case AdminRole => case TeacherRole => case ParentRole => case StudentRole => }
      }
    } else if GroupOf(r) in u.groups {
      var r0 := RoleOf(u).value;
      assert Rank(r0) < Rank(r) && GroupOf(r0) in u.groups;
    }
  }

  /** A principal in none of the four groups resolves to no role. */
  lemma NoRole(u: User)
    ensures RoleOf(u).None? <==> forall r :: GroupOf(r) !in u.groups
  {
    if RoleOf(u).None? {
      forall r ensures GroupOf(r) !in u.groups {
        match r { case AdminRole => case TeacherRole => case ParentRole => case StudentRole => }
      }
    } else {
      assert GroupOf(RoleOf(u).value) in u.groups;
    }
  }

  /** A request value passed through `int(...)`: a number, or text `int` refuses. */
  datatype IntArg = Num(n: int) | NotInt

  /** A date request value as the `date` field's `to_python` reads it: a point in time, or
      text that is neither a datetime nor a date. */
  datatype DateArg = Date(t: int) | NotDate

  datatype Invalid = BadSubjectId | NoTarget

  /** The exceptions the views let escape or raise: `int` failures, `objects.get` misses,
      `get_object_or_404`, the REST framework's `ValidationError`, lookups on fields the
      queried model lacks, Django's `ValidationError` for an unparsable date, a negative
      slice, and the unbound `queryset` of a principal with no role. */
  datatype ApiError = ValueError | DoesNotExist | Http404 | BadRequest(reason: Invalid)
                    | FieldError | InvalidDate | NegativeSlice | UnboundQueryset

  /** Python truthiness of the raw `no_students` query value: any non-empty string. */
  predicate Truthy(raw: Option<string>)
  {
    raw.Some? && raw.value != ""
  }

  /** Classes in which the teacher has a `ClassTeacherSubject` row. */
  function TaughtClasses(d: Directory, t: UserId): set<ClassId>
  {
    set a | a in d.assignments && a.teacher == t :: a.teachesIn
  }

  /** Classes attended by the children of `p`. */
  function ChildClasses(d: Directory, p: UserId): set<ClassId>
  {
    set u | u in d.users && p in u.parents && u.attends.Some? :: u.attends.value
  }

  predicate HasChildIn(d: Directory, p: UserId, classes: set<ClassId>)
  {
    exists c :: c in d.users && p in c.parents && c.attends.Some? && c.attends.value in classes
  }

  function ParentsWithChildIn(d: Directory, classes: set<ClassId>): set<UserId>
  {
    set u | u in d.users && ParentGroup in u.groups && HasChildIn(d, u.id, classes) :: u.id
  }

  function StudentsIn(d: Directory, classes: set<ClassId>): set<UserId>
  {
    set u | u in d.users && StudentGroup in u.groups && u.attends.Some? && u.attends.value in classes :: u.id
  }

  predicate TeachesIn(d: Directory, t: UserId, classes: set<ClassId>)
  {
    exists a :: a in d.assignments && a.teacher == t && a.teachesIn in classes
  }

  function TeachersOf(d: Directory, classes: set<ClassId>): set<UserId>
  {
    set u | u in d.users && TeacherGroup in u.groups && TeachesIn(d, u.id, classes) :: u.id
  }

  /** `UsersService.get_queryset`. */
  function VisibleUsers(d: Directory, user: User, noStudents: Option<string>): (r: Result<set<UserId>, ApiError>)
    ensures r.Err? <==> RoleOf(user).None?
    ensures r.Ok? ==> forall x :: x in r.value ==> exists u :: u in d.users && u.id == x
  {
    match RoleOf(user)
    case None => Err(UnboundQueryset)
    case Some(AdminRole) =>
      Ok(set u | u in d.users && u.id != user.id && (!Truthy(noStudents) || StudentGroup !in u.groups) :: u.id)
    case Some(TeacherRole) =>
      var classes := TaughtClasses(d, user.id);
      var teachers := set u | u in d.users && u.id != user.id && TeacherGroup in u.groups :: u.id;
      var students := if Truthy(noStudents) then {} else StudentsIn(d, classes);
      Ok(ParentsWithChildIn(d, classes) + teachers + students)
    case Some(ParentRole) =>
      var classes := ChildClasses(d, user.id);
      var students := if Truthy(noStudents) then {}
                      else set u | u in d.users && StudentGroup in u.groups && user.id in u.parents :: u.id;
      Ok((ParentsWithChildIn(d, classes) - {user.id}) + TeachersOf(d, classes) + students)
    case Some(StudentRole) => Ok({})
  }

  /** `no_students` only ever removes users of the Student group from the listing. */
  lemma NoStudentsOnlyRemovesStudents(d: Directory, user: User, raw: Option<string>)
    requires RoleOf(user).Some?
    ensures VisibleUsers(d, user, raw).Ok? && VisibleUsers(d, user, None).Ok?
    ensures VisibleUsers(d, user, raw).value <= VisibleUsers(d, user, None).value
    ensures forall x :: x in VisibleUsers(d, user, None).value - VisibleUsers(d, user, raw).value ==>
              exists u :: u in d.users && u.id == x && StudentGroup in u.groups
  {
    var all := VisibleUsers(d, user, None).value;
    var some := VisibleUsers(d, user, raw).value;
    forall x | x in all - some ensures exists u :: u in d.users && u.id == x && StudentGroup in u.groups {
      match RoleOf(user).value
      case AdminRole =>
        var u :| u in d.users && u.id != user.id && u.id == x;
      case TeacherRole =>
        assert x in StudentsIn(d, TaughtClasses(d, user.id));
      case ParentRole =>
        var u :| u in d.users && StudentGroup in u.groups && user.id in u.parents && u.id == x;
      case StudentRole =>
    }
  }

  /** The flag is read as a raw string: "False" hides students, the empty string does not. */
  lemma NoStudentsIsRawString(d: Directory, user: User)
    ensures VisibleUsers(d, user, Some("False")) == VisibleUsers(d, user, Some("true"))
    ensures VisibleUsers(d, user, Some("")) == VisibleUsers(d, user, None)
  {
    assert Truthy(Some("False")) && Truthy(Some("true")) && !Truthy(Some(""));
    if RoleOf(user) == Some(AdminRole) {
      var a := set u | u in d.users && u.id != user.id && (!Truthy(Some("")) || StudentGroup !in u.groups) :: u.id;
      var b := set u | u in d.users && u.id != user.id && (!Truthy(None) || StudentGroup !in u.groups) :: u.id;
      assert a == b;
    }
  }

  /** An Admin lists every other user and never itself. */
  lemma AdminListsEveryoneElse(d: Directory, admin: User, u: User)
    requires RoleOf(admin) == Some(AdminRole) && u in d.users
    ensures admin.id !in VisibleUsers(d, admin, None).value
    ensures u.id in VisibleUsers(d, admin, None).value <==> u.id != admin.id
  {
  }

  /** A Parent lists each of its children that is in the Student group, unless `no_students`. */
  lemma ParentListsOwnChildren(d: Directory, p: User, c: User, raw: Option<string>)
    requires RoleOf(p) == Some(ParentRole) && c in d.users && p.id in c.parents && StudentGroup in c.groups
    requires !Truthy(raw)
    ensures c.id in VisibleUsers(d, p, raw).value
  {
  }

  /** With `no_students`, an Admin lists every other user outside the Student group. */
  lemma AdminNoStudentsListing(d: Directory, admin: User, u: User, raw: Option<string>)
    requires UserIdsIncreasing(d.users)
    requires RoleOf(admin) == Some(AdminRole) && u in d.users && Truthy(raw)
    ensures u.id in VisibleUsers(d, admin, raw).value <==> u.id != admin.id && StudentGroup !in u.groups
  {
    if u.id in VisibleUsers(d, admin, raw).value {
      var v :| v in d.users && v.id != admin.id && StudentGroup !in v.groups && v.id == u.id;
      SameIdSameUser(d, u, v);
    }
  }

  /** Rows of a table with increasing ids are identified by their id. */
  lemma SameIdSameUser(d: Directory, u: User, v: User)
    requires UserIdsIncreasing(d.users) && u in d.users && v in d.users && u.id == v.id
    ensures u == v
  {
    var i :| 0 <= i < |d.users| && d.users[i] == u;
    var j :| 0 <= j < |d.users| && d.users[j] == v;
    assert i == j;
  }

  /** A parent and a teacher share a class: one of the parent's children attends a class in
      which the teacher teaches. */
  predicate SharesClass(d: Directory, p: UserId, t: UserId)
  {
    exists c, a :: c in d.users && a in d.assignments && p in c.parents &&
                   a.teacher == t && c.attends == Some(a.teachesIn)
  }

  lemma TeacherListsParent(d: Directory, t: User, p: User)
    requires UserIdsIncreasing(d.users)
    requires t in d.users && p in d.users
    requires t.groups == {TeacherGroup} && p.groups == {ParentGroup}
    ensures p.id in VisibleUsers(d, t, None).value <==> SharesClass(d, p.id, t.id)
  {
    assert RoleOf(t) == Some(TeacherRole);
    var classes := TaughtClasses(d, t.id);
    if p.id in VisibleUsers(d, t, None).value {
      if p.id in ParentsWithChildIn(d, classes) {
        var u :| u in d.users && ParentGroup in u.groups && HasChildIn(d, u.id, classes) && u.id == p.id;
        var c :| c in d.users && p.id in c.parents && c.attends.Some? && c.attends.value in classes;
        var a :| a in d.assignments && a.teacher == t.id && a.teachesIn == c.attends.value;
      } else {
        var u :| u in d.users && u.id == p.id && (TeacherGroup in u.groups || StudentGroup in u.groups);
        SameIdSameUser(d, u, p);
      }
    }
    if SharesClass(d, p.id, t.id) {
      var c, a :| c in d.users && a in d.assignments && p.id in c.parents &&
                  a.teacher == t.id && c.attends == Some(a.teachesIn);
      assert a.teachesIn in classes;
      assert p.id in ParentsWithChildIn(d, classes);
    }
  }

  lemma ParentListsTeacher(d: Directory, t: User, p: User)
    requires UserIdsIncreasing(d.users)
    requires t in d.users && p in d.users
    requires t.groups == {TeacherGroup} && p.groups == {ParentGroup}
    ensures t.id in VisibleUsers(d, p, None).value <==> SharesClass(d, p.id, t.id)
  {
    assert RoleOf(p) == Some(ParentRole);
    var classes := ChildClasses(d, p.id);
    if t.id in VisibleUsers(d, p, None).value {
      if t.id in TeachersOf(d, classes) {
        var u :| u in d.users && TeacherGroup in u.groups && TeachesIn(d, u.id, classes) && u.id == t.id;
        var a :| a in d.assignments && a.teacher == t.id && a.teachesIn in classes;
        var c :| c in d.users && p.id in c.parents && c.attends.Some? && c.attends.value == a.teachesIn;
      } else {
        var u :| u in d.users && u.id == t.id && (ParentGroup in u.groups || StudentGroup in u.groups);
        SameIdSameUser(d, u, t);
      }
    }
    if SharesClass(d, p.id, t.id) {
      var c, a :| c in d.users && a in d.assignments && p.id in c.parents &&
                  a.teacher == t.id && c.attends == Some(a.teachesIn);
      assert a.teachesIn in classes;
      assert TeachesIn(d, t.id, classes);
      assert t.id in TeachersOf(d, classes);
    }
  }

  /** A Teacher lists the other teachers, the parents with a child in a class it teaches in,
      and, unless `no_students`, the students attending such a class. */
  lemma TeacherListing(d: Directory, t: User, u: User, raw: Option<string>)
    requires UserIdsIncreasing(d.users)
    requires RoleOf(t) == Some(TeacherRole) && u in d.users
    ensures u.id in VisibleUsers(d, t, raw).value <==>
      (u.id != t.id && TeacherGroup in u.groups) ||
      (ParentGroup in u.groups && SharesClass(d, u.id, t.id)) ||
      (!Truthy(raw) && StudentGroup in u.groups &&
         exists a :: a in d.assignments && a.teacher == t.id && u.attends == Some(a.teachesIn))
  {
    var classes := TaughtClasses(d, t.id);
    var r := VisibleUsers(d, t, raw).value;
    if u.id in r {
      if u.id in ParentsWithChildIn(d, classes) {
        var v :| v in d.users && ParentGroup in v.groups && HasChildIn(d, v.id, classes) && v.id == u.id;
        SameIdSameUser(d, u, v);
        var c :| c in d.users && u.id in c.parents && c.attends.Some? && c.attends.value in classes;
        var a :| a in d.assignments && a.teacher == t.id && a.teachesIn == c.attends.value;
      } else if u.id in StudentsIn(d, classes) && !Truthy(raw) {
        var v :| v in d.users && StudentGroup in v.groups && v.attends.Some? && v.attends.value in classes && v.id == u.id;
        SameIdSameUser(d, u, v);
        var a :| a in d.assignments && a.teacher == t.id && a.teachesIn == v.attends.value;
      } else {
        var v :| v in d.users && v.id != t.id && TeacherGroup in v.groups && v.id == u.id;
        SameIdSameUser(d, u, v);
      }
    }
    if ParentGroup in u.groups && SharesClass(d, u.id, t.id) {
      var c, a :| c in d.users && a in d.assignments && u.id in c.parents &&
                  a.teacher == t.id && c.attends == Some(a.teachesIn);
      assert a.teachesIn in classes;
      assert u.id in ParentsWithChildIn(d, classes);
    }
    if !Truthy(raw) && StudentGroup in u.groups &&
       exists a :: a in d.assignments && a.teacher == t.id && u.attends == Some(a.teachesIn) {
      var a :| a in d.assignments && a.teacher == t.id && u.attends == Some(a.teachesIn);
      assert a.teachesIn in classes;
      assert u.id in StudentsIn(d, classes);
    }
  }

  /** Another parent sharing a class with one of `p`'s children. */
  predicate CoParent(d: Directory, p: UserId, u: User)
  {
    u.id != p && ParentGroup in u.groups &&
    exists c, k :: c in d.users && k in d.users && p in c.parents && u.id in k.parents &&
                   c.attends.Some? && k.attends == c.attends
  }

  /** The disjunction of the Parent branch, read in terms of the directory. */
  predicate ParentMayList(d: Directory, p: User, u: User, raw: Option<string>)
  {
    CoParent(d, p.id, u) ||
    (TeacherGroup in u.groups && SharesClass(d, p.id, u.id)) ||
    (!Truthy(raw) && StudentGroup in u.groups && p.id in u.parents)
  }

  lemma ParentListedOnlyIf(d: Directory, p: User, u: User, raw: Option<string>)
    requires UserIdsIncreasing(d.users)
    requires RoleOf(p) == Some(ParentRole) && u in d.users
    requires u.id in VisibleUsers(d, p, raw).value
    ensures ParentMayList(d, p, u, raw)
  {
    var classes := ChildClasses(d, p.id);
    if u.id in ParentsWithChildIn(d, classes) - {p.id} {
      var v :| v in d.users && ParentGroup in v.groups && HasChildIn(d, v.id, classes) && v.id == u.id;
      SameIdSameUser(d, u, v);
      var k :| k in d.users && u.id in k.parents && k.attends.Some? && k.attends.value in classes;
      var c :| c in d.users && p.id in c.parents && c.attends.Some? && c.attends.value == k.attends.value;
      assert CoParent(d, p.id, u);
    } else if u.id in TeachersOf(d, classes) {
      var v :| v in d.users && TeacherGroup in v.groups && TeachesIn(d, v.id, classes) && v.id == u.id;
      SameIdSameUser(d, u, v);
      var a :| a in d.assignments && a.teacher == u.id && a.teachesIn in classes;
      var c :| c in d.users && p.id in c.parents && c.attends.Some? && c.attends.value == a.teachesIn;
    } else {
      var v :| v in d.users && StudentGroup in v.groups && p.id in v.parents && v.id == u.id;
      SameIdSameUser(d, u, v);
    }
  }

  lemma ParentListedIf(d: Directory, p: User, u: User, raw: Option<string>)
    requires RoleOf(p) == Some(ParentRole) && u in d.users
    requires ParentMayList(d, p, u, raw)
    ensures u.id in VisibleUsers(d, p, raw).value
  {
    var classes := ChildClasses(d, p.id);
    if CoParent(d, p.id, u) {
      var c, k :| c in d.users && k in d.users && p.id in c.parents && u.id in k.parents &&
                  c.attends.Some? && k.attends == c.attends;
      assert c.attends.value in classes;
      assert HasChildIn(d, u.id, classes);
      assert u.id in ParentsWithChildIn(d, classes);
    } else if TeacherGroup in u.groups && SharesClass(d, p.id, u.id) {
      var c, a :| c in d.users && a in d.assignments && p.id in c.parents &&
                  a.teacher == u.id && c.attends == Some(a.teachesIn);
      assert a.teachesIn in classes;
      assert TeachesIn(d, u.id, classes);
      assert u.id in TeachersOf(d, classes);
    }
  }

  /** A Parent lists the other parents with a child in a class one of its children attends,
      the teachers teaching in such a class, and, unless `no_students`, its own children in
      the Student group. */
  lemma ParentListing(d: Directory, p: User, u: User, raw: Option<string>)
    requires UserIdsIncreasing(d.users)
    requires RoleOf(p) == Some(ParentRole) && u in d.users
    ensures u.id in VisibleUsers(d, p, raw).value <==>
      (u.id != p.id && ParentGroup in u.groups &&
         exists c, k :: c in d.users && k in d.users && p.id in c.parents && u.id in k.parents &&
                        c.attends.Some? && k.attends == c.attends) ||
      (TeacherGroup in u.groups && SharesClass(d, p.id, u.id)) ||
      (!Truthy(raw) && StudentGroup in u.groups && p.id in u.parents)
  {
    if u.id in VisibleUsers(d, p, raw).value { ParentListedOnlyIf(d, p, u, raw); }
    if ParentMayList(d, p, u, raw) { ParentListedIf(d, p, u, raw); }
  }

  /** Between a plain teacher and a plain parent the directory is mutual: each lists the
      other exactly when one of the parent's children attends a class the teacher teaches in. */
  lemma TeacherParentMutual(d: Directory, t: User, p: User)
    requires UserIdsIncreasing(d.users)
    requires t in d.users && p in d.users
    requires t.groups == {TeacherGroup} && p.groups == {ParentGroup}
    ensures p.id in VisibleUsers(d, t, None).value <==> t.id in VisibleUsers(d, p, None).value
    ensures t.id in VisibleUsers(d, p, None).value <==> SharesClass(d, p.id, t.id)
  {
    TeacherListsParent(d, t, p);
    ParentListsTeacher(d, t, p);
  }

  /** Subjects of the principal's role: all for an Admin, those taught for a Teacher, none else. */
  function RoleSubjects(d: Directory, user: User): set<SubjectId>
  {
    match RoleOf(user)
    case Some(AdminRole) => set s | s in d.subjects :: s.id
    case Some(TeacherRole) => set a | a in d.assignments && a.teacher == user.id :: a.subject
    case _ => {}
  }

  function SubjectsTaughtIn(d: Directory, cls: int): set<SubjectId>
  {
    set a | a in d.assignments && a.teachesIn == cls :: a.subject
  }

  /** `SubjectsView.get`: the role's subjects, intersected with the subjects some teacher
      teaches in the requested class. */
  function VisibleSubjects(d: Directory, user: User, cls: Option<IntArg>): (r: Result<set<SubjectId>, ApiError>)
    ensures cls == Some(NotInt) ==> r == Err(ValueError)
    ensures cls.None? ==> r == Ok(RoleSubjects(d, user))
    ensures r.Ok? ==> r.value <= RoleSubjects(d, user)
    ensures cls.Some? && cls.value.Num? ==>
      r.Ok? && forall s :: s in r.value <==>
        (s in RoleSubjects(d, user) && exists a :: a in d.assignments && a.teachesIn == cls.value.n && a.subject == s)
  {
    match cls
    case None => Ok(RoleSubjects(d, user))
    case Some(NotInt) => Err(ValueError)
    case Some(Num(k)) => Ok(RoleSubjects(d, user) * SubjectsTaughtIn(d, k))
  }

  /** The class filter asks whether anyone teaches the subject in that class, not whether the
      requesting teacher does: a subject taught by the teacher elsewhere is listed. */
  lemma TeacherSubjectTaughtElsewhere(d: Directory, t: User, a: Assignment, b: Assignment)
    requires RoleOf(t) == Some(TeacherRole)
    requires a in d.assignments && b in d.assignments
    requires a.teacher == t.id && b.subject == a.subject
    ensures a.subject in VisibleSubjects(d, t, Some(Num(b.teachesIn))).value
  {
    assert a.subject in RoleSubjects(d, t);
  }

  /** Parents, Students and principals without a role list no subject, class or not. */
  lemma NonStaffListNoSubjects(d: Directory, user: User, cls: Option<IntArg>)
    requires RoleOf(user) !in {Some(AdminRole), Some(TeacherRole)}
    ensures VisibleSubjects(d, user, cls) == Ok({}) || VisibleSubjects(d, user, cls) == Err(ValueError)
  {
    assert RoleSubjects(d, user) == {};
    if cls.Some? && cls.value.Num? {
      assert RoleSubjects(d, user) * SubjectsTaughtIn(d, cls.value.n) == {};
    }
  }

  predicate TeachesEntry(d: Directory, t: UserId, e: ScheduleEntry)
  {
    exists a :: a in d.assignments && a.id == e.assignment && a.teacher == t
  }

  /** `ScheduleService.get_queryset`: the rows of the principal's own assignments, whatever
      its role, in table order. */
  function ScheduleOf(d: Directory, user: User): (r: seq<ScheduleEntry>)
    ensures forall e :: e in r <==> e in d.schedule && TeachesEntry(d, user.id, e)
  {
    var r := Filter(d.schedule, e => TeachesEntry(d, user.id, e));
    forall e ensures e in r <==> e in d.schedule && TeachesEntry(d, user.id, e) {
      FilterMember(d.schedule, e => TeachesEntry(d, user.id, e), e);
    }
    r
  }

  // ---------------------------------------------------------------------------------------
  // Notifications: base set per role and the filter pipeline of NotificationsService.

  datatype NotificationQuery = NotificationQuery(
    student: Option<IntArg>,
    subject: Option<IntArg>,
    fromDate: Option<DateArg>,
    toDate: Option<DateArg>,
    size: Option<IntArg>)

  /** `target_student__parents=user`: the targeted student lists `p` among its parents. */
  predicate TargetsChildOf(d: Directory, p: UserId, n: Notification)
  {
    n.targetStudent.Some? && exists c :: c in d.users && c.id == n.targetStudent.value && p in c.parents
  }

  /** The Parent branch: a notification to one of the children or to a class one attends. */
  predicate ParentReaches(d: Directory, p: UserId, n: Notification)
  {
    TargetsChildOf(d, p, n) || (n.targetClass.Some? && n.targetClass.value in ChildClasses(d, p))
  }

  /** The base queryset of each role, in table order. */
  function NotificationBase(d: Directory, table: seq<Notification>, user: UserId, role: Role): seq<Notification>
  {
    match role
    case AdminRole => table
    case TeacherRole => Filter(table, (n: Notification) => n.owner == user)
    case ParentRole => Filter(table, (n: Notification) => ParentReaches(d, user, n))
    case StudentRole => []
  }

  /** The `student` filter: aimed at that student, or at its class and at no student. */
  predicate StudentMatch(s: User, n: Notification)
  {
    n.targetStudent == Some(s.id) || (n.targetStudent.None? && n.targetClass == s.attends)
  }

  function ByStudent(qs: seq<Notification>, s: User): seq<Notification>
  {
    Filter(qs, (n: Notification) => StudentMatch(s, n))
  }

  function BySubject(qs: seq<Notification>, sid: SubjectId): seq<Notification>
  {
    Filter(qs, (n: Notification) => n.subject == Some(sid))
  }

  function FromDate(qs: seq<Notification>, from: int): seq<Notification>
  {
    Filter(qs, (n: Notification) => n.date >= from)
  }

  function ToDate(qs: seq<Notification>, to: int): seq<Notification>
  {
    Filter(qs, (n: Notification) => n.date < to)
  }

  function NotificationDate(n: Notification): int
  {
    n.date
  }

  function OrderByDateDesc(qs: seq<Notification>): seq<Notification>
  {
    SortDesc(qs, NotificationDate)
  }

  // Each step below takes the queryset so far; `onUsers` says it is the Student branch's
  // `User.objects.none()`, on which a notification field lookup cannot be resolved.

  function StudentStep(d: Directory, qs: seq<Notification>, arg: Option<IntArg>, onUsers: bool): Result<seq<Notification>, ApiError>
  {
    match arg
    case None => Ok(qs)
    case Some(NotInt) => Err(ValueError)
    case Some(Num(k)) =>
      match UserById(d, k)
      case None => Err(DoesNotExist)
      case Some(s) => if onUsers then Err(FieldError) else Ok(ByStudent(qs, s))
  }

  function SubjectStep(d: Directory, qs: seq<Notification>, arg: Option<IntArg>, onUsers: bool): Result<seq<Notification>, ApiError>
  {
    match arg
    case None => Ok(qs)
    case Some(NotInt) => Err(ValueError)
    case Some(Num(k)) =>
      if SubjectById(d, k).None? then Err(DoesNotExist)
      else if onUsers then Err(FieldError)
      else Ok(BySubject(qs, k))
  }

  // A date filter first resolves the field, then prepares the value: on the Student
  // branch the missing field wins over the unparsable text.

  function FromStep(qs: seq<Notification>, from: Option<DateArg>, onUsers: bool): Result<seq<Notification>, ApiError>
  {
    match from
    case None => Ok(qs)
    case Some(x) =>
      if onUsers then Err(FieldError)
      else if x.NotDate? then Err(InvalidDate)
      else Ok(FromDate(qs, x.t))
  }

  function ToStep(qs: seq<Notification>, to: Option<DateArg>, onUsers: bool): Result<seq<Notification>, ApiError>
  {
    match to
    case None => Ok(qs)
    case Some(x) =>
      if onUsers then Err(FieldError)
      else if x.NotDate? then Err(InvalidDate)
      else Ok(ToDate(qs, x.t))
  }

  /** `queryset[:int(size)]`. */
  function SizeStep(qs: seq<Notification>, size: Option<IntArg>): Result<seq<Notification>, ApiError>
  {
    match size
    case None => Ok(qs)
    case Some(NotInt) => Err(ValueError)
    case Some(Num(k)) => if k < 0 then Err(NegativeSlice) else Ok(Take(qs, k))
  }

  /** The filtered set before ordering; every step in the source's order. */
  function FilteredNotifications(d: Directory, table: seq<Notification>, user: User, q: NotificationQuery): (r: Result<seq<Notification>, ApiError>)
    ensures r.Ok? ==> RoleOf(user).Some? && |r.value| <= |table|
  {
    match RoleOf(user)
    case None =>
      // `queryset` is never bound; the first lookup still runs before its first read.
      var lookup := if q.student.Some? then StudentStep(d, [], q.student, false)
                    else SubjectStep(d, [], q.subject, false);
      if lookup.Err? then lookup else Err(UnboundQueryset)
    case Some(role) =>
      var onUsers := role == StudentRole;
      match StudentStep(d, NotificationBase(d, table, user.id, role), q.student, onUsers)
      case Err(e) => Err(e)
      case Ok(s1) =>
        match SubjectStep(d, s1, q.subject, onUsers)
        case Err(e) => Err(e)
        case Ok(s2) =>
          match FromStep(s2, q.fromDate, onUsers)
          case Err(e) => Err(e)
          case Ok(s3) => ToStep(s3, q.toDate, onUsers)
  }

  /** `NotificationsService.get_queryset`: filter, order by date descending, then cut to `size`. */
  function ListNotifications(d: Directory, table: seq<Notification>, user: User, q: NotificationQuery): (r: Result<seq<Notification>, ApiError>)
    ensures r.Ok? ==> RoleOf(user).Some? && |r.value| <= |table|
    ensures r.Ok? && q.size.Some? ==> q.size.value.Num? && |r.value| <= q.size.value.n
  {
    match FilteredNotifications(d, table, user, q)
    case Err(e) => Err(e)
    case Ok(s) =>
      SortDescMembers(s, NotificationDate);
      SizeStep(OrderByDateDesc(s), q.size)
  }

  /** Whether the role's base set admits the notification. */
  predicate RoleAdmits(d: Directory, user: UserId, role: Role, n: Notification)
  {
    match role
    case AdminRole => true
    case TeacherRole => n.owner == user
    case ParentRole => ParentReaches(d, user, n)
    case StudentRole => false
  }

  /** Whether the query's filters admit the notification (given that the references resolve). */
  predicate FiltersAdmit(d: Directory, q: NotificationQuery, n: Notification)
  {
    && (q.student.Some? && q.student.value.Num? && UserById(d, q.student.value.n).Some? ==>
          StudentMatch(UserById(d, q.student.value.n).value, n))
    && (q.subject.Some? && q.subject.value.Num? ==> n.subject == Some(q.subject.value.n))
    && (q.fromDate.Some? && q.fromDate.value.Date? ==> n.date >= q.fromDate.value.t)
    && (q.toDate.Some? && q.toDate.value.Date? ==> n.date < q.toDate.value.t)
  }

  lemma BaseMember(d: Directory, table: seq<Notification>, user: UserId, role: Role, n: Notification)
    ensures n in NotificationBase(d, table, user, role) <==> n in table && RoleAdmits(d, user, role, n)
  {
    match role
    case AdminRole =>
    case TeacherRole => FilterMember(table, (n: Notification) => n.owner == user, n);
    case ParentRole => FilterMember(table, (n: Notification) => ParentReaches(d, user, n), n);
    case StudentRole =>
  }

  lemma FilteredMember(d: Directory, table: seq<Notification>, user: User, q: NotificationQuery, s: seq<Notification>)
    requires FilteredNotifications(d, table, user, q) == Ok(s)
    ensures forall n :: n in s <==> n in table && RoleAdmits(d, user.id, RoleOf(user).value, n) && FiltersAdmit(d, q, n)
  {
    var role := RoleOf(user).value;
    var onUsers := role == StudentRole;
    var b := NotificationBase(d, table, user.id, role);
    var s1 := StudentStep(d, b, q.student, onUsers).value;
    var s2 := SubjectStep(d, s1, q.subject, onUsers).value;
    var s3 := FromStep(s2, q.fromDate, onUsers).value;
    forall n ensures n in s <==> n in table && RoleAdmits(d, user.id, role, n) && FiltersAdmit(d, q, n) {
      BaseMember(d, table, user.id, role, n);
      if q.student.Some? && q.student.value.Num? {
        FilterMember(b, (m: Notification) => StudentMatch(UserById(d, q.student.value.n).value, m), n);
      }
      if q.subject.Some? && q.subject.value.Num? {
        FilterMember(s1, (m: Notification) => m.subject == Some(q.subject.value.n), n);
      }
      if q.fromDate.Some? && q.fromDate.value.Date? {
        FilterMember(s2, (m: Notification) => m.date >= q.fromDate.value.t, n);
      }
      if q.toDate.Some? && q.toDate.value.Date? {
        FilterMember(s3, (m: Notification) => m.date < q.toDate.value.t, n);
      }
    }
  }

  /** Without `size`, the listing holds exactly the notifications the role admits and the
      filters admit. */
  lemma ListMembership(d: Directory, table: seq<Notification>, user: User, q: NotificationQuery, r: seq<Notification>)
    requires q.size.None? && ListNotifications(d, table, user, q) == Ok(r)
    ensures forall n :: n in r <==> n in table && RoleAdmits(d, user.id, RoleOf(user).value, n) && FiltersAdmit(d, q, n)
  {
    var s := FilteredNotifications(d, table, user, q).value;
    FilteredMember(d, table, user, q, s);
    SortDescMembers(s, NotificationDate);
  }

  /** The listing is ordered by date, newest first. */
  lemma ListSorted(d: Directory, table: seq<Notification>, user: User, q: NotificationQuery, r: seq<Notification>)
    requires ListNotifications(d, table, user, q) == Ok(r)
    ensures forall i, j :: 0 <= i < j < |r| ==> r[i].date >= r[j].date
  {
    var s := FilteredNotifications(d, table, user, q).value;
    SortDescMembers(s, NotificationDate);
    var o := OrderByDateDesc(s);
    forall i, j | 0 <= i < j < |r| ensures r[i].date >= r[j].date {
      assert r[i] == o[i] && r[j] == o[j];
      assert NotificationDate(o[i]) >= NotificationDate(o[j]);
    }
  }

  /** `size = k` keeps the first `min(k, count)` of the ordered listing; `size = 0` keeps none;
      a negative or non-numeric size is an error. */
  lemma ListSizeCap(d: Directory, table: seq<Notification>, user: User, q: NotificationQuery, k: int)
    requires q.size == Some(Num(k))
    requires ListNotifications(d, table, user, q.(size := None)).Ok?
    ensures var all := ListNotifications(d, table, user, q.(size := None)).value;
            var r := ListNotifications(d, table, user, q);
            if k < 0 then r == Err(NegativeSlice)
            else r.Ok? && |r.value| == (if k < |all| then k else |all|) && r.value == all[..|r.value|]
  {
  }

  /** A table without repeated rows gives a listing without repeated rows (the Parent branch's
      `distinct()`). */
  lemma ListDistinct(d: Directory, table: seq<Notification>, user: User, q: NotificationQuery, r: seq<Notification>)
    requires Distinct(table) && ListNotifications(d, table, user, q) == Ok(r)
    ensures Distinct(r)
  {
    var role := RoleOf(user).value;
    var onUsers := role == StudentRole;
    var b := NotificationBase(d, table, user.id, role);
    match role {
      case AdminRole =>
      case TeacherRole => FilterDistinct(table, (n: Notification) => n.owner == user.id);
      case ParentRole => FilterDistinct(table, (n: Notification) => ParentReaches(d, user.id, n));
      case StudentRole =>
    }
    var s1 := StudentStep(d, b, q.student, onUsers).value;
    if q.student.Some? && q.student.value.Num? {
      FilterDistinct(b, (m: Notification) => StudentMatch(UserById(d, q.student.value.n).value, m));
    }
    var s2 := SubjectStep(d, s1, q.subject, onUsers).value;
    if q.subject.Some? && q.subject.value.Num? {
      FilterDistinct(s1, (m: Notification) => m.subject == Some(q.subject.value.n));
    }
    var s3 := FromStep(s2, q.fromDate, onUsers).value;
    if q.fromDate.Some? && q.fromDate.value.Date? { FilterDistinct(s2, (m: Notification) => m.date >= q.fromDate.value.t); }
    var s4 := ToStep(s3, q.toDate, onUsers).value;
    if q.toDate.Some? && q.toDate.value.Date? { FilterDistinct(s3, (m: Notification) => m.date < q.toDate.value.t); }
    SortDescDistinct(s4, NotificationDate);
    TakeDistinct(OrderByDateDesc(s4), if q.size.Some? && q.size.value.Num? && q.size.value.n >= 0 then q.size.value.n else 0);
  }

  function NoFilters(): NotificationQuery
  {
    NotificationQuery(None, None, None, None, None)
  }

  /** An Admin lists every notification. */
  lemma AdminListsAll(d: Directory, table: seq<Notification>, admin: User, n: Notification)
    requires RoleOf(admin) == Some(AdminRole)
    ensures ListNotifications(d, table, admin, NoFilters()).Ok?
    ensures n in ListNotifications(d, table, admin, NoFilters()).value <==> n in table
  {
    ListMembership(d, table, admin, NoFilters(), ListNotifications(d, table, admin, NoFilters()).value);
  }

  /** A Teacher lists exactly what it owns, even notifications to classes it teaches in. */
  lemma TeacherListsOwned(d: Directory, table: seq<Notification>, t: User, n: Notification)
    requires RoleOf(t) == Some(TeacherRole)
    ensures ListNotifications(d, table, t, NoFilters()).Ok?
    ensures n in ListNotifications(d, table, t, NoFilters()).value <==> n in table && n.owner == t.id
  {
    ListMembership(d, table, t, NoFilters(), ListNotifications(d, table, t, NoFilters()).value);
  }

  /** A Parent lists a notification iff it targets one of its children, or a class one of its
      children attends. */
  lemma ParentListsChildrens(d: Directory, table: seq<Notification>, p: User, n: Notification)
    requires RoleOf(p) == Some(ParentRole)
    ensures ListNotifications(d, table, p, NoFilters()).Ok?
    ensures n in ListNotifications(d, table, p, NoFilters()).value <==>
      n in table && (exists c :: c in d.users && p.id in c.parents &&
                       (n.targetStudent == Some(c.id) || (n.targetClass.Some? && n.targetClass == c.attends)))
  {
    ListMembership(d, table, p, NoFilters(), ListNotifications(d, table, p, NoFilters()).value);
    if n.targetClass.Some? && n.targetClass.value in ChildClasses(d, p.id) {
      var c :| c in d.users && p.id in c.parents && c.attends.Some? && c.attends.value == n.targetClass.value;
    }
    if exists c :: c in d.users && p.id in c.parents && n.targetClass.Some? && n.targetClass == c.attends {
      var c :| c in d.users && p.id in c.parents && n.targetClass.Some? && n.targetClass == c.attends;
      assert c.attends.value in ChildClasses(d, p.id);
    }
  }

  /** A Student lists nothing; asking it to filter on a notification field fails. */
  lemma StudentListsNothing(d: Directory, table: seq<Notification>, s: User, q: NotificationQuery)
    requires RoleOf(s) == Some(StudentRole)
    ensures ListNotifications(d, table, s, q).Ok? ==> ListNotifications(d, table, s, q).value == []
    ensures q.fromDate.Some? || q.toDate.Some? ==> ListNotifications(d, table, s, q).Err?
  {
  }

  /** A principal in none of the groups gets an error, never a listing: the `student` lookup,
      or without one the `subject` lookup, fails first when it can; otherwise the read of the
      unbound `queryset` fails. */
  lemma NoRoleNoListing(d: Directory, table: seq<Notification>, user: User, q: NotificationQuery)
    requires RoleOf(user).None?
    ensures ListNotifications(d, table, user, q).Err?
    ensures var r := ListNotifications(d, table, user, q);
            match q.student
            case Some(NotInt) => r == Err(ValueError)
            case Some(Num(k)) => r == Err(if UserById(d, k).None? then DoesNotExist else UnboundQueryset)
            case None =>
              match q.subject
              case Some(NotInt) => r == Err(ValueError)
              case Some(Num(k)) => r == Err(if SubjectById(d, k).None? then DoesNotExist else UnboundQueryset)
              case None => r == Err(UnboundQueryset)
    ensures VisibleUsers(d, user, None) == Err(UnboundQueryset)
  {
  }

  /** The date range includes `from_date` and excludes `to_date`. */
  lemma DateRangeBounds(d: Directory, table: seq<Notification>, admin: User, n: Notification, from: int, to: int)
    requires RoleOf(admin) == Some(AdminRole) && n in table
    ensures var q := NoFilters().(fromDate := Some(Date(from)), toDate := Some(Date(to)));
            ListNotifications(d, table, admin, q).Ok? &&
            (n.date == from && from < to ==> n in ListNotifications(d, table, admin, q).value) &&
            (n.date == to ==> n !in ListNotifications(d, table, admin, q).value)
  {
    var q := NoFilters().(fromDate := Some(Date(from)), toDate := Some(Date(to)));
    ListMembership(d, table, admin, q, ListNotifications(d, table, admin, q).value);
  }

  /** Date text that is neither a datetime nor a date fails the listing of every staff role
      whose student and subject lookups succeed; a Student fails on the field first. */
  lemma UnparsableDateFails(d: Directory, table: seq<Notification>, user: User, q: NotificationQuery)
    requires RoleOf(user).Some?
    requires q.fromDate == Some(NotDate) || (q.fromDate.None? && q.toDate == Some(NotDate))
    requires FilteredNotifications(d, table, user, q.(fromDate := None, toDate := None)).Ok?
    ensures ListNotifications(d, table, user, q) ==
              Err(if RoleOf(user) == Some(StudentRole) then FieldError else InvalidDate)
  {
  }

  /** The `student` filter keeps notifications to that student, and notifications to its
      class that name no student. */
  lemma StudentFilterKeeps(d: Directory, table: seq<Notification>, user: User, s: User, n: Notification)
    requires RoleOf(user) in {Some(AdminRole), Some(TeacherRole), Some(ParentRole)}
    requires UserById(d, s.id) == Some(s)
    ensures var q := NoFilters().(student := Some(Num(s.id)));
            ListNotifications(d, table, user, q).Ok? &&
            (n in ListNotifications(d, table, user, q).value <==>
               n in NotificationBase(d, table, user.id, RoleOf(user).value) &&
               (n.targetStudent == Some(s.id) || (n.targetStudent.None? && n.targetClass == s.attends)))
  {
    var q := NoFilters().(student := Some(Num(s.id)));
    ListMembership(d, table, user, q, ListNotifications(d, table, user, q).value);
    BaseMember(d, table, user.id, RoleOf(user).value, n);
  }
}
