/** The directory graph of core/models.py: users with their groups, parent links and class,
    classes, subjects, teaching assignments, notifications and schedule rows. */
module Models {
  import opened Wrappers

  type UserId = nat
  type ClassId = nat
  type SubjectId = nat
  type AssignmentId = nat
  type NotificationId = nat

  /** The names `GROUP_ADMIN_ID`, `GROUP_TEACHER_ID`, `GROUP_STUDENT_ID`, `GROUP_PARENT_ID`. */
  const RoleGroupNames: set<string> := {"Admin", "Teacher", "Student", "Parent"}

  /** The name of a group the application does not name. */
  type OtherGroupName = s: string | s !in RoleGroupNames witness ""

  /** Django auth groups, identified by name: the four the application names, and any other. */
  datatype Group = AdminGroup | TeacherGroup | StudentGroup | ParentGroup | OtherGroup(name: OtherGroupName)

  /** The `name` column of the group. */
  function GroupName(g: Group): (n: string)
    ensures n in RoleGroupNames <==> !g.OtherGroup?
  {
    match g
    case AdminGroup => "Admin"
    case TeacherGroup => "Teacher"
    case StudentGroup => "Student"
    case ParentGroup => "Parent"
    case OtherGroup(name) => name
  }

  /** A group is determined by its name: no other group is called "Parent". */
  lemma GroupNameInjective(g: Group, h: Group)
    ensures GroupName(g) == GroupName(h) <==> g == h
  {
  }

  datatype User = User(
    id: UserId,
    email: string,
    firstName: string,
    lastName: string,
    groups: set<Group>,
    parents: set<UserId>,         // many-to-many to users, not symmetrical
    attends: Option<ClassId>,     // a nullable foreign key: at most one class
    subjects: set<SubjectId>)

  datatype SchoolClass = SchoolClass(id: ClassId, name: string)

  datatype Subject = Subject(id: SubjectId, name: string)

  /** A `ClassTeacherSubject` row: this teacher teaches this subject in this class. */
  datatype Assignment = Assignment(id: AssignmentId, teacher: UserId, subject: SubjectId, teachesIn: ClassId)

  datatype NotificationType = Generic | Exam | Task | Attendance

  datatype Notification = Notification(
    id: NotificationId,
    owner: UserId,
    title: string,
    description: string,
    timestamp: int,
    date: int,
    targetStudent: Option<UserId>,
    targetClass: Option<ClassId>,
    subject: Option<SubjectId>,
    icon: Option<string>,
    kind: NotificationType)

  datatype Day = Monday | Tuesday | Wednesday | Thursday | Friday

  datatype ScheduleEntry = ScheduleEntry(id: nat, day: Day, order: int, time: int, assignment: AssignmentId)

  /** The relational store; every table is kept in primary-key order. */
  datatype Directory = Directory(
    users: seq<User>,
    classes: seq<SchoolClass>,
    subjects: seq<Subject>,
    assignments: seq<Assignment>,
    schedule: seq<ScheduleEntry>)

  datatype ModelError = EmptyEmail | IntegrityError | InvalidChoice | MissingTarget

  /** The stored code of each notification type. */
  function TypeCode(t: NotificationType): string
  {
    match t
    case Generic => "GENERIC"
    case Exam => "EXAM"
    case Task => "TASK"
    case Attendance => "ATTENDANCE"
  }

  /** Choice validation of the `type` field; a missing value takes the default. */
  function ParseType(code: Option<string>): (r: Result<NotificationType, ModelError>)
    ensures code.None? ==> r == Ok(Generic)
    ensures code.Some? ==> (r.Ok? <==> code.value in {"GENERIC", "EXAM", "TASK", "ATTENDANCE"})
    ensures r.Ok? && code.Some? ==> TypeCode(r.value) == code.value
  {
    match code
    case None => Ok(Generic)
    case Some(s) =>
      if s == "GENERIC" then Ok(Generic)
      else if s == "EXAM" then Ok(Exam)
      else if s == "TASK" then Ok(Task)
      else if s == "ATTENDANCE" then Ok(Attendance)
      else Err(InvalidChoice)
  }

  /** Every type's code is accepted and read back as that type. */
  lemma TypeCodeRoundTrip(t: NotificationType)
    ensures ParseType(Some(TypeCode(t))) == Ok(t)
  {
  }

  /** `Notification.clean`: a notification must target a student, a class, or both. */
  function Clean(n: Notification): (r: Result<Notification, ModelError>)
    ensures r.Err? <==> n.targetStudent.None? && n.targetClass.None?
    ensures r.Ok? ==> r.value == n
  {
    if n.targetStudent.None? && n.targetClass.None? then Err(MissingTarget) else Ok(n)
  }

  /** The user row with the given primary key. */
  function UserById(d: Directory, id: int): (r: Option<User>)
    ensures r.Some? ==> r.value in d.users && r.value.id == id
    ensures r.None? ==> forall u :: u in d.users ==> u.id != id
  {
    UserIn(d.users, id)
  }

  function UserIn(users: seq<User>, id: int): (r: Option<User>)
    ensures r.Some? ==> r.value in users && r.value.id == id
    ensures r.None? ==> forall u :: u in users ==> u.id != id
    decreases |users|
  {
    if users == [] then None
    else if users[0].id == id then Some(users[0])
    else UserIn(users[1..], id)
  }

  function SubjectById(d: Directory, id: int): (r: Option<Subject>)
    ensures r.Some? ==> r.value in d.subjects && r.value.id == id
    ensures r.None? ==> forall s :: s in d.subjects ==> s.id != id
  {
    if exists s :: s in d.subjects && s.id == id
    then Some(RowIn(d.subjects, (s: Subject) => s.id, id))
    else None
  }

  /** The first row of a table whose primary key is `id`. */
  function RowIn<T>(rows: seq<T>, key: T -> int, id: int): (r: T)
    requires exists x :: x in rows && key(x) == id
    ensures r in rows && key(r) == id
    decreases |rows|
  {
    if key(rows[0]) == id then rows[0]
    else
      assert exists x :: x in rows[1..] && key(x) == id by {
        var x :| x in rows && key(x) == id;
        assert x == rows[0] || x in rows[1..];
      }
      RowIn(rows[1..], key, id)
  }

  function ClassById(d: Directory, id: int): (r: Option<SchoolClass>)
    ensures r.Some? ==> r.value in d.classes && r.value.id == id
    ensures r.None? ==> forall c :: c in d.classes ==> c.id != id
  {
    if exists c :: c in d.classes && c.id == id
    then Some(RowIn(d.classes, (c: SchoolClass) => c.id, id))
    else None
  }

  /** The reverse accessor `children` of the `parents` relation. */
  function Children(d: Directory, p: UserId): set<UserId>
  {
    set u | u in d.users && p in u.parents :: u.id
  }

  predicate UserIdsIncreasing(users: seq<User>)
  {
    forall i, j :: 0 <= i < j < |users| ==> users[i].id < users[j].id
  }

  predicate EmailsUnique(users: seq<User>)
  {
    forall i, j :: 0 <= i < j < |users| ==> users[i].email != users[j].email
  }

  function AssignmentKey(a: Assignment): (UserId, SubjectId, ClassId)
  {
    (a.teacher, a.subject, a.teachesIn)
  }

  /** `unique_together = ('teacher', 'subject', 'teaches_in')`. */
  predicate AssignmentsUnique(rows: seq<Assignment>)
  {
    forall i, j :: 0 <= i < j < |rows| ==> AssignmentKey(rows[i]) != AssignmentKey(rows[j])
  }

  function ScheduleKey(e: ScheduleEntry): (Day, int, int, AssignmentId)
  {
    (e.day, e.time, e.order, e.assignment)
  }

  /** `unique_together = ('day', 'time', 'order', 'class_teacher_subject')`. */
  predicate ScheduleUnique(rows: seq<ScheduleEntry>)
  {
    forall i, j :: 0 <= i < j < |rows| ==> ScheduleKey(rows[i]) != ScheduleKey(rows[j])
  }

  /** The `ORDER` choices: a lesson slot from 1 to 10. */
  predicate OrderInRange(order: int)
  {
    1 <= order <= 10
  }

  /** The constraints the store and the model validation keep on the graph. */
  predicate Valid(d: Directory)
  {
    && UserIdsIncreasing(d.users)
    && EmailsUnique(d.users)
    && (forall u :: u in d.users ==> u.email != "")
    && AssignmentsUnique(d.assignments)
    && ScheduleUnique(d.schedule)
    && (forall e :: e in d.schedule ==> OrderInRange(e.order))
  }

  function NextUserId(users: seq<User>): (id: UserId)
    ensures forall u :: u in users && UserIdsIncreasing(users) ==> u.id < id
  {
    if users == [] then 1 else users[|users| - 1].id + 1
  }

  /** `UserManager.create_user`: an empty email is refused, a taken email violates the
      unique index; otherwise a user with no groups, parents or class is appended. */
  function CreateUser(d: Directory, email: string, firstName: string, lastName: string): (r: Result<Directory, ModelError>)
    ensures email == "" ==> r == Err(EmptyEmail)
    ensures email != "" && (exists u :: u in d.users && u.email == email) ==> r == Err(IntegrityError)
    ensures r.Ok? ==> |r.value.users| == |d.users| + 1 && r.value.users[..|d.users|] == d.users
    ensures r.Ok? ==> r.value == d.(users := r.value.users)
    ensures r.Ok? ==> r.value.users[|d.users|].email == email
    ensures r.Ok? && Valid(d) ==> Valid(r.value)
    ensures r.Err? ==> email == "" || exists u :: u in d.users && u.email == email
  {
    if email == "" then Err(EmptyEmail)
    else if exists u :: u in d.users && u.email == email then Err(IntegrityError)
    else
      var u := User(NextUserId(d.users), email, firstName, lastName, {}, {}, None, {});
      AppendUserKeepsValid(d, u);
      Ok(d.(users := d.users + [u]))
  }

  /** Appending a user with a fresh, non-empty email under the next id keeps the constraints. */
  lemma AppendUserKeepsValid(d: Directory, u: User)
    requires u.email != "" && u.id == NextUserId(d.users)
    requires forall v :: v in d.users ==> v.email != u.email
    ensures Valid(d) ==> Valid(d.(users := d.users + [u]))
  {
    var users := d.users + [u];
    assert users[..|d.users|] == d.users;
    assert users[|d.users|] == u;
    if Valid(d) {
      forall i, j | 0 <= i < j < |users| ensures users[i].id < users[j].id && users[i].email != users[j].email {
        assert users[i] == d.users[i];
        if j < |d.users| { assert users[j] == d.users[j]; }
      }
      forall v | v in users ensures v.email != "" {
        if v != u {
          var k :| 0 <= k < |users| && users[k] == v;
          assert users[k] == d.users[k];
        }
      }
    }
  }

  /** Inserting a `ClassTeacherSubject` row: the same triple twice breaks the unique constraint. */
  function AddAssignment(d: Directory, teacher: UserId, subject: SubjectId, cls: ClassId): (r: Result<Directory, ModelError>)
    ensures r.Err? <==> exists a :: a in d.assignments && AssignmentKey(a) == (teacher, subject, cls)
    ensures r.Ok? ==> |r.value.assignments| == |d.assignments| + 1 && r.value.assignments[..|d.assignments|] == d.assignments
    ensures r.Ok? ==> r.value == d.(assignments := r.value.assignments)
    ensures r.Ok? ==> exists a :: a in r.value.assignments && AssignmentKey(a) == (teacher, subject, cls)
    ensures r.Ok? && Valid(d) ==> Valid(r.value)
  {
    if exists a :: a in d.assignments && AssignmentKey(a) == (teacher, subject, cls) then Err(IntegrityError)
    else
      var id := if d.assignments == [] then 1 else d.assignments[|d.assignments| - 1].id + 1;
      var a := Assignment(id, teacher, subject, cls);
      var d' := d.(assignments := d.assignments + [a]);
      assert d'.assignments[|d.assignments|] == a;
      assert a in d'.assignments;
      Ok(d')
  }

  /** Inserting a schedule row after model validation: the lesson slot must be one of the
      `ORDER` choices and the (day, time, order, assignment) key must be new. */
  function AddScheduleEntry(d: Directory, day: Day, time: int, order: int, assignment: AssignmentId): (r: Result<Directory, ModelError>)
    ensures !OrderInRange(order) ==> r == Err(InvalidChoice)
    ensures OrderInRange(order) ==> (r.Err? <==> exists e :: e in d.schedule && ScheduleKey(e) == (day, time, order, assignment))
    ensures r.Ok? ==> |r.value.schedule| == |d.schedule| + 1 && r.value.schedule[..|d.schedule|] == d.schedule
    ensures r.Ok? ==> ScheduleKey(r.value.schedule[|d.schedule|]) == (day, time, order, assignment)
    ensures r.Ok? ==> r.value == d.(schedule := r.value.schedule)
    ensures r.Ok? && Valid(d) ==> Valid(r.value)
  {
    if !OrderInRange(order) then Err(InvalidChoice)
    else if exists e :: e in d.schedule && ScheduleKey(e) == (day, time, order, assignment) then Err(IntegrityError)
    else
      var id := if d.schedule == [] then 1 else d.schedule[|d.schedule| - 1].id + 1;
      var e := ScheduleEntry(id, day, order, time, assignment);
      var d' := d.(schedule := d.schedule + [e]);
      assert d'.schedule[|d.schedule|] == e;
      Ok(d')
  }

  /** With primary keys unique, `children(p)` is exactly the users whose `parents` hold `p`. */
  lemma ChildrenInverse(d: Directory, p: UserId, c: UserId)
    requires UserIdsIncreasing(d.users)
    ensures c in Children(d, p) <==> UserById(d, c).Some? && p in UserById(d, c).value.parents
  {
    if c in Children(d, p) {
      var u :| u in d.users && p in u.parents && u.id == c;
      var v := UserById(d, c).value;
      var i :| 0 <= i < |d.users| && d.users[i] == u;
      var j :| 0 <= j < |d.users| && d.users[j] == v;
      assert i == j;
    }
  }

  /** `parents` is not symmetrical: declaring a parent does not make the child a parent. */
  lemma ParentsNotSymmetric()
    ensures var d := Directory(
              [User(1, "parent@school.com", "", "", {ParentGroup}, {}, None, {}),
               User(2, "child@school.com", "", "", {StudentGroup}, {1}, Some(1), {})],
              [], [], [], []);
            2 in Children(d, 1) && 1 !in Children(d, 2)
  {
    var d := Directory(
      [User(1, "parent@school.com", "", "", {ParentGroup}, {}, None, {}),
       User(2, "child@school.com", "", "", {StudentGroup}, {1}, Some(1), {})],
      [], [], [], []);
    assert d.users[1] in d.users;
  }
}
