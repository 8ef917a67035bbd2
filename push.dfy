/** `push_notification` of worker/tasks.py: the recipients and parameters of the push sent
    to the websocket gateway for a stored notification. */
module Push {
  import opened Wrappers
  import opened Seqs
  import opened Strings
  import opened Models
  import opened Visibility

  function Ids(rows: seq<User>): (r: seq<UserId>)
    ensures |r| == |rows| && forall i :: 0 <= i < |rows| ==> r[i] == rows[i].id
  {
    seq(|rows|, i requires 0 <= i < |rows| => rows[i].id)
  }

  predicate Increasing(ids: seq<nat>)
  {
    forall i, j :: 0 <= i < j < |ids| ==> ids[i] < ids[j]
  }

  /** A filtered table keeps the table's id order. */
  lemma {:induction false} FilterKeepsIdOrder(users: seq<User>, p: User -> bool)
    requires UserIdsIncreasing(users)
    ensures UserIdsIncreasing(Filter(users, p))
    decreases users
  {
    if users != [] {
      assert UserIdsIncreasing(users[1..]);
      FilterKeepsIdOrder(users[1..], p);
      var rest := Filter(users[1..], p);
      forall j | 0 <= j < |rest| ensures users[0].id < rest[j].id {
        FilterMember(users[1..], p, rest[j]);
        var k :| 0 <= k < |users[1..]| && users[1..][k] == rest[j];
        assert users[k + 1] == rest[j];
      }
    }
  }

  lemma IdsMember(rows: seq<User>, x: nat)
    ensures x in Ids(rows) <==> exists u :: u in rows && u.id == x
  {
    if x in Ids(rows) {
      var i :| 0 <= i < |rows| && Ids(rows)[i] == x;
      assert rows[i] in rows;
    }
  }

  // ---------------------------------------------------------------------------------------
  // A notification to a student: the student's parents.

  /** `target_student.parents.all()`, in table order. */
  function ParentRows(d: Directory, s: User): seq<User>
  {
    Filter(d.users, (u: User) => u.id in s.parents)
  }

  function ParentIds(d: Directory, s: User): seq<UserId>
  {
    Ids(ParentRows(d, s))
  }

  /** The `user` parameter as written: the decimal ids sorted as strings. */
  function StudentUserFieldAsWritten(d: Directory, s: User): string
  {
    Join(LexSort(Decimals(ParentIds(d, s))), ',')
  }

  /** The `user` parameter in ascending numeric id order. */
  function StudentUserField(d: Directory, s: User): string
  {
    EncodeIds(ParentIds(d, s))
  }

  /** The corrected `user` parameter lists each parent row of the student once, in ascending id
      order. */
  lemma StudentRecipients(d: Directory, s: User)
    requires UserIdsIncreasing(d.users)
    ensures DecodeIds(StudentUserField(d, s)) == ParentIds(d, s)
    ensures Increasing(ParentIds(d, s))
    ensures forall x :: x in ParentIds(d, s) <==> x in s.parents && exists u :: u in d.users && u.id == x
  {
    EncodeDecodeIds(ParentIds(d, s));
    FilterKeepsIdOrder(d.users, (u: User) => u.id in s.parents);
    forall x ensures x in ParentIds(d, s) <==> x in s.parents && exists u :: u in d.users && u.id == x {
      IdsMember(ParentRows(d, s), x);
      if x in ParentIds(d, s) {
        var u :| u in ParentRows(d, s) && u.id == x;
        FilterMember(d.users, (u: User) => u.id in s.parents, u);
      }
      if x in s.parents && exists u :: u in d.users && u.id == x {
        var u :| u in d.users && u.id == x;
        FilterMember(d.users, (u: User) => u.id in s.parents, u);
      }
    }
  }

  /** As written, the ids are ordered as text: the code-point order of their decimal forms. */
  lemma StudentAsWrittenIsTextOrder(d: Directory, s: User)
    ensures multiset(LexSort(Decimals(ParentIds(d, s)))) == multiset(Decimals(ParentIds(d, s)))
    ensures LexSorted(LexSort(Decimals(ParentIds(d, s))))
  {
    LexSortFacts(Decimals(ParentIds(d, s)));
  }

  function Member(id: UserId, groups: set<Group>, parents: set<UserId>, attends: Option<ClassId>): User
  {
    User(id, "", "", "", groups, parents, attends, {})
  }

  /** Parents 9 and 10 of student 11. */
  function TwoParents(): Directory
  {
    Directory([Member(9, {ParentGroup}, {}, None), Member(10, {ParentGroup}, {}, None),
               Member(11, {StudentGroup}, {9, 10}, Some(1))],
              [SchoolClass(1, "1B")], [], [], [])
  }

  /** Parents 9 and 10 are sent as "10,9" by the code as written, and as "9,10" in id order. */
  lemma StudentOrderCounterexample()
    ensures StudentUserFieldAsWritten(TwoParents(), TwoParents().users[2]) == "10,9"
    ensures StudentUserField(TwoParents(), TwoParents().users[2]) == "9,10"
  {
    var d := TwoParents();
    var s := d.users[2];
    var p := (u: User) => u.id in s.parents;
    assert Filter(d.users[2..], p) == [];
    assert Filter(d.users[1..], p) == [d.users[1]];
    assert ParentRows(d, s) == [d.users[0], d.users[1]];
    assert ParentIds(d, s) == [9, 10];
    assert NatToString(9) == "9";
    assert NatToString(10) == NatToString(1) + [DigitChar(0)] == "10";
    assert Decimals([9, 10]) == ["9", "10"];
    assert !LexLe("9", "10");
    assert LexSort(["10"]) == ["10"];
    assert LexSort(["9", "10"]) == ["10", "9"];
    assert Join(["10", "9"], ',') == "10" + [','] + "9";
    assert Join(["9", "10"], ',') == "9" + [','] + "10";
  }

  // ---------------------------------------------------------------------------------------
  // A notification to a class: the Parent-group users with a child attending it.

  predicate ChildAttends(k: User, p: UserId, c: ClassId)
  {
    p in k.parents && k.attends == Some(c)
  }

  predicate ParentOfClass(d: Directory, u: User, c: ClassId)
  {
    ParentGroup in u.groups && exists k :: k in d.users && ChildAttends(k, u.id, c)
  }

  /** The parents of the class, each once, in id order. */
  function ClassParentIds(d: Directory, c: ClassId): seq<UserId>
  {
    Ids(Filter(d.users, (u: User) => ParentOfClass(d, u, c)))
  }

  function ClassUserField(d: Directory, c: ClassId): string
  {
    EncodeIds(ClassParentIds(d, c))
  }

  function Repeat(x: nat, k: nat): (r: seq<nat>)
    ensures |r| == k && forall i :: 0 <= i < k ==> r[i] == x
  {
    seq(k, _ => x)
  }

  function ChildCount(d: Directory, p: UserId, c: ClassId): nat
  {
    |Filter(d.users, (k: User) => ChildAttends(k, p, c))|
  }

  /** The rows of the join `filter(groups__name=..., children__attends=...)` without
      `distinct()`: one per parent and child in the class, in parent id order. */
  function JoinedParentIds(rows: seq<User>, d: Directory, c: ClassId): seq<UserId>
    decreases rows
  {
    if rows == [] then []
    else (if ParentGroup in rows[0].groups then Repeat(rows[0].id, ChildCount(d, rows[0].id, c)) else [])
         + JoinedParentIds(rows[1..], d, c)
  }

  /** The `user` parameter as written for a class. */
  function ClassUserFieldAsWritten(d: Directory, c: ClassId): string
  {
    EncodeIds(JoinedParentIds(d.users, d, c))
  }

  lemma ChildCountPositive(d: Directory, p: UserId, c: ClassId)
    ensures ChildCount(d, p, c) > 0 <==> exists k :: k in d.users && ChildAttends(k, p, c)
  {
    var f := Filter(d.users, (k: User) => ChildAttends(k, p, c));
    if exists k :: k in d.users && ChildAttends(k, p, c) {
      var k :| k in d.users && ChildAttends(k, p, c);
      FilterMember(d.users, (k: User) => ChildAttends(k, p, c), k);
    }
    if |f| > 0 {
      FilterMember(d.users, (k: User) => ChildAttends(k, p, c), f[0]);
    }
  }

  /** The join names the same parents as the distinct list; only the repetitions differ. */
  lemma {:induction false} JoinedSameParents(rows: seq<User>, d: Directory, c: ClassId, x: nat)
    ensures x in JoinedParentIds(rows, d, c) <==> x in Ids(Filter(rows, (u: User) => ParentOfClass(d, u, c)))
    decreases rows
  {
    if rows != [] {
      JoinedSameParents(rows[1..], d, c, x);
      ChildCountPositive(d, rows[0].id, c);
      var p := (u: User) => ParentOfClass(d, u, c);
      var head := if ParentGroup in rows[0].groups then Repeat(rows[0].id, ChildCount(d, rows[0].id, c)) else [];
      assert JoinedParentIds(rows, d, c) == head + JoinedParentIds(rows[1..], d, c);
      assert x in head <==> x == rows[0].id && p(rows[0]) by {
        if x in head { var i :| 0 <= i < |head| && head[i] == x; }
        if x == rows[0].id && p(rows[0]) { assert head[0] == x; }
      }
      if p(rows[0]) {
        assert Ids(Filter(rows, p)) == [rows[0].id] + Ids(Filter(rows[1..], p));
      } else {
        assert Filter(rows, p) == Filter(rows[1..], p);
      }
    }
  }

  /** The corrected list holds each Parent-group user with a child in the class exactly once,
      in ascending id order, and agrees in membership with the list as written. */
  lemma ClassRecipients(d: Directory, c: ClassId)
    requires UserIdsIncreasing(d.users)
    ensures DecodeIds(ClassUserField(d, c)) == ClassParentIds(d, c)
    ensures Increasing(ClassParentIds(d, c))
    ensures forall x :: x in ClassParentIds(d, c) <==> exists u :: u in d.users && u.id == x && ParentOfClass(d, u, c)
    ensures forall x :: x in ClassParentIds(d, c) <==> x in JoinedParentIds(d.users, d, c)
  {
    var p := (u: User) => ParentOfClass(d, u, c);
    EncodeDecodeIds(ClassParentIds(d, c));
    FilterKeepsIdOrder(d.users, p);
    forall x ensures x in ClassParentIds(d, c) <==> exists u :: u in d.users && u.id == x && ParentOfClass(d, u, c) {
      IdsMember(Filter(d.users, p), x);
      if x in ClassParentIds(d, c) {
        var u :| u in Filter(d.users, p) && u.id == x;
        FilterMember(d.users, p, u);
      }
      if exists u :: u in d.users && u.id == x && ParentOfClass(d, u, c) {
        var u :| u in d.users && u.id == x && ParentOfClass(d, u, c);
        FilterMember(d.users, p, u);
      }
    }
    forall x ensures x in ClassParentIds(d, c) <==> x in JoinedParentIds(d.users, d, c) {
      JoinedSameParents(d.users, d, c, x);
    }
  }

  /** Parent 9 of students 11 and 12, both in class 1. */
  function TwoChildren(): Directory
  {
    Directory([Member(9, {ParentGroup}, {}, None),
               Member(11, {StudentGroup}, {9}, Some(1)), Member(12, {StudentGroup}, {9}, Some(1))],
              [SchoolClass(1, "1B")], [], [], [])
  }

  /** As written, a parent with two children in the class is sent twice: "9,9" instead of "9". */
  lemma ClassDuplicateCounterexample()
    ensures ClassUserFieldAsWritten(TwoChildren(), 1) == "9,9"
    ensures ClassUserField(TwoChildren(), 1) == "9"
  {
    var d := TwoChildren();
    var k := (u: User) => ChildAttends(u, 9, 1);
    assert Filter(d.users[2..], k) == [d.users[2]];
    assert Filter(d.users[1..], k) == [d.users[1], d.users[2]];
    assert Filter(d.users, k) == [d.users[1], d.users[2]];
    assert ChildCount(d, 9, 1) == 2;
    assert JoinedParentIds(d.users[1..], d, 1) == [];
    assert JoinedParentIds(d.users, d, 1) == [9, 9];
    var p := (u: User) => ParentOfClass(d, u, 1);
    assert ParentOfClass(d, d.users[0], 1) by { assert d.users[1] in d.users && ChildAttends(d.users[1], 9, 1); }
    assert Filter(d.users[1..], p) == [];
    assert ClassParentIds(d, 1) == [9];
    assert NatToString(9) == "9";
    assert Join(["9", "9"], ',') == "9" + [','] + "9";
  }

  lemma HasChildInClass(d: Directory, u: User, k: User, c: ClassId)
    requires ParentGroup in u.groups && k in d.users && ChildAttends(k, u.id, c)
    ensures ParentOfClass(d, u, c)
  {
  }

  /** Two students of one class, each with two parents of its own, in a table of four parent
      rows followed by the two students: the class push reaches the four parents once each,
      in ascending id order. */
  lemma FourParentsScenario(d: Directory, c: ClassId)
    requires |d.users| == 6 && UserIdsIncreasing(d.users)
    requires forall i :: 0 <= i < 4 ==> ParentGroup in d.users[i].groups
    requires forall i :: 4 <= i < 6 ==> ParentGroup !in d.users[i].groups
    requires d.users[4].parents == {d.users[0].id, d.users[1].id} && d.users[4].attends == Some(c)
    requires d.users[5].parents == {d.users[2].id, d.users[3].id} && d.users[5].attends == Some(c)
    ensures ClassParentIds(d, c) == [d.users[0].id, d.users[1].id, d.users[2].id, d.users[3].id]
    ensures Increasing(ClassParentIds(d, c))
    ensures DecodeIds(ClassUserField(d, c)) == ClassParentIds(d, c)
  {
    EncodeDecodeIds(ClassParentIds(d, c));
    var us := d.users;
    var p := (u: User) => ParentOfClass(d, u, c);
    HasChildInClass(d, us[0], us[4], c);
    HasChildInClass(d, us[1], us[4], c);
    HasChildInClass(d, us[2], us[5], c);
    HasChildInClass(d, us[3], us[5], c);
    FilterPrefix(us, p, 4);
  }

  // ---------------------------------------------------------------------------------------
  // The push parameters.

  datatype PushParams = PushParams(
    id: NotificationId,
    user: string,
    owner: UserId,
    title: string,
    description: string,
    timestamp: int,
    date: int,
    targetClass: Option<ClassId>,
    targetStudent: Option<string>)

  datatype PushError = NotFound | Untargeted

  /** `Notification.objects.get(id=...)`. */
  function NotificationIn(table: seq<Notification>, id: int): (r: Option<Notification>)
    ensures r.Some? ==> r.value in table && r.value.id == id
    ensures r.None? ==> forall n :: n in table ==> n.id != id
  {
    if table == [] then None
    else if table[0].id == id then Some(table[0])
    else NotificationIn(table[1..], id)
  }

  /** The push for a stored notification: a targeted student decides the recipients and the
      class is still reported; otherwise the class's parents; a row with neither fails. */
  function PushRequest(d: Directory, table: seq<Notification>, id: int): (r: Result<PushParams, PushError>)
    ensures r.Ok? ==> NotificationIn(table, id).Some? && r.value.id == id
    ensures NotificationIn(table, id).None? ==> r == Err(NotFound)
  {
    match NotificationIn(table, id)
    case None => Err(NotFound)
    case Some(n) =>
      if n.targetStudent.Some? then
        match UserById(d, n.targetStudent.value)
        case None => Err(NotFound)
        case Some(s) =>
          Ok(PushParams(n.id, StudentUserField(d, s), n.owner, n.title, n.description, n.timestamp, n.date,
                        n.targetClass, Some(NatToString(s.id))))
      else if n.targetClass.Some? then
        if ClassById(d, n.targetClass.value).None? then Err(NotFound)
        else Ok(PushParams(n.id, ClassUserField(d, n.targetClass.value), n.owner, n.title, n.description,
                           n.timestamp, n.date, n.targetClass, None))
      else Err(Untargeted)
  }

  /** The recipients the push names. */
  function Recipients(d: Directory, n: Notification): seq<UserId>
  {
    if n.targetStudent.Some? && UserById(d, n.targetStudent.value).Some? then ParentIds(d, UserById(d, n.targetStudent.value).value)
    else if n.targetClass.Some? then ClassParentIds(d, n.targetClass.value)
    else []
  }

  /** A push carries the notification's own fields, a decodable recipient list, and the
      student target only when one is set. */
  lemma PushCarriesNotification(d: Directory, table: seq<Notification>, id: int)
    requires PushRequest(d, table, id).Ok?
    ensures var p := PushRequest(d, table, id).value;
            var n := NotificationIn(table, id).value;
            p.id == id && p.owner == n.owner && p.title == n.title && p.description == n.description &&
            p.timestamp == n.timestamp && p.date == n.date &&
            p.targetClass == n.targetClass &&
            (p.targetStudent.Some? <==> n.targetStudent.Some?) &&
            (p.targetStudent.Some? ==> p.targetStudent.value == NatToString(n.targetStudent.value)) &&
            DecodeIds(p.user) == Recipients(d, n)
  {
    var n := NotificationIn(table, id).value;
    if n.targetStudent.Some? {
      EncodeDecodeIds(ParentIds(d, UserById(d, n.targetStudent.value).value));
    } else {
      EncodeDecodeIds(ClassParentIds(d, n.targetClass.value));
    }
  }

  /** The push fails for want of a target exactly when the stored row has neither target. */
  lemma PushUntargetedIff(d: Directory, table: seq<Notification>, id: int)
    ensures PushRequest(d, table, id) == Err(Untargeted) <==>
      NotificationIn(table, id).Some? &&
      NotificationIn(table, id).value.targetStudent.None? && NotificationIn(table, id).value.targetClass.None?
  {
  }

  /** A table whose rows all pass `clean` never reaches the "without target" exception. */
  lemma CleanRowsHaveTarget(d: Directory, table: seq<Notification>, id: int)
    requires forall n :: n in table ==> Clean(n).Ok?
    ensures PushRequest(d, table, id) != Err(Untargeted)
  {
    if NotificationIn(table, id).Some? {
      assert Clean(NotificationIn(table, id).value).Ok?;
    }
  }

  /** Every Parent the push reaches finds the notification in its own listing. */
  lemma RecipientsCanList(d: Directory, table: seq<Notification>, id: int, u: User)
    requires UserIdsIncreasing(d.users)
    requires PushRequest(d, table, id).Ok?
    requires u in d.users && RoleOf(u) == Some(ParentRole)
    requires u.id in Recipients(d, NotificationIn(table, id).value)
    ensures NotificationIn(table, id).value in ListNotifications(d, table, u, NoFilters()).value
  {
    var n := NotificationIn(table, id).value;
    if n.targetStudent.Some? {
      var s := UserById(d, n.targetStudent.value).value;
      StudentRecipients(d, s);
      assert TargetsChildOf(d, u.id, n);
    } else {
      var c := n.targetClass.value;
      ClassRecipients(d, c);
      var v :| v in d.users && v.id == u.id && ParentOfClass(d, v, c);
      var k :| k in d.users && ChildAttends(k, v.id, c);
      assert c in ChildClasses(d, u.id);
    }
    ListMembership(d, table, u, NoFilters(), ListNotifications(d, table, u, NoFilters()).value);
  }
}
