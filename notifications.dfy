/** `NotificationsService` of api/views.py: the stored notifications, the push queue fed by
    `perform_create`, and the `queryset` attribute that `get_queryset` assigns. */
module Notifications {
  import opened Wrappers
  import opened Seqs
  import opened Models
  import opened Visibility
  import Push

  /** The reference fields of the request body: each absent, or a value to look up. */
  datatype CreateRequest = CreateRequest(
    subjectId: Option<IntArg>,
    targetStudentId: Option<IntArg>,
    targetClassId: Option<IntArg>)

  /** The fields the serializer has already validated. */
  datatype NotificationFields = NotificationFields(
    title: string,
    description: string,
    date: int,
    icon: Option<string>,
    kind: NotificationType)

  /** `int(subject_param)` then `get_object_or_404(Subject, ...)`. */
  function ResolveSubject(d: Directory, arg: Option<IntArg>): (r: Result<Option<SubjectId>, ApiError>)
    ensures arg.None? ==> r == Ok(None)
    ensures arg == Some(NotInt) ==> r == Err(BadRequest(BadSubjectId))
    ensures arg.Some? && arg.value.Num? ==>
              (r.Ok? <==> exists s :: s in d.subjects && s.id == arg.value.n) &&
              (r.Ok? ==> r.value == Some(arg.value.n)) && (r.Err? ==> r.error == Http404)
    ensures r.Ok? && r.value.Some? ==> SubjectById(d, r.value.value).Some?
  {
    match arg
    case None => Ok(None)
    case Some(NotInt) => Err(BadRequest(BadSubjectId))
    case Some(Num(k)) => if k < 0 || SubjectById(d, k).None? then Err(Http404) else Ok(Some(k))
  }

  /** `get_object_or_404(User, pk=...)`: a non-numeric key fails in the lookup itself. */
  function ResolveStudent(d: Directory, arg: Option<IntArg>): (r: Result<Option<UserId>, ApiError>)
    ensures arg.None? ==> r == Ok(None)
    ensures arg == Some(NotInt) ==> r == Err(ValueError)
    ensures arg.Some? && arg.value.Num? ==>
              (r.Ok? <==> exists u :: u in d.users && u.id == arg.value.n) &&
              (r.Ok? ==> r.value == Some(arg.value.n)) && (r.Err? ==> r.error == Http404)
    ensures r.Ok? && r.value.Some? ==> UserById(d, r.value.value).Some?
  {
    match arg
    case None => Ok(None)
    case Some(NotInt) => Err(ValueError)
    case Some(Num(k)) => if k < 0 || UserById(d, k).None? then Err(Http404) else Ok(Some(k))
  }

  /** `get_object_or_404(Class, pk=...)`. */
  function ResolveClass(d: Directory, arg: Option<IntArg>): (r: Result<Option<ClassId>, ApiError>)
    ensures arg.None? ==> r == Ok(None)
    ensures arg == Some(NotInt) ==> r == Err(ValueError)
    ensures arg.Some? && arg.value.Num? ==>
              (r.Ok? <==> exists c :: c in d.classes && c.id == arg.value.n) &&
              (r.Ok? ==> r.value == Some(arg.value.n)) && (r.Err? ==> r.error == Http404)
    ensures r.Ok? && r.value.Some? ==> ClassById(d, r.value.value).Some?
  {
    match arg
    case None => Ok(None)
    case Some(NotInt) => Err(ValueError)
    case Some(Num(k)) => if k < 0 || ClassById(d, k).None? then Err(Http404) else Ok(Some(k))
  }

  /** What `perform_create` stores under the given id, or the error it raises first. */
  function CreateOutcome(d: Directory, requester: UserId, id: NotificationId, req: CreateRequest,
                         f: NotificationFields, now: int): (r: Result<Notification, ApiError>)
    ensures r.Ok? ==> r.value.id == id && r.value.owner == requester && Clean(r.value).Ok?
    ensures r == Err(BadRequest(NoTarget)) ==> req.targetStudentId.None? && req.targetClassId.None?
  {
    match ResolveSubject(d, req.subjectId)
    case Err(e) => Err(e)
    case Ok(subject) =>
      match ResolveStudent(d, req.targetStudentId)
      case Err(e) => Err(e)
      case Ok(student) =>
        match ResolveClass(d, req.targetClassId)
        case Err(e) => Err(e)
        case Ok(cls) =>
          if student.None? && cls.None? then Err(BadRequest(NoTarget))
          else Ok(Notification(id, requester, f.title, f.description, now, f.date,
                               student, cls, subject, f.icon, f.kind))
  }

  /** The subject is checked first: "abc" is a bad request whatever the targets are. */
  lemma BadSubjectIsBadRequest(d: Directory, requester: UserId, id: NotificationId, req: CreateRequest,
                               f: NotificationFields, now: int)
    requires req.subjectId == Some(NotInt)
    ensures CreateOutcome(d, requester, id, req, f, now) == Err(BadRequest(BadSubjectId))
  {
  }

  /** With a valid or absent subject and neither target given, creation is a bad request. */
  lemma NoTargetIsBadRequest(d: Directory, requester: UserId, id: NotificationId, req: CreateRequest,
                             f: NotificationFields, now: int)
    requires ResolveSubject(d, req.subjectId).Ok?
    requires req.targetStudentId.None? && req.targetClassId.None?
    ensures CreateOutcome(d, requester, id, req, f, now) == Err(BadRequest(NoTarget))
  {
  }

  /** Creation succeeds exactly when every given reference resolves and a target is given. */
  lemma CreateSucceedsIff(d: Directory, requester: UserId, id: NotificationId, req: CreateRequest,
                          f: NotificationFields, now: int)
    ensures CreateOutcome(d, requester, id, req, f, now).Ok? <==>
      ResolveSubject(d, req.subjectId).Ok? && ResolveStudent(d, req.targetStudentId).Ok? &&
      ResolveClass(d, req.targetClassId).Ok? &&
      (req.targetStudentId.Some? || req.targetClassId.Some?)
  {
  }

  /** A stored notification passes `Notification.clean`, belongs to the requester, and carries
      exactly the resolved references. */
  lemma CreatedIsClean(d: Directory, requester: UserId, id: NotificationId, req: CreateRequest,
                       f: NotificationFields, now: int)
    requires CreateOutcome(d, requester, id, req, f, now).Ok?
    ensures var n := CreateOutcome(d, requester, id, req, f, now).value;
            Clean(n) == Ok(n) && n.owner == requester && n.id == id && n.timestamp == now &&
            n.title == f.title && n.description == f.description && n.date == f.date &&
            n.icon == f.icon && n.kind == f.kind &&
            n.subject == ResolveSubject(d, req.subjectId).value &&
            n.targetStudent == ResolveStudent(d, req.targetStudentId).value &&
            n.targetClass == ResolveClass(d, req.targetClassId).value
  {
  }

  /** A subject that exists is attached to the stored notification. */
  lemma SubjectAttached(d: Directory, requester: UserId, id: NotificationId, k: SubjectId, c: ClassId,
                        f: NotificationFields, now: int)
    requires SubjectById(d, k).Some? && ClassById(d, c).Some?
    ensures var r := CreateOutcome(d, requester, id, CreateRequest(Some(Num(k)), None, Some(Num(c))), f, now);
            r.Ok? && r.value.subject == Some(k) && r.value.targetClass == Some(c) && r.value.targetStudent.None?
  {
  }

  /** Naming both a student and a class is allowed and keeps both. */
  lemma DualTargetAllowed(d: Directory, requester: UserId, id: NotificationId, s: UserId, c: ClassId,
                          f: NotificationFields, now: int)
    requires UserById(d, s).Some? && ClassById(d, c).Some?
    ensures var r := CreateOutcome(d, requester, id, CreateRequest(None, Some(Num(s)), Some(Num(c))), f, now);
            r.Ok? && r.value.targetStudent == Some(s) && r.value.targetClass == Some(c)
  {
  }

  /** A Teacher finds what it just created in its own listing. */
  lemma CreatedListedForOwner(d: Directory, table: seq<Notification>, t: User, id: NotificationId,
                              req: CreateRequest, f: NotificationFields, now: int)
    requires RoleOf(t) == Some(TeacherRole)
    requires CreateOutcome(d, t.id, id, req, f, now).Ok?
    ensures var n := CreateOutcome(d, t.id, id, req, f, now).value;
            n in ListNotifications(d, table + [n], t, NoFilters()).value
  {
    var n := CreateOutcome(d, t.id, id, req, f, now).value;
    TeacherListsOwned(d, table + [n], t, n);
  }

  /** A parent of the targeted student finds the new notification in its listing. */
  lemma CreatedListedForParent(d: Directory, table: seq<Notification>, p: User, c: User, id: NotificationId,
                               req: CreateRequest, f: NotificationFields, now: int, requester: UserId)
    requires RoleOf(p) == Some(ParentRole) && c in d.users && p.id in c.parents
    requires req.targetStudentId == Some(Num(c.id))
    requires CreateOutcome(d, requester, id, req, f, now).Ok?
    ensures var n := CreateOutcome(d, requester, id, req, f, now).value;
            n in ListNotifications(d, table + [n], p, NoFilters()).value
  {
    var n := CreateOutcome(d, requester, id, req, f, now).value;
    ParentListsChildrens(d, table + [n], p, n);
  }

  /** Ids grow with insertion and stay below the next id; every stored row has a target;
      every queued push names a stored row. */
  predicate TableInvariant(ns: seq<Notification>, nextId: nat, queue: seq<NotificationId>)
  {
    && (forall i, j :: 0 <= i < j < |ns| ==> ns[i].id < ns[j].id)
    && (forall i :: 0 <= i < |ns| ==> ns[i].id < nextId)
    && (forall i :: 0 <= i < |ns| ==> Clean(ns[i]).Ok?)
    && (forall k :: 0 <= k < |queue| ==> exists i :: 0 <= i < |ns| && ns[i].id == queue[k])
  }

  /** Saving a clean row under the next id and queueing its push keeps the invariant. */
  lemma AppendKeepsInvariant(ns: seq<Notification>, nextId: nat, queue: seq<NotificationId>, n: Notification)
    requires TableInvariant(ns, nextId, queue)
    requires n.id == nextId && Clean(n).Ok?
    ensures TableInvariant(ns + [n], nextId + 1, queue + [n.id])
  {
    var ns' := ns + [n];
    var queue' := queue + [n.id];
    assert ns'[..|ns|] == ns && ns'[|ns|] == n;
    forall i | 0 <= i < |ns'| ensures ns'[i].id < nextId + 1 && Clean(ns'[i]).Ok? {
      if i < |ns| { assert ns'[i] == ns[i]; }
    }
    forall i, j | 0 <= i < j < |ns'| ensures ns'[i].id < ns'[j].id {
      assert ns'[i] == ns[i];
      if j < |ns| { assert ns'[j] == ns[j]; }
    }
    forall k | 0 <= k < |queue'|
      ensures exists i :: 0 <= i < |ns'| && ns'[i].id == queue'[k]
    {
      if k == |queue| {
        assert ns'[|ns|].id == queue'[k];
      } else {
        assert queue'[k] == queue[k];
        var i :| 0 <= i < |ns| && ns[i].id == queue[k];
        assert ns'[i] == ns[i];
      }
    }
  }

  /** Every queued id names a stored row, and the worker's push for it never reaches the
      "without target" exception. */
  lemma QueuedRowTargeted(d: Directory, ns: seq<Notification>, nextId: nat, queue: seq<NotificationId>, k: nat)
    requires TableInvariant(ns, nextId, queue) && k < |queue|
    ensures Push.NotificationIn(ns, queue[k]).Some?
    ensures Push.PushRequest(d, ns, queue[k]) != Err(Push.Untargeted)
  {
    var id := queue[k];
    var i :| 0 <= i < |ns| && ns[i].id == id;
    assert ns[i] in ns;
    forall n | n in ns ensures Clean(n).Ok? {
      var j :| 0 <= j < |ns| && ns[j] == n;
    }
    Push.CleanRowsHaveTarget(d, ns, id);
  }

  class NotificationsService {
    var notifications: seq<Notification>
    var nextId: nat
    var pushQueue: seq<NotificationId>
    var queryset: seq<Notification>

    predicate Valid()
      reads this
    {
      TableInvariant(notifications, nextId, pushQueue)
    }

    constructor ()
      ensures Valid()
      ensures notifications == [] && pushQueue == [] && queryset == [] && nextId == 1
    {
      notifications := [];
      nextId := 1;
      pushQueue := [];
      queryset := [];
    }

    /** The push the worker sends for the `k`-th queued id. */
    function QueuedPush(d: Directory, k: nat): (r: Result<Push.PushParams, Push.PushError>)
      reads this
      requires Valid() && k < |pushQueue|
      ensures Push.NotificationIn(notifications, pushQueue[k]).Some?
      ensures r != Err(Push.Untargeted)
    {
      QueuedRowTargeted(d, notifications, nextId, pushQueue, k);
      Push.PushRequest(d, notifications, pushQueue[k])
    }

    /** `perform_create`: resolve the references in order, require a target, save the row
        with the requester as owner, and queue its push. */
    method PerformCreate(d: Directory, requester: User, req: CreateRequest, f: NotificationFields, now: int)
      returns (r: Result<Notification, ApiError>)
      requires Valid()
      modifies this`notifications, this`nextId, this`pushQueue
      ensures Valid()
      ensures r == CreateOutcome(d, requester.id, old(nextId), req, f, now)
      ensures r.Ok? ==> notifications == old(notifications) + [r.value] &&
                        pushQueue == old(pushQueue) + [r.value.id] && nextId == old(nextId) + 1
      ensures r.Err? ==> notifications == old(notifications) && pushQueue == old(pushQueue) && nextId == old(nextId)
    {
      var subject: Option<SubjectId> := None;
      if req.subjectId.Some? {
        match req.subjectId.value {
          case NotInt => return Err(BadRequest(BadSubjectId));
          case Num(k) =>
            if k < 0 || SubjectById(d, k).None? { return Err(Http404); }
            subject := Some(k);
        }
      }
      var student: Option<UserId> := None;
      if req.targetStudentId.Some? {
        match req.targetStudentId.value {
          case NotInt => return Err(ValueError);
          case Num(k) =>
            if k < 0 || UserById(d, k).None? { return Err(Http404); }
            student := Some(k);
        }
      }
      var cls: Option<ClassId> := None;
      if req.targetClassId.Some? {
        match req.targetClassId.value {
          case NotInt => return Err(ValueError);
          case Num(k) =>
            if k < 0 || ClassById(d, k).None? { return Err(Http404); }
            cls := Some(k);
        }
      }
      if student.None? && cls.None? {
        return Err(BadRequest(NoTarget));
      }
      var n := Notification(nextId, requester.id, f.title, f.description, now, f.date,
                            student, cls, subject, f.icon, f.kind);
      AppendKeepsInvariant(notifications, nextId, pushQueue, n);
      notifications := notifications + [n];
      nextId := nextId + 1;
      pushQueue := pushQueue + [n.id];
      r := Ok(n);
    }

    /** `get_queryset`: the role's base set, the optional filters in order, newest first,
        cut to `size`; the result is also kept in `queryset`. */
    method GetQueryset(d: Directory, user: User, q: NotificationQuery) returns (r: Result<seq<Notification>, ApiError>)
      modifies this`queryset
      ensures r == ListNotifications(d, notifications, user, q)
      ensures r.Ok? ==> queryset == r.value
      ensures r.Err? ==> queryset == old(queryset)
    {
      var role := RoleOf(user);
      if role.None? {
        // `queryset` is never bound, but the lookups before its first read still run.
        if q.student.Some? {
          if q.student.value.NotInt? { return Err(ValueError); }
          if UserById(d, q.student.value.n).None? { return Err(DoesNotExist); }
        } else if q.subject.Some? {
          if q.subject.value.NotInt? { return Err(ValueError); }
          if SubjectById(d, q.subject.value.n).None? { return Err(DoesNotExist); }
        }
        return Err(UnboundQueryset);
      }
      var onUsers := role.value == StudentRole;
      var qs := NotificationBase(d, notifications, user.id, role.value);
      ghost var b := qs;
      if q.student.Some? {
        if q.student.value.NotInt? { return Err(ValueError); }
        var s := UserById(d, q.student.value.n);
        if s.None? { return Err(DoesNotExist); }
        if onUsers { return Err(FieldError); }
        qs := ByStudent(qs, s.value);
      }
      assert StudentStep(d, b, q.student, onUsers) == Ok(qs);
      ghost var s1 := qs;
      if q.subject.Some? {
        if q.subject.value.NotInt? { return Err(ValueError); }
        if SubjectById(d, q.subject.value.n).None? { return Err(DoesNotExist); }
        if onUsers { return Err(FieldError); }
        qs := BySubject(qs, q.subject.value.n);
      }
      assert SubjectStep(d, s1, q.subject, onUsers) == Ok(qs);
      ghost var s2 := qs;
      if q.fromDate.Some? {
        if onUsers { return Err(FieldError); }
        if q.fromDate.value.NotDate? { return Err(InvalidDate); }
        qs := FromDate(qs, q.fromDate.value.t);
      }
      assert FromStep(s2, q.fromDate, onUsers) == Ok(qs);
      ghost var s3 := qs;
      if q.toDate.Some? {
        if onUsers { return Err(FieldError); }
        if q.toDate.value.NotDate? { return Err(InvalidDate); }
        qs := ToDate(qs, q.toDate.value.t);
      }
      assert ToStep(s3, q.toDate, onUsers) == Ok(qs);
      assert FilteredNotifications(d, notifications, user, q) == Ok(qs);
      qs := OrderByDateDesc(qs);
      if q.size.Some? {
        if q.size.value.NotInt? { return Err(ValueError); }
        if q.size.value.n < 0 { return Err(NegativeSlice); }
        qs := Take(qs, q.size.value.n);
      }
      queryset := qs;
      r := Ok(qs);
    }
  }
}
