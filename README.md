# School backend: role-scoped visibility, push recipients and the chat index

A Dafny model of the core of a Django/MongoDB school backend. The core decides which records
an authenticated principal may see, and it owns the small stateful pieces around that.

- **Directory graph** (`Models`, core/models.py): users with role groups, a non-symmetric
  `parents` relation and at most one attended class. Also classes, subjects,
  `ClassTeacherSubject` teaching assignments, schedule rows and notifications. The module
  includes `Notification.clean`, the type choices and the uniqueness constraints.
- **Visibility resolver and filter pipeline** (`Visibility`, api/views.py):
  - the role chosen by the `if/elif` chain Admin, Teacher, Parent, Student;
  - the users, subjects and schedule rows each role may list;
  - the notification base set of each role;
  - the student, subject, `from_date` and `to_date` filters, the ordering by date and the
    `size` prefix.
- **Notification service** (`Notifications`, api/views.py): a class holding the
  notification table, the next primary key, the push queue and the `queryset` attribute.
  - `PerformCreate` runs the validation sequence of `perform_create`. It saves the row and
    queues its push, or it fails and changes nothing.
  - `GetQueryset` assigns the filtered list step by step, as `get_queryset` does.
- **Object permission** (`Permissions`, api/permissions.py): the
  `IsOwnerOrTargetReadOnly.has_object_permission` predicate.
- **Push recipients** (`Push`, worker/tasks.py): the `user` parameter of the push for a
  stored notification. For a targeted student it is built from the student's parents; for
  a targeted class, from the parents of children in the class.
- **Chat index** (`Chat`, chat/database.py): the `chats_history` log as a sequence of
  messages.
  - `GetChats` gives one summary per conversation of a user, newest first.
  - `GetChatHistory` gives one page of one conversation, newest first and below an optional
    cursor. It can also mark the whole query as read in place.

`Wrappers` holds `Option` and `Result`. `Seqs` holds filtering, prefixes, a stable sort by
descending key, de-duplication and their lemmas. `Strings` holds decimal rendering, `join`
and its inverse, and Python's code-point order on strings.

Modelling choices:
- Ids are `nat`. Dates and timestamps are `int`.
- Every table is a sequence in primary-key order. A database ordering with ties keeps that
  order, which is what a stable sort gives.
- A user's class is an `Option`, so a user attends at most one class by construction.
- Request parameters that pass through `int(...)` are `IntArg`, meaning a number or text
  that `int` refuses. Each exception the views raise or let escape is a case of `ApiError`.
- A MongoDB ObjectId is a `nat` that grows with insertion. An unparsable cursor is `BadOid`.
- `from_date` and `to_date` are `DateArg`: a point in time, or text the `date` field reads as
  neither a datetime nor a date. Filtering with such text raises Django's `ValidationError`
  (`InvalidDate`), after the field itself is resolved.

Where the system's documented behaviour and its code differ, the model follows the code:
- The chat history passes `size` to MongoDB's `limit`. There 0 means no limit and a negative
  size counts as its magnitude (`Chat.LimitCount`). Only the notification list's slice
  `[:0]` is empty.
- `get_chat_history` marks messages read only when `mark_as_read` is set. It then marks
  every message of the query (conversation and cursor), not just the page returned.
- A non-numeric `target_student_id`, `target_class_id`, `student` or `subject` parameter
  ends in `ValueError`. Only a non-numeric `subject_id` in `perform_create` is a bad request.
- `SubjectsView` gives a Parent no subjects, because the class filter intersects its empty
  set.
- For a principal in the Student group, the notification list starts from
  `User.objects.none()`. Any filter on a notification field then fails with `FieldError`.
- The `parents` relation is not symmetric. `children` is its reverse accessor.
- `IsOwnerOrTargetReadOnly` is defined but not attached to any view. The model states how
  it relates to the listings (`Permissions.TeacherListingPermitted`,
  `Permissions.ParentListedButRefused`).

One deliberate departure from the code: a Student's notification listing without filters is
the empty list, as the documented design says. In the code,
`order_by('-date')` on `User.objects.none()` names a field `User` lacks, so evaluating the
queryset fails with `FieldError`.

## Model

| member | source | states |
|---|---|---|
| Models.ParseType | core/models.py:167-182 | a missing type defaults to GENERIC; a given code is accepted iff it is one of GENERIC, EXAM, TASK, ATTENDANCE, and is read back as that code |
| Models.GroupName | core/models.py:12-15 | a group's name is one of the four application names iff it is one of the four role groups |
| Models.GroupNameInjective | core/models.py:12-15 | two groups with the same name are the same group, so no other group is called "Parent" |
| Models.TypeCodeRoundTrip | core/models.py:167-182 | every type's stored code parses back to that type |
| Models.Clean | core/models.py:186-189 | `clean` fails iff neither a student nor a class is targeted; otherwise the row is unchanged |
| Models.UserById | api/views.py:62 | a found user is a row of the table with that key; not found means no row has that key |
| Models.SubjectById | api/views.py:55 | a found subject is a row with that key; not found means no row has it |
| Models.ClassById | api/views.py:69 | a found class is a row with that key; not found means no row has it |
| Models.RowIn | api/views.py:55-69 | the primary-key lookup shared by subjects and classes returns a stored row with the requested key |
| Models.CreateUser | core/models.py:33-51 | an empty email is refused; a taken email violates the unique index; otherwise exactly one user with that email is appended, nothing else changes, and the directory constraints are kept |
| Models.AppendUserKeepsValid | core/models.py:62-70 | appending a user with a fresh non-empty email under the next id keeps ids increasing, emails unique and non-empty |
| Models.AddAssignment | core/models.py:104-125 | an insert fails iff the (teacher, subject, class) triple exists; otherwise one row is appended and uniqueness is kept |
| Models.AddScheduleEntry | core/models.py:207-242 | an order outside 1..10 is refused; otherwise the insert fails iff the (day, time, order, assignment) key exists; a success appends one row carrying that key, changes nothing else and keeps the constraints |
| Models.ChildrenInverse | core/models.py:87-90 | `children(p)` is exactly the users whose `parents` hold `p` |
| Models.ParentsNotSymmetric | core/models.py:87-90 | declaring a parent does not make the child a parent of the parent |
| Visibility.RoleOf | api/views.py:95-115 | a chosen role's group is one the principal holds |
| Visibility.RolePrecedence | api/views.py:95-115 | a principal acts in a role iff it holds that group and none earlier in Admin, Teacher, Parent, Student |
| Visibility.NoRole | api/views.py:95-115 | no role is chosen iff the principal holds none of the four groups |
| Visibility.NoStudentsOnlyRemovesStudents | api/views.py:178-258 | `no_students` only removes users, and only users of the Student group |
| Visibility.NoStudentsIsRawString | api/views.py:179 | "False" hides students like "true"; the empty string is the same as no flag |
| Visibility.VisibleUsers | api/views.py:178-258 | the users listing fails exactly for a principal with no role, whose `queryset` is never bound; every listed id is a stored user |
| Visibility.AdminListsEveryoneElse | api/views.py:182-186 | an Admin lists every user except itself |
| Visibility.AdminNoStudentsListing | api/views.py:188-192 | with `no_students`, an Admin lists a user iff it is another user outside the Student group |
| Visibility.TeacherListing | api/views.py:194-222 | a Teacher lists a user iff it is another teacher, a parent sharing a class with it, or (unless `no_students`) a student attending a class it teaches in |
| Visibility.ParentListedOnlyIf | api/views.py:224-253 | whatever a Parent lists is a co-parent, a teacher of a child's class, or (unless `no_students`) its own child |
| Visibility.ParentListedIf | api/views.py:224-253 | every co-parent, teacher of a child's class and (unless `no_students`) own child is listed |
| Visibility.ParentListing | api/views.py:224-253 | a Parent lists a user iff it is another parent with a child in a class one of its children attends, a teacher teaching in such a class, or (unless `no_students`) its own child in the Student group |
| Visibility.ParentListsOwnChildren | api/views.py:244-248 | without `no_students`, a Parent lists each of its children in the Student group |
| Visibility.TeacherListsParent | api/views.py:199-206 | a plain teacher lists a plain parent iff one of the parent's children attends a class the teacher teaches in |
| Visibility.ParentListsTeacher | api/views.py:229-242 | a plain parent lists a plain teacher iff the same shared-class condition holds |
| Visibility.TeacherParentMutual | api/views.py:194-253 | between a plain teacher and a plain parent, the users listing is mutual |
| Visibility.VisibleSubjects | api/views.py:303-328 | a non-numeric class fails; with no class, the role's subjects; with a class, exactly the role's subjects that some teacher teaches in that class |
| Visibility.TeacherSubjectTaughtElsewhere | api/views.py:314-328 | the class filter lists a teacher's subject that another teacher teaches in that class |
| Visibility.NonStaffListNoSubjects | api/views.py:318-321 | Parents, Students and principals without a role list no subject, or get the `int` error |
| Visibility.ScheduleOf | api/views.py:269-274 | the schedule holds exactly the rows of the principal's own teaching assignments |
| Visibility.BaseMember | api/views.py:95-115 | a notification is in a role's base set iff it is stored and the role admits it (Admin all, Teacher owned, Parent to a child or a child's class, Student none) |
| Visibility.FilteredNotifications | api/views.py:117-136 | a filtered set exists only for a principal with a role and is no longer than the table |
| Visibility.FilteredMember | api/views.py:117-136 | after the filters, a notification is present iff the role admits it and every given filter admits it |
| Visibility.ListMembership | api/views.py:84-146 | without `size`, the listing holds exactly the notifications the role and the filters admit |
| Visibility.ListNotifications | api/views.py:84-146 | a listing exists only for a principal with a role, is no longer than the table, and is no longer than a given `size` |
| Visibility.ListSorted | api/views.py:139 | the listing is ordered by date, newest first |
| Visibility.ListSizeCap | api/views.py:141-142 | `size = k` keeps the first min(k, count) of the ordered listing, so size 0 is empty; a negative size is an error |
| Visibility.ListDistinct | api/views.py:109-112 | a table without repeated rows gives a listing without repeated rows |
| Visibility.AdminListsAll | api/views.py:95-96 | an Admin lists every notification |
| Visibility.TeacherListsOwned | api/views.py:98-100 | a Teacher lists exactly the notifications it owns |
| Visibility.ParentListsChildrens | api/views.py:102-112 | a Parent lists a notification iff it targets one of its children or a class one of them attends |
| Visibility.StudentListsNothing | api/views.py:114-136 | a Student's listing is empty when it succeeds (the design's choice, see "Left out"), and any date filter makes it fail |
| Visibility.NoRoleNoListing | api/views.py:95-128 | a principal with no role never gets a notification listing: a non-numeric or unknown `student`, or without `student` a non-numeric or unknown `subject`, gives that lookup's ValueError or DoesNotExist, and otherwise the read of the unbound `queryset` fails; the users listing fails the same way |
| Visibility.DateRangeBounds | api/views.py:132-136 | `from_date` is inclusive and `to_date` is exclusive |
| Visibility.UnparsableDateFails | api/views.py:132-136 | unparsable `from_date` or `to_date` text fails the listing with Django's `ValidationError`, or with `FieldError` for a Student, whose queryset has no `date` field |
| Visibility.StudentFilterKeeps | api/views.py:117-123 | the student filter keeps a notification iff it targets that student, or targets its class and no student |
| Notifications.ResolveSubject | api/views.py:45-58 | no subject resolves to none; non-numeric text is the bad-subject-id request error; a number resolves to itself iff a subject has that key, and is Http404 otherwise |
| Notifications.ResolveStudent | api/views.py:60-65 | no target student resolves to none; non-numeric text is ValueError; a number resolves to itself iff a user has that key, and is Http404 otherwise |
| Notifications.ResolveClass | api/views.py:67-72 | no target class resolves to none; non-numeric text is ValueError; a number resolves to itself iff a class has that key, and is Http404 otherwise |
| Notifications.CreateOutcome | api/views.py:44-82 | a stored row carries the given id and the requester as owner and passes `clean`; the no-target error happens only when neither target is given |
| Notifications.NoTargetIsBadRequest | api/views.py:74-76 | with the subject valid or absent and neither `target_student_id` nor `target_class_id` given, creation fails with the bad-request `ValidationError` |
| Notifications.BadSubjectIsBadRequest | api/views.py:45-52 | a non-numeric `subject_id` is a bad request, whatever the targets are |
| Notifications.CreateSucceedsIff | api/views.py:44-81 | creation succeeds iff every given reference resolves and a target is given |
| Notifications.CreatedIsClean | api/views.py:74-81 | the stored row passes `clean`, is owned by the requester, carries the creation time, exactly the resolved references and the submitted title, description, date, icon and type |
| Notifications.SubjectAttached | api/views.py:53-58 | an existing subject, given with an existing class target, is attached to the stored row |
| Notifications.DualTargetAllowed | api/views.py:74-81 | naming both a student and a class is allowed and keeps both |
| Notifications.CreatedListedForOwner | api/views.py:78-100 | a Teacher finds the notification it created in its own listing |
| Notifications.CreatedListedForParent | api/views.py:78-112 | a parent of the targeted student finds the new notification in its listing |
| Notifications.AppendKeepsInvariant | api/views.py:78-82 | saving a clean row under the next id and queueing its push keeps ids increasing, every row clean and every queued id stored |
| Notifications.QueuedRowTargeted | api/views.py:82 | under the table invariant every queued id names a stored row, and the worker's push for it never ends in the "without target" exception |
| Notifications.NotificationsService.constructor | api/views.py:32-42 | the service starts empty and consistent |
| Notifications.NotificationsService.QueuedPush | worker/tasks.py:12-62 | for a consistent service, the row of each queued id is found and its push never fails for want of a target |
| Notifications.NotificationsService.PerformCreate | api/views.py:44-82 | the outcome is `CreateOutcome`; on success the row is appended and its id queued after the save; on any error nothing changes; the invariant is kept |
| Notifications.NotificationsService.GetQueryset | api/views.py:84-146 | the result is the listing of the filter pipeline, and the `queryset` attribute is set to it on success |
| Permissions.OwnerAlwaysPermitted | api/permissions.py:15-16 | the owner is permitted every method |
| Permissions.WritesOwnerOnly | api/permissions.py:15-27 | an unsafe method is permitted iff the principal is the owner |
| Permissions.ReadPermittedIff | api/permissions.py:15-27 | a read is permitted iff the principal is the owner, or the targeted student, or, with no student targeted, a student of the targeted class |
| Permissions.StudentTargetExcludesClassmates | api/permissions.py:19-21 | when a student is targeted, any other non-owner is refused, even a classmate |
| Permissions.TeacherListingPermitted | api/permissions.py:9-27 | every notification a Teacher lists, it is permitted to act on |
| Permissions.ParentListedButRefused | api/permissions.py:9-27 | a parent lists a notification aimed at its child but would be refused the object |
| Permissions.HasObjectPermission | api/permissions.py:15-27 | the owner is always permitted; a non-owner only on a safe method, and only as the targeted student or, with no student targeted, on a row aimed at a class |
| Push.StudentRecipients | worker/tasks.py:15-24 | the corrected `user` field decodes to the student's parents, each once, in ascending id order, with no group check |
| Push.StudentAsWrittenIsTextOrder | worker/tasks.py:17-18 | as written, the ids are a permutation of the parents' decimal ids in code-point order |
| Push.StudentOrderCounterexample | worker/tasks.py:17-24 | parents 9 and 10 are sent as "10,9" as written and as "9,10" corrected |
| Push.JoinedSameParents | worker/tasks.py:39-43 | the join without `distinct` names the same parents as the distinct list |
| Push.ClassRecipients | worker/tasks.py:37-49 | the corrected `user` field decodes to every Parent-group user with a child in the class, each once, in ascending id order, and names the same users as written |
| Push.ClassDuplicateCounterexample | worker/tasks.py:39-49 | a parent with two children in the class is sent as "9,9" as written and as "9" corrected |
| Push.FourParentsScenario | worker/tasks.py:39-43 | with ids increasing in table order, two students of a class with two parents each reach the four parents once each, in ascending id order, and the `user` field decodes to them |
| Push.NotificationIn | worker/tasks.py:13 | a found notification is stored with that id; not found means no row has it |
| Push.PushRequest | worker/tasks.py:12-62 | builds the corrected `user` strings (ascending ids, each once), not the source's; a push names the stored row's id, and a missing row is not found |
| Push.PushCarriesNotification | worker/tasks.py:15-59 | the push carries the notification's id, owner, title, description, timestamp, date and class; it names the student exactly when one is targeted; its corrected `user` field decodes to the recipients, who are the student's parents when a student is targeted |
| Push.PushUntargetedIff | worker/tasks.py:61-62 | the push fails for want of a target iff the stored row has neither target |
| Push.CleanRowsHaveTarget | worker/tasks.py:61-62 | rows that passed `clean` never reach the "without target" exception |
| Push.RecipientsCanList | worker/tasks.py:15-43 | every Parent the push reaches finds the notification in its own listing |
| Strings.EncodeDecodeIds | worker/tasks.py:24 | the comma-joined decimal id list decodes back to exactly the ids, in order |
| Strings.LexSortFacts | worker/tasks.py:17-18 | `sorted` on strings returns a permutation in non-decreasing code-point order |
| Seqs.SortDescStable | api/views.py:139 | the descending sort keeps the input order among equal keys, so ties keep table or log order |
| Chat.ConversationIdSymmetric | chat/database.py:93-97 | the conversation id of (a, b) is that of (b, a) |
| Chat.ConversationIdInjective | chat/database.py:93-97 | two pairs share a conversation id iff they are the same unordered pair |
| Chat.ConversationId | chat/database.py:93-97 | the smaller id is the text before the dash and the larger the text after it |
| Chat.InvolvedConvIds | chat/database.py:32-40 | the conversation ids are listed without repetition |
| Chat.InvolvedConvIdsMember | chat/database.py:32-40 | the listed ids are exactly those of messages the user sent or received |
| Chat.Newest | chat/database.py:45-46 | the newest message is in the conversation and no message of it is newer |
| Chat.Summary | chat/database.py:45-75 | `last_read` is never later than the summary's time; the counterpart is the user itself only for a message it sent to itself |
| Chat.SummaryTimestamp | chat/database.py:45-75 | a summary's timestamp is the newest time in the conversation |
| Chat.SummaryLastMessage | chat/database.py:45-73 | the summary reports a newest message's text and sender, and the counterpart of the user in it |
| Chat.SummaryLastRead | chat/database.py:48-55 | `last_read` is absent iff no message of the conversation is read, and is otherwise the newest time among the read ones |
| Chat.ChatsCount | chat/database.py:32-44 | there is one summary per distinct conversation the user takes part in |
| Chat.ChatsSorted | chat/database.py:78-80 | the summaries are ordered by timestamp, newest first |
| Chat.ChatsPermutation | chat/database.py:42-80 | the sorted list is a reordering of the per-conversation summaries: the same multiset, so each summary appears exactly as many times as there are conversations giving it |
| Chat.ChatsMembers | chat/database.py:42-80 | the sorted list has the same members as the per-conversation summaries |
| Chat.ChatsCover | chat/database.py:32-76 | every conversation the user takes part in has its summary in the list |
| Chat.ChatsOnlyInvolved | chat/database.py:32-76 | the list holds only summaries of conversations the user takes part in |
| Chat.Chats | chat/database.py:28-80 | there is one summary per listed conversation id |
| Chat.PageFacts | chat/database.py:101-113 | a page is the first messages of the query sorted newest first, each taken at most once, as many as the limit allows; every one is of the conversation and below the cursor, and no left-out match is newer than a message on the page |
| Chat.PagePrefix | chat/database.py:110-113 | the page is a prefix of the sorted query and a sub-multiset of the matching messages |
| Chat.LimitCount | chat/database.py:110-113 | `limit(size)` is unlimited iff size is 0, and otherwise a positive count equal to size or its negation |
| Chat.Page | chat/database.py:101-113 | a page is no longer than the log, nor than a non-zero limit |
| Chat.HistoryEntries | chat/database.py:105-132 | the history fails only on a malformed cursor; otherwise it has one entry per page message with its id, sender, recipient, text and time, and a missing read flag reports false |
| Chat.History | chat/database.py:83-132 | the history fails iff the cursor is malformed; otherwise it has no more entries than the log, nor than a non-zero `size` allows |
| Chat.MarkReadFacts | chat/database.py:134-138 | marking changes only the read flag, only on messages of the query, and only to read; the others are unchanged |
| Chat.MarkRead | chat/database.py:134-138 | the log keeps its length, and every message keeps its id, conversation and time |
| Chat.MarkReadIdempotent | chat/database.py:134-138 | marking twice is marking once |
| Chat.MarkedConversation | chat/database.py:134-138 | marking a whole conversation reads every message and keeps their times |
| Chat.AllReadLastRead | chat/database.py:48-55 | when every message is read, `last_read` equals the summary's timestamp |
| Chat.MarkKeepsTimestamp | chat/database.py:134-138 | marking a whole conversation leaves its newest time unchanged |
| Chat.LastReadAfterMark | chat/database.py:134-138 | after a whole conversation is marked, its summary's `last_read` is its unchanged newest time |
| Chat.ChatStore.constructor | chat/database.py:29-30 | the store holds the given log |
| Chat.ChatStore.SummariesOf | chat/database.py:42-76 | the loop gives one summary per conversation id, in the given order |
| Chat.ChatStore.GetChats | chat/database.py:28-80 | the result is the sorted list of summaries of the user's conversations |
| Chat.ChatStore.GetChatHistory | chat/database.py:83-140 | the result is the history of the old log; with `mark_as_read` on success the log becomes the marked log, otherwise it is unchanged |

## Findings

| source | as written | input that shows it | evidently intended | confidence | as-written member | corrected member |
|---|---|---|---|---|---|---|
| worker/tasks.py:17-18 | the parents' ids are turned into strings and then sorted, so they come out in text order | a student with parents 9 and 10: `user` is "10,9" | ascending numeric id order, as the class branch gives with `order_by('id')` | not executed | Push.StudentOrderCounterexample | Push.StudentRecipients |
| worker/tasks.py:39-43 | the join through `children__attends` has no `distinct()`, so there is one row per parent and child in the class | parent 9 with children 11 and 12 in class 1: `user` is "9,9" | each recipient once | not executed | Push.ClassDuplicateCounterexample | Push.ClassRecipients |

The as-written strings are `Push.StudentUserFieldAsWritten` and `Push.ClassUserFieldAsWritten`.
The corrected strings are `Push.StudentUserField` and `Push.ClassUserField`.
`Push.PushRequest` uses the corrected strings, so the pushes the model describes carry the corrected `user` field.

## Left out

- Authentication (JWT), URL routing, DRF view plumbing and the serializers. They only project and validate fields.
- Connecting to MongoDB, Celery's `delay`, and the HTTP `requests.get` to the push gateway. The enqueue is a recorded id in `pushQueue`; a push is its parameter record `Push.PushParams`.
- `strftime` formatting of dates and timestamps. Both are integers.
- The inner structure of ObjectId and hex parsing. A cursor is a number or `BadOid`.
- The default `size=50` of `get_chat_history`. The caller passes `size`.
- The HTTP views over the chat index (`ChatsView`, `ChatsHistoryView`) and their parsing of ids. The model starts at the functions they call.
- Display names of chat users (`first_name`, `last_name` via `User.objects.get`). Summaries and entries name users by id, and the `DoesNotExist` of those lookups is not modelled.
- `custom_fields`: an opaque JSON payload stored verbatim.
- The `type` filter backend of the notification list (`filter_fields = ('type',)`). It is framework filtering applied after `get_queryset`.
- Notifications with a null `date`: the date is a non-null integer.
- `ClassesService`, `GetUserParents`, `UsersService.retrieve` and `AuthUser`. They return unfiltered rows or the principal itself, so there is nothing to prove.
- Email normalisation in `create_user`, and passwords.
- `perform_create` lets any authenticated principal create. The model keeps this; no role check is added.
- Visibility.StudentListsNothing: the source's Student listing fails with `FieldError` when the queryset is evaluated, because `order_by('-date')` names a field `User` lacks; the model returns the empty set, as the design describes.
- Visibility.VisibleUsers: the listing is a set of user ids. The ORM's row order of the users listing is not modelled.
- Chat.ChatStore.GetChatHistory: `read` is a flag in the model. The store's `$set` of a field that may be absent is an update of that flag.
