/** The chat index of chat/database.py: the `chats_history` collection, the per-user list
    of conversations, and the paged history of one conversation that marks it as read. */
module Chat {
  import opened Wrappers
  import opened Seqs
  import opened Strings
  import opened Models

  /** A `chats_history` document; `id` stands for the ObjectId, ordered as ObjectIds are, and
      `read` is absent until the conversation is first marked. */
  datatype Message = Message(
    id: nat,
    from: UserId,
    to: UserId,
    convId: string,
    body: string,
    ts: int,
    read: Option<bool>)

  /** One entry of `get_chats`; users are given by id. */
  datatype ChatSummary = ChatSummary(
    user: UserId,
    lastUserFrom: UserId,
    lastMessage: string,
    lastRead: Option<int>,
    timestamp: int)

  /** One entry of `get_chat_history`. */
  datatype HistoryEntry = HistoryEntry(id: nat, from: UserId, to: UserId, body: string, ts: int, read: bool)

  /** `'{}-{}'.format(lo, hi)` with the smaller id first. */
  function ConversationId(a: UserId, b: UserId): (r: string)
    ensures '-' in r && r[..IndexOf(r, '-')] == NatToString(if a < b then a else b) &&
            r[IndexOf(r, '-') + 1..] == NatToString(if a < b then b else a)
  {
    ConversationIdParts(if a < b then a else b, if a < b then b else a);
    if a < b then NatToString(a) + ['-'] + NatToString(b)
    else NatToString(b) + ['-'] + NatToString(a)
  }

  lemma ConversationIdSymmetric(a: UserId, b: UserId)
    ensures ConversationId(a, b) == ConversationId(b, a)
  {
  }

  lemma NoDashInDigits(s: string)
    requires AllDigits(s)
    ensures '-' !in s
  {
    forall i | 0 <= i < |s| ensures s[i] != '-' {
      assert IsDigit(s[i]);
    }
  }

  /** The two ids can be read back from the text before and after the dash. */
  lemma ConversationIdParts(lo: UserId, hi: UserId)
    ensures var s := NatToString(lo) + ['-'] + NatToString(hi);
            '-' in s && s[..IndexOf(s, '-')] == NatToString(lo) && s[IndexOf(s, '-') + 1..] == NatToString(hi)
  {
    NoDashInDigits(NatToString(lo));
    IndexOfAfterPrefix(NatToString(lo), '-', NatToString(hi));
    var s := NatToString(lo) + ['-'] + NatToString(hi);
    assert s[..|NatToString(lo)|] == NatToString(lo);
    assert s[|NatToString(lo)| + 1..] == NatToString(hi);
  }

  /** Two pairs of users share a conversation id exactly when they are the same pair. */
  lemma ConversationIdInjective(a: UserId, b: UserId, c: UserId, d: UserId)
    ensures ConversationId(a, b) == ConversationId(c, d) <==> (a == c && b == d) || (a == d && b == c)
  {
    var lo1, hi1 := if a < b then a else b, if a < b then b else a;
    var lo2, hi2 := if c < d then c else d, if c < d then d else c;
    if ConversationId(a, b) == ConversationId(c, d) {
      ConversationIdParts(lo1, hi1);
      ConversationIdParts(lo2, hi2);
      NatToStringInjective(lo1, lo2);
      NatToStringInjective(hi1, hi2);
    }
  }

  predicate Involves(m: Message, u: UserId)
  {
    m.from == u || m.to == u
  }

  function ConvIdsOf(log: seq<Message>): (r: seq<string>)
    ensures |r| == |log| && forall i :: 0 <= i < |log| ==> r[i] == log[i].convId
  {
    seq(|log|, i requires 0 <= i < |log| => log[i].convId)
  }

  /** `find({'$or': [...]}).distinct('conversation_id')`, in order of first occurrence. */
  function InvolvedConvIds(log: seq<Message>, u: UserId): (r: seq<string>)
    ensures Distinct(r)
  {
    Dedup(ConvIdsOf(Filter(log, (m: Message) => Involves(m, u))))
  }

  /** The conversation ids listed are exactly those of the messages `u` sent or received. */
  lemma InvolvedConvIdsMember(log: seq<Message>, u: UserId, c: string)
    ensures c in InvolvedConvIds(log, u) <==> exists m :: m in log && Involves(m, u) && m.convId == c
  {
    var f := Filter(log, (m: Message) => Involves(m, u));
    var ids := ConvIdsOf(f);
    var r := Dedup(ids);
    if c in r {
      var i :| 0 <= i < |r| && r[i] == c;
      var j :| 0 <= j < |ids| && ids[j] == c;
      FilterMember(log, (m: Message) => Involves(m, u), f[j]);
    }
    if exists m :: m in log && Involves(m, u) && m.convId == c {
      var m :| m in log && Involves(m, u) && m.convId == c;
      FilterMember(log, (m: Message) => Involves(m, u), m);
      var j :| 0 <= j < |f| && f[j] == m;
      assert ids[j] == c;
    }
  }

  function Conversation(log: seq<Message>, cid: string): seq<Message>
  {
    Filter(log, (m: Message) => m.convId == cid)
  }

  function Ts(m: Message): int
  {
    m.ts
  }

  predicate IsRead(m: Message)
  {
    m.read == Some(true)
  }

  /** `find(..., sort=[('timestamp', DESCENDING)]).limit(1)[0]`. */
  function Newest(msgs: seq<Message>): (m: Message)
    requires msgs != []
    ensures m in msgs && forall x :: x in msgs ==> x.ts <= m.ts
  {
    SortDescMembers(msgs, Ts);
    HeadIsMax(SortDesc(msgs, Ts), Ts);
    SortDesc(msgs, Ts)[0]
  }

  /** The summary of one conversation as seen by `u`. */
  function Summary(log: seq<Message>, u: UserId, cid: string): (r: ChatSummary)
    requires Conversation(log, cid) != []
    ensures r.lastRead.Some? ==> r.lastRead.value <= r.timestamp
    ensures r.user == u ==> Newest(Conversation(log, cid)).from == u && Newest(Conversation(log, cid)).to == u
  {
    var doc := Newest(Conversation(log, cid));
    var readMsgs := Filter(Conversation(log, cid), IsRead);
    var user := if doc.from != u then doc.from else doc.to;
    if readMsgs == [] then ChatSummary(user, doc.from, doc.body, None, doc.ts)
    else
      FilterMember(Conversation(log, cid), IsRead, Newest(readMsgs));
      ChatSummary(user, doc.from, doc.body, Some(Newest(readMsgs).ts), doc.ts)
  }

  predicate AllNonEmpty(log: seq<Message>, ids: seq<string>)
  {
    forall i :: 0 <= i < |ids| ==> Conversation(log, ids[i]) != []
  }

  function Summaries(log: seq<Message>, u: UserId, ids: seq<string>): (r: seq<ChatSummary>)
    requires AllNonEmpty(log, ids)
    ensures |r| == |ids| && forall i :: 0 <= i < |ids| ==> r[i] == Summary(log, u, ids[i])
  {
    seq(|ids|, i requires 0 <= i < |ids| => Summary(log, u, ids[i]))
  }

  lemma ConversationNonEmpty(log: seq<Message>, m: Message)
    requires m in log
    ensures m in Conversation(log, m.convId)
  {
    FilterMember(log, (x: Message) => x.convId == m.convId, m);
  }

  lemma InvolvedNonEmpty(log: seq<Message>, u: UserId)
    ensures AllNonEmpty(log, InvolvedConvIds(log, u))
  {
    var ids := InvolvedConvIds(log, u);
    forall i | 0 <= i < |ids| ensures Conversation(log, ids[i]) != [] {
      InvolvedConvIdsMember(log, u, ids[i]);
      var m :| m in log && Involves(m, u) && m.convId == ids[i];
      ConversationNonEmpty(log, m);
    }
  }

  function SummaryTs(c: ChatSummary): int
  {
    c.timestamp
  }

  /** `get_chats(u)`: one summary per conversation `u` takes part in, newest first. */
  function Chats(log: seq<Message>, u: UserId): (r: seq<ChatSummary>)
    ensures |r| == |InvolvedConvIds(log, u)|
  {
    InvolvedNonEmpty(log, u);
    SortDescMembers(Summaries(log, u, InvolvedConvIds(log, u)), SummaryTs);
    SortDesc(Summaries(log, u, InvolvedConvIds(log, u)), SummaryTs)
  }

  lemma ConversationMember(log: seq<Message>, cid: string, m: Message)
    ensures m in Conversation(log, cid) <==> m in log && m.convId == cid
  {
    FilterMember(log, (x: Message) => x.convId == cid, m);
  }

  /** The summary's time is the newest time in the conversation. */
  lemma SummaryTimestamp(log: seq<Message>, u: UserId, cid: string)
    requires Conversation(log, cid) != []
    ensures var s := Summary(log, u, cid);
            (forall m :: m in log && m.convId == cid ==> m.ts <= s.timestamp) &&
            (exists m :: m in log && m.convId == cid && m.ts == s.timestamp)
  {
    forall m ensures m in Conversation(log, cid) <==> m in log && m.convId == cid {
      ConversationMember(log, cid, m);
    }
    assert Newest(Conversation(log, cid)) in Conversation(log, cid);
  }

  /** The summary reports the newest message: its text, its sender, and the counterpart of
      `u` in it. */
  lemma SummaryLastMessage(log: seq<Message>, u: UserId, cid: string)
    requires Conversation(log, cid) != []
    ensures var s := Summary(log, u, cid);
            exists m :: m in log && m.convId == cid && m.ts == s.timestamp && m.body == s.lastMessage &&
                        m.from == s.lastUserFrom && s.user == (if m.from != u then m.from else m.to)
  {
    ConversationMember(log, cid, Newest(Conversation(log, cid)));
  }

  /** The last-read time is absent exactly when no message of the conversation is read, and
      is otherwise the newest time among the read ones. */
  lemma SummaryLastRead(log: seq<Message>, u: UserId, cid: string)
    requires Conversation(log, cid) != []
    ensures var s := Summary(log, u, cid);
            (s.lastRead.None? <==> forall m :: m in log && m.convId == cid ==> !IsRead(m)) &&
            (s.lastRead.Some? ==>
               (forall m :: m in log && m.convId == cid && IsRead(m) ==> m.ts <= s.lastRead.value) &&
               (exists m :: m in log && m.convId == cid && IsRead(m) && m.ts == s.lastRead.value))
  {
    var conv := Conversation(log, cid);
    var readMsgs := Filter(conv, IsRead);
    forall m ensures m in conv <==> m in log && m.convId == cid {
      ConversationMember(log, cid, m);
    }
    forall m | m in conv && IsRead(m) ensures m in readMsgs {
      FilterMember(conv, IsRead, m);
    }
    if readMsgs != [] {
      FilterMember(conv, IsRead, readMsgs[0]);
      FilterMember(conv, IsRead, Newest(readMsgs));
    }
  }

  lemma {:induction false} DistinctCard(r: seq<string>)
    requires Distinct(r)
    ensures |set x | x in r| == |r|
    decreases r
  {
    if r != [] {
      DistinctTail(r);
      DistinctCard(r[1..]);
      assert (set x | x in r) == {r[0]} + (set x | x in r[1..]);
    }
  }

  /** There are as many summaries as distinct conversations `u` takes part in. */
  lemma ChatsCount(log: seq<Message>, u: UserId)
    ensures |Chats(log, u)| == |set m | m in log && Involves(m, u) :: m.convId|
  {
    var ids := InvolvedConvIds(log, u);
    InvolvedNonEmpty(log, u);
    SortDescMembers(Summaries(log, u, ids), SummaryTs);
    forall c ensures c in ids <==> exists m :: m in log && Involves(m, u) && m.convId == c {
      InvolvedConvIdsMember(log, u, c);
    }
    assert (set m | m in log && Involves(m, u) :: m.convId) == set x | x in ids;
    DistinctCard(ids);
  }

  /** The summaries run newest first. */
  lemma ChatsSorted(log: seq<Message>, u: UserId)
    ensures forall i, j :: 0 <= i < j < |Chats(log, u)| ==> Chats(log, u)[i].timestamp >= Chats(log, u)[j].timestamp
  {
    var ids := InvolvedConvIds(log, u);
    InvolvedNonEmpty(log, u);
    SortDescMembers(Summaries(log, u, ids), SummaryTs);
    var r := Chats(log, u);
    forall i, j | 0 <= i < j < |r| ensures r[i].timestamp >= r[j].timestamp {
      assert SummaryTs(r[i]) >= SummaryTs(r[j]);
    }
  }

  /** The list is a reordering of the per-conversation summaries, repeats included. */
  lemma ChatsPermutation(log: seq<Message>, u: UserId)
    ensures AllNonEmpty(log, InvolvedConvIds(log, u))
    ensures multiset(Chats(log, u)) == multiset(Summaries(log, u, InvolvedConvIds(log, u)))
  {
    InvolvedNonEmpty(log, u);
    SortDescFacts(Summaries(log, u, InvolvedConvIds(log, u)), SummaryTs);
  }

  /** The list has the same members as the per-conversation summaries. */
  lemma ChatsMembers(log: seq<Message>, u: UserId, c: ChatSummary)
    ensures AllNonEmpty(log, InvolvedConvIds(log, u))
    ensures c in Chats(log, u) <==> c in Summaries(log, u, InvolvedConvIds(log, u))
  {
    ChatsPermutation(log, u);
    var ss := Summaries(log, u, InvolvedConvIds(log, u));
    assert c in Chats(log, u) <==> c in multiset(Chats(log, u));
    assert c in ss <==> c in multiset(ss);
  }

  /** Every conversation `u` takes part in has its summary in the list. */
  lemma ChatsCover(log: seq<Message>, u: UserId, m: Message)
    requires m in log && Involves(m, u)
    ensures Conversation(log, m.convId) != [] && Summary(log, u, m.convId) in Chats(log, u)
  {
    var ids := InvolvedConvIds(log, u);
    InvolvedNonEmpty(log, u);
    ConversationNonEmpty(log, m);
    InvolvedConvIdsMember(log, u, m.convId);
    var k :| 0 <= k < |ids| && ids[k] == m.convId;
    assert Summaries(log, u, ids)[k] == Summary(log, u, m.convId);
    ChatsMembers(log, u, Summary(log, u, m.convId));
  }

  /** The list holds nothing but summaries of conversations `u` takes part in. */
  lemma ChatsOnlyInvolved(log: seq<Message>, u: UserId, c: ChatSummary)
    requires c in Chats(log, u)
    ensures exists m :: m in log && Involves(m, u) && Conversation(log, m.convId) != [] &&
                        c == Summary(log, u, m.convId)
  {
    var ids := InvolvedConvIds(log, u);
    ChatsMembers(log, u, c);
    var ss := Summaries(log, u, ids);
    var j :| 0 <= j < |ss| && ss[j] == c;
    InvolvedConvIdsMember(log, u, ids[j]);
    var m :| m in log && Involves(m, u) && m.convId == ids[j];
  }

  // ---------------------------------------------------------------------------------------
  // The paged history.

  /** The `from` cursor: a valid ObjectId, or text `ObjectId(...)` refuses. */
  datatype Cursor = Oid(n: nat) | BadOid

  datatype ChatError = InvalidId

  /** The history query: the conversation, and ids below the cursor when one is given. */
  predicate InQuery(m: Message, cid: string, before: Option<nat>)
  {
    m.convId == cid && (before.None? || m.id < before.value)
  }

  /** `limit(size)` in MongoDB: zero means no limit and a negative size counts as its magnitude. */
  function LimitCount(size: int): (r: Option<nat>)
    ensures r.None? <==> size == 0
    ensures r.Some? ==> r.value > 0 && (r.value == size || r.value == -size)
  {
    if size == 0 then None else if size < 0 then Some(-size) else Some(size)
  }

  function Limit(s: seq<Message>, lim: Option<nat>): seq<Message>
  {
    if lim.None? then s else Take(s, lim.value)
  }

  /** The messages of one history page, newest first. */
  function Page(log: seq<Message>, cid: string, size: int, before: Option<nat>): (r: seq<Message>)
    ensures |r| <= |log|
    ensures LimitCount(size).Some? ==> |r| <= LimitCount(size).value
  {
    SortDescMembers(Filter(log, (m: Message) => InQuery(m, cid, before)), Ts);
    Limit(SortDesc(Filter(log, (m: Message) => InQuery(m, cid, before)), Ts), LimitCount(size))
  }

  function Entry(m: Message): HistoryEntry
  {
    HistoryEntry(m.id, m.from, m.to, m.body, m.ts, if m.read.Some? then m.read.value else false)
  }

  function Entries(ms: seq<Message>): (r: seq<HistoryEntry>)
    ensures |r| == |ms| && forall i :: 0 <= i < |ms| ==> r[i] == Entry(ms[i])
  {
    seq(|ms|, i requires 0 <= i < |ms| => Entry(ms[i]))
  }

  function CursorOf(from: Option<Cursor>): Option<nat>
  {
    if from.Some? && from.value.Oid? then Some(from.value.n) else None
  }

  /** `get_chat_history` without its side effect. */
  function History(log: seq<Message>, u1: UserId, u2: UserId, size: int, from: Option<Cursor>): (r: Result<seq<HistoryEntry>, ChatError>)
    ensures r.Err? <==> from == Some(BadOid)
    ensures r.Ok? ==> (size != 0 ==> |r.value| <= LimitCount(size).value) && |r.value| <= |log|
  {
    if from == Some(BadOid) then Err(InvalidId)
    else Ok(Entries(Page(log, ConversationId(u1, u2), size, CursorOf(from))))
  }

  /** `update_many(query, {'$set': {'read': True}})`. */
  function MarkRead(log: seq<Message>, cid: string, before: Option<nat>): (r: seq<Message>)
    ensures |r| == |log|
    ensures forall i :: 0 <= i < |log| ==> r[i].id == log[i].id && r[i].convId == log[i].convId && r[i].ts == log[i].ts
  {
    seq(|log|, i requires 0 <= i < |log| => if InQuery(log[i], cid, before) then log[i].(read := Some(true)) else log[i])
  }

  /** The page is a prefix of the sorted query, so it takes each matching message at most once. */
  lemma PagePrefix(log: seq<Message>, cid: string, size: int, before: Option<nat>)
    ensures var page := Page(log, cid, size, before);
            var matching := Filter(log, (m: Message) => InQuery(m, cid, before));
            page == SortDesc(matching, Ts)[..|page|] && multiset(page) <= multiset(matching)
  {
    var matching := Filter(log, (m: Message) => InQuery(m, cid, before));
    var sorted := SortDesc(matching, Ts);
    SortDescFacts(matching, Ts);
    var page := Page(log, cid, size, before);
    assert page == sorted[..|page|];
    assert sorted == page + sorted[|page|..];
    assert multiset(sorted) == multiset(page) + multiset(sorted[|page|..]);
  }

  /** A page is the first messages of the query sorted newest first, each taken once, as many
      as the limit allows; no message of the query left off the page is newer than one on it. */
  lemma PageFacts(log: seq<Message>, cid: string, size: int, before: Option<nat>)
    ensures var page := Page(log, cid, size, before);
            var matching := Filter(log, (m: Message) => InQuery(m, cid, before));
            (forall m :: m in page ==> m in log && InQuery(m, cid, before)) &&
            (forall i, j :: 0 <= i < j < |page| ==> page[i].ts >= page[j].ts) &&
            |page| == (if LimitCount(size).None? || |matching| <= LimitCount(size).value then |matching|
                       else LimitCount(size).value) &&
            (forall m, p :: m in matching && m !in page && p in page ==> m.ts <= p.ts) &&
            page == SortDesc(matching, Ts)[..|page|] &&
            multiset(page) <= multiset(matching)
  {
    var matching := Filter(log, (m: Message) => InQuery(m, cid, before));
    var sorted := SortDesc(matching, Ts);
    SortDescMembers(matching, Ts);
    PagePrefix(log, cid, size, before);
    var page := Page(log, cid, size, before);
    assert forall k :: 0 <= k < |page| ==> page[k] == sorted[k];
    forall m | m in page ensures m in log && InQuery(m, cid, before) {
      FilterMember(log, (m: Message) => InQuery(m, cid, before), m);
    }
    forall i, j | 0 <= i < j < |page| ensures page[i].ts >= page[j].ts {
      assert Ts(sorted[i]) >= Ts(sorted[j]);
    }
    forall m, p | m in matching && m !in page && p in page ensures m.ts <= p.ts {
      var a :| 0 <= a < |sorted| && sorted[a] == m;
      var b :| 0 <= b < |page| && page[b] == p;
      assert Ts(sorted[b]) >= Ts(sorted[a]);
    }
  }

  /** The history fails only on a malformed cursor; otherwise it reports the page of the
      conversation of the two users, one entry per message, with a missing read flag as false. */
  lemma HistoryEntries(log: seq<Message>, u1: UserId, u2: UserId, size: int, from: Option<Cursor>)
    ensures History(log, u1, u2, size, from).Err? <==> from == Some(BadOid)
    ensures var r := History(log, u1, u2, size, from);
            var page := Page(log, ConversationId(u1, u2), size, CursorOf(from));
            r.Ok? ==> |r.value| == |page| &&
                      forall i :: 0 <= i < |page| ==>
                        r.value[i].id == page[i].id && r.value[i].ts == page[i].ts &&
                        r.value[i].body == page[i].body && r.value[i].from == page[i].from &&
                        r.value[i].to == page[i].to &&
                        (r.value[i].read <==> page[i].read == Some(true))
  {
  }

  /** Only the read flag changes, only on messages of the query, and only to read. */
  lemma MarkReadFacts(log: seq<Message>, cid: string, before: Option<nat>)
    ensures var r := MarkRead(log, cid, before);
            |r| == |log| &&
            (forall i :: 0 <= i < |log| ==> r[i].(read := log[i].read) == log[i]) &&
            (forall i :: 0 <= i < |log| ==> (IsRead(r[i]) <==> IsRead(log[i]) || InQuery(log[i], cid, before))) &&
            (forall i :: 0 <= i < |log| && !InQuery(log[i], cid, before) ==> r[i] == log[i])
  {
  }

  /** Marking twice is marking once. */
  lemma MarkReadIdempotent(log: seq<Message>, cid: string, before: Option<nat>)
    ensures MarkRead(MarkRead(log, cid, before), cid, before) == MarkRead(log, cid, before)
  {
  }

  /** Marking a whole conversation keeps the times of its messages and reads all of them. */
  lemma MarkedConversation(log: seq<Message>, cid: string)
    ensures var log' := MarkRead(log, cid, None);
            (forall m' :: m' in log' && m'.convId == cid ==> IsRead(m') && exists m :: m in log && m.convId == cid && m.ts == m'.ts) &&
            (forall m :: m in log && m.convId == cid ==> exists m' :: m' in log' && m'.convId == cid && m'.ts == m.ts)
  {
    var log' := MarkRead(log, cid, None);
    forall m' | m' in log' && m'.convId == cid
      ensures IsRead(m') && exists m :: m in log && m.convId == cid && m.ts == m'.ts
    {
      var k :| 0 <= k < |log'| && log'[k] == m';
      assert log[k] in log;
    }
    forall m | m in log && m.convId == cid
      ensures exists m' :: m' in log' && m'.convId == cid && m'.ts == m.ts
    {
      var k :| 0 <= k < |log| && log[k] == m;
      assert log'[k] in log';
    }
  }

  /** When every message of a conversation is read, the last-read time is the newest time. */
  lemma AllReadLastRead(log: seq<Message>, u: UserId, cid: string)
    requires Conversation(log, cid) != []
    requires forall m :: m in log && m.convId == cid ==> IsRead(m)
    ensures Summary(log, u, cid).lastRead == Some(Summary(log, u, cid).timestamp)
  {
    SummaryTimestamp(log, u, cid);
    SummaryLastRead(log, u, cid);
    var s := Summary(log, u, cid);
    var m :| m in log && m.convId == cid && m.ts == s.timestamp;
    assert s.lastRead.Some?;
    var rm :| rm in log && rm.convId == cid && IsRead(rm) && rm.ts == s.lastRead.value;
  }

  /** A message of `a`'s conversation whose time is matched in `b`'s conversation is no newer
      than `b`'s newest. */
  lemma NoNewerThan(a: seq<Message>, b: seq<Message>, u: UserId, cid: string, k: nat)
    requires Conversation(a, cid) != [] && Conversation(b, cid) != []
    requires k < |a| && k < |b| && a[k] == Newest(Conversation(a, cid))
    requires b[k].convId == a[k].convId && b[k].ts == a[k].ts
    ensures Summary(a, u, cid).timestamp <= Summary(b, u, cid).timestamp
  {
    ConversationMember(a, cid, a[k]);
    ConversationMember(b, cid, b[k]);
  }

  lemma NewestIndex(log: seq<Message>, cid: string) returns (k: nat)
    requires Conversation(log, cid) != []
    ensures k < |log| && log[k] == Newest(Conversation(log, cid)) && log[k].convId == cid
  {
    ConversationMember(log, cid, Newest(Conversation(log, cid)));
    k :| 0 <= k < |log| && log[k] == Newest(Conversation(log, cid));
  }

  /** Marking a whole conversation leaves its newest time where it was. */
  lemma MarkKeepsTimestamp(log: seq<Message>, u: UserId, cid: string)
    requires Conversation(log, cid) != []
    ensures Conversation(MarkRead(log, cid, None), cid) != []
    ensures Summary(MarkRead(log, cid, None), u, cid).timestamp == Summary(log, u, cid).timestamp
  {
    var log' := MarkRead(log, cid, None);
    MarkReadFacts(log, cid, None);
    var k := NewestIndex(log, cid);
    assert log'[k].convId == cid;
    ConversationNonEmpty(log', log'[k]);
    NoNewerThan(log, log', u, cid, k);
    var k' := NewestIndex(log', cid);
    assert log[k'].convId == log'[k'].convId && log[k'].ts == log'[k'].ts;
    ConversationNonEmpty(log, log[k']);
    NoNewerThan(log', log, u, cid, k');
  }

  /** After the whole conversation is marked, its summary reports the newest message as the
      last read one, and the newest message's time is unchanged. */
  lemma LastReadAfterMark(log: seq<Message>, u: UserId, cid: string)
    requires Conversation(log, cid) != []
    ensures Conversation(MarkRead(log, cid, None), cid) != []
    ensures Summary(MarkRead(log, cid, None), u, cid).timestamp == Summary(log, u, cid).timestamp
    ensures Summary(MarkRead(log, cid, None), u, cid).lastRead == Some(Summary(log, u, cid).timestamp)
  {
    MarkKeepsTimestamp(log, u, cid);
    MarkedConversation(log, cid);
    AllReadLastRead(MarkRead(log, cid, None), u, cid);
  }

  class ChatStore {
    var log: seq<Message>

    constructor (messages: seq<Message>)
      ensures log == messages
    {
      log := messages;
    }

    /** The loop of `get_chats`: one summary per conversation id, in the order given. */
    method SummariesOf(u: UserId, ids: seq<string>) returns (chats: seq<ChatSummary>)
      requires AllNonEmpty(log, ids)
      ensures chats == Summaries(log, u, ids)
    {
      chats := [];
      var i := 0;
      while i < |ids|
        invariant 0 <= i <= |ids|
        invariant |chats| == i
        invariant forall k :: 0 <= k < i ==> chats[k] == Summary(log, u, ids[k])
      {
        chats := chats + [Summary(log, u, ids[i])];
        i := i + 1;
      }
    }

    /** `get_chats`: a summary per involved conversation, then sorted newest first. */
    method GetChats(u: UserId) returns (r: seq<ChatSummary>)
      ensures r == Chats(log, u)
    {
      var ids := InvolvedConvIds(log, u);
      InvolvedNonEmpty(log, u);
      var chats := SummariesOf(u, ids);
      r := SortDesc(chats, SummaryTs);
    }

    /** `get_chat_history`: the page of the conversation of `u1` and `u2`, then, when asked,
        every message of the query marked as read. */
    method GetChatHistory(u1: UserId, u2: UserId, size: int, from: Option<Cursor>, markAsRead: bool)
      returns (r: Result<seq<HistoryEntry>, ChatError>)
      modifies this`log
      ensures r == History(old(log), u1, u2, size, from)
      ensures log == if r.Ok? && markAsRead then MarkRead(old(log), ConversationId(u1, u2), CursorOf(from)) else old(log)
    {
      var cid;
      if u1 < u2 {
        cid := NatToString(u1) + ['-'] + NatToString(u2);
      } else {
        cid := NatToString(u2) + ['-'] + NatToString(u1);
      }
      var before: Option<nat> := None;
      if from.Some? {
        if from.value.BadOid? { return Err(InvalidId); }
        before := Some(from.value.n);
      }
      var page := Page(log, cid, size, before);
      var messages: seq<HistoryEntry> := [];
      var i := 0;
      while i < |page|
        invariant 0 <= i <= |page|
        invariant |messages| == i
        invariant forall k :: 0 <= k < i ==> messages[k] == Entry(page[k])
      {
        messages := messages + [Entry(page[i])];
        i := i + 1;
      }
      assert messages == Entries(page);
      if markAsRead {
        log := MarkRead(log, cid, before);
      }
      r := Ok(messages);
    }
  }
}
