// The message table of Database.cpp: saving, marking, pulling and paging.

module MessageLog {
  import C = ConversationId
  import Q = DbWriteQueue
  import opened Sorting

  datatype Body = Body(kind: int, content: string, mediaPath: string, width: int, height: int,
                       fileId: string, fileSize: int, contentType: string, sha256: string)

  datatype Message = Message(msgId: string, sender: int, receiver: int, body: Body, ts: int)

  /** A row of messages; its row id is its position in the log. */
  datatype Stored = Stored(m: Message, conversation: int, number: int)

  /** The rows in order of insertion, and the msg_ids whose is_delivered column is 1. */
  datatype Table = Table(log: seq<Stored>, delivered: set<string>)

  const Empty := Table([], {})

  /** The position of a message id, or the number of rows. */
  function IndexOf(log: seq<Stored>, msgId: string): (i: nat)
    ensures i <= |log|
    ensures i < |log| ==> log[i].m.msgId == msgId
    ensures forall j :: 0 <= j < i ==> log[j].m.msgId != msgId
  {
    if |log| == 0 then 0
    else if log[0].m.msgId == msgId then 0
    else 1 + IndexOf(log[1..], msgId)
  }

  /** COALESCE(MAX(seq), 0) over one conversation. */
  function LastNumber(log: seq<Stored>, conversation: int): int {
    if |log| == 0 then 0
    else
      var before := LastNumber(log[..|log| - 1], conversation);
      var s := log[|log| - 1];
      if s.conversation == conversation && s.number > before then s.number else before
  }

  function ConversationOf(m: Message): int { C.MakeConversationId(m.sender, m.receiver) }

  function NextRow(log: seq<Stored>, m: Message): Stored {
    Stored(m, ConversationOf(m), LastNumber(log, ConversationOf(m)) + 1)
  }

  /** saveMessage, committed: the table afterwards and the number handed back. */
  function Save(t: Table, m: Message, delivered: bool): (Table, int) {
    var i := IndexOf(t.log, m.msgId);
    if i < |t.log| then (t, t.log[i].number)
    else
      var row := NextRow(t.log, m);
      (Table(t.log + [row], if delivered then t.delivered + {m.msgId} else t.delivered), row.number)
  }

  predicate Has(log: seq<Stored>, msgId: string) { IndexOf(log, msgId) < |log| }

  /** markDelivered: unknown ids change no row. */
  function Mark(t: Table, ids: seq<string>): Table {
    t.(delivered := t.delivered + set id | id in ids && Has(t.log, id))
  }

  /** What the write queue carries out; a failed transaction is rolled back. */
  datatype Write = SaveOf(m: Message, delivered: bool) | MarkOf(ids: seq<string>) | Failing(error: string)

  function Exec(t: Table, w: Write): (Table, Q.Outcome<int>) {
    match w
    case SaveOf(m, delivered) => var r := Save(t, m, delivered); (r.0, Q.Returned(r.1))
    case MarkOf(ids) => (Mark(t, ids), Q.Returned(0))
    case Failing(error) => (t, Q.Thrown(error))
  }

  function After(t: Table, writes: seq<Write>): Table { Q.Sequential(Exec, t, writes) }

  /** The rows of one conversation, oldest first. */
  function Of(log: seq<Stored>, conversation: int): (out: seq<Stored>)
    ensures forall s :: s in out <==> s in log && s.conversation == conversation
  {
    Only((s: Stored) => s.conversation == conversation, log)
  }

  lemma OfAppend(log: seq<Stored>, s: Stored, conversation: int)
    ensures Of(log + [s], conversation) == Of(log, conversation) + (if s.conversation == conversation then [s] else [])
  {
    assert (log + [s])[..|log|] == log;
  }

  ghost predicate Consecutive(rows: seq<Stored>) {
    forall i :: 0 <= i < |rows| ==> rows[i].number == i + 1
  }

  ghost predicate DistinctIds(log: seq<Stored>) {
    forall i, j :: 0 <= i < j < |log| ==> log[i].m.msgId != log[j].m.msgId
  }

  /** UNIQUE(conversation_id, seq). */
  ghost predicate UniqueNumbers(log: seq<Stored>) {
    forall i, j :: 0 <= i < j < |log| ==>
      !(log[i].conversation == log[j].conversation && log[i].number == log[j].number)
  }

  /** In every conversation the numbers are exactly 1, 2, ..., n in order of insertion. */
  ghost predicate Numbered(log: seq<Stored>) {
    && DistinctIds(log)
    && (forall s :: s in log ==> s.conversation == ConversationOf(s.m))
    && forall c :: Consecutive(Of(log, c))
  }

  lemma {:induction false} LastNumberBounds(log: seq<Stored>, c: int)
    ensures LastNumber(log, c) >= 0
    ensures forall s :: s in log && s.conversation == c ==> s.number <= LastNumber(log, c)
    ensures LastNumber(log, c) > 0 ==> exists s :: s in log && s.conversation == c && s.number == LastNumber(log, c)
  {
    if |log| > 0 {
      LastNumberBounds(log[..|log| - 1], c);
      assert log == log[..|log| - 1] + [log[|log| - 1]];
    }
  }

  /** MAX(seq) is the number of messages. */
  lemma LastNumberIsCount(log: seq<Stored>, c: int)
    requires Consecutive(Of(log, c))
    ensures LastNumber(log, c) == |Of(log, c)|
  {
    LastNumberBounds(log, c);
    var rows := Of(log, c);
    if |rows| > 0 {
      assert rows[|rows| - 1] in rows;
    }
    if LastNumber(log, c) > 0 {
      var s :| s in log && s.conversation == c && s.number == LastNumber(log, c);
      assert s in rows;
    }
  }

  lemma SaveKeeps(t: Table, m: Message, delivered: bool)
    requires Numbered(t.log)
    ensures Numbered(Save(t, m, delivered).0.log)
  {
    if !Has(t.log, m.msgId) {
      var row := NextRow(t.log, m);
      forall c ensures Consecutive(Of(t.log + [row], c)) {
        assert Consecutive(Of(t.log, c));
        LastNumberIsCount(t.log, c);
        OfAppend(t.log, row, c);
      }
    }
  }

  /** The insertion never meets a row with its conversation and number, in any table at all. */
  lemma InsertMeetsNoClash(log: seq<Stored>, m: Message)
    ensures forall s :: s in log ==>
              !(s.conversation == NextRow(log, m).conversation && s.number == NextRow(log, m).number)
    ensures UniqueNumbers(log) ==> UniqueNumbers(log + [NextRow(log, m)])
  {
    LastNumberBounds(log, ConversationOf(m));
  }

  /** From an empty table, whatever is saved, marked, or fails: every conversation is
      numbered 1..n, no id is stored twice, and the unique index always holds. */
  lemma {:induction false} NumbersAreConsecutive(writes: seq<Write>)
    ensures Numbered(After(Empty, writes).log) && UniqueNumbers(After(Empty, writes).log)
    ensures forall id :: id in After(Empty, writes).delivered ==> Has(After(Empty, writes).log, id)
  {
    if |writes| > 0 {
      var t, w := After(Empty, writes[..|writes| - 1]), writes[|writes| - 1];
      NumbersAreConsecutive(writes[..|writes| - 1]);
      WriteKeeps(t, w);
      assert After(Empty, writes) == Exec(t, w).0;
      hide Exec, Numbered, UniqueNumbers, Has;
    }
  }

  lemma WriteKeeps(t: Table, w: Write)
    requires Numbered(t.log) && UniqueNumbers(t.log) && forall id :: id in t.delivered ==> Has(t.log, id)
    ensures var t' := Exec(t, w).0;
            && Numbered(t'.log) && UniqueNumbers(t'.log)
            && forall id :: id in t'.delivered ==> Has(t'.log, id)
  {
    if w.SaveOf? {
      SaveKeeps(t, w.m, w.delivered);
      InsertMeetsNoClash(t.log, w.m);
      var row := NextRow(t.log, w.m);
      hide Numbered, UniqueNumbers, NextRow;
      forall id ensures Has(t.log + [row], id) <==> Has(t.log, id) || id == row.m.msgId {
        IndexAppend(t.log, [row], id);
      }
    }
  }

  lemma {:induction false} IndexAppend(log: seq<Stored>, more: seq<Stored>, id: string)
    ensures IndexOf(log + more, id) == if Has(log, id) then IndexOf(log, id) else |log| + IndexOf(more, id)
  {
    var i, j := IndexOf(log + more, id), IndexOf(log, id);
    var all := log + more;
    if Has(log, id) {
      assert all[j].m.msgId == id;
      assert i < |log| ==> log[i].m.msgId == id;
    } else {
      var k := IndexOf(more, id);
      assert forall p :: 0 <= p < |log| ==> all[p] == log[p];
      assert k < |more| ==> all[|log| + k].m.msgId == id;
      assert i < |all| ==> more[i - |log|].m.msgId == id;
    }
  }

  /** The log only ever grows at its end. */
  lemma {:induction false} LogGrows(t: Table, writes: seq<Write>)
    ensures t.log <= After(t, writes).log && t.delivered <= After(t, writes).delivered
  {
    if |writes| > 0 {
      LogGrows(t, writes[..|writes| - 1]);
    }
  }

  /** Resaving a message id, however much has been written since, hands back its old number
      and changes nothing, not even the delivered column. */
  lemma ResaveIsIdempotent(t: Table, m: Message, delivered: bool, writes: seq<Write>, again: Message, flag: bool)
    requires again.msgId == m.msgId
    ensures var first := Save(t, m, delivered);
            var later := After(first.0, writes);
            Save(later, again, flag) == (later, first.1)
  {
    var first := Save(t, m, delivered);
    var later := After(first.0, writes);
    LogGrows(first.0, writes);
    if !Has(t.log, m.msgId) {
      IndexAppend(t.log, [NextRow(t.log, m)], m.msgId);
    }
    IndexAppend(first.0.log, later.log[|first.0.log|..], m.msgId);
    assert later.log == first.0.log + later.log[|first.0.log|..];
  }

  /** Concurrent callers: whatever the interleaving, the table is a numbered log, and every
      answered save was told the number under which its message is stored. */
  lemma ConcurrentSaves(events: seq<Q.Event<Write>>, i: nat)
    requires var q := Q.Run(Exec, Empty, events); i in q.answers && i < |q.accepted| && q.accepted[i].SaveOf?
    ensures var q := Q.Run(Exec, Empty, events);
            var k := IndexOf(q.db.log, q.accepted[i].m.msgId);
            && Numbered(q.db.log)
            && k < |q.db.log| && q.answers[i] == Q.Returned(q.db.log[k].number)
  {
    Q.Linearizes(Exec, Empty, events);
    var q := Q.Run(Exec, Empty, events);
    hide Q.Run, Numbered, Exec, IndexOf, Q.Sequential;
    var done := q.accepted[..Q.Done(q)];
    assert done[..i] == q.accepted[..i];
    AnsweredNumber(done, i);
  }

  /** The same for a sequential run. */
  lemma AnsweredNumber(writes: seq<Write>, i: nat)
    requires i < |writes| && writes[i].SaveOf?
    ensures var t := After(Empty, writes);
            var k := IndexOf(t.log, writes[i].m.msgId);
            Numbered(t.log) && k < |t.log| && Q.AnswerOf(Exec, Empty, writes, i) == Q.Returned(t.log[k].number)
  {
    hide Numbered, UniqueNumbers, Has;
    NumbersAreConsecutive(writes);
    var w, rest := writes[i], writes[i + 1..];
    var t := After(Empty, writes[..i]);
    assert writes == writes[..i] + ([w] + rest);
    AfterSplit(Empty, writes[..i], [w] + rest);
    AfterSplit(t, [w], rest);
    AfterOne(t, w);
    hide Q.Sequential, IndexOf;
    ResaveIsIdempotent(t, w.m, w.delivered, rest, w.m, w.delivered);
  }

  lemma AfterOne(t: Table, w: Write)
    ensures After(t, [w]) == Exec(t, w).0
  {
    assert [w][..0] == [];
    assert After(t, []) == t;
  }

  lemma {:induction false} AfterSplit(t: Table, a: seq<Write>, b: seq<Write>)
    ensures After(t, a + b) == After(After(t, a), b)
  {
    if |b| == 0 {
      assert a + b == a;
    } else {
      assert (a + b)[..|a + b| - 1] == a + b[..|b| - 1];
      AfterSplit(t, a, b[..|b| - 1]);
    }
  }

  // ------------------------------------------------------------------ pulling

  function UndeliveredIn(log: seq<Stored>, delivered: set<string>, receiver: int): (out: seq<Stored>)
    ensures forall s :: s in out <==> s in log && s.m.receiver == receiver && s.m.msgId !in delivered
  {
    Only((s: Stored) => s.m.receiver == receiver && s.m.msgId !in delivered, log)
  }

  function Undelivered(t: Table, receiver: int): seq<Stored> { UndeliveredIn(t.log, t.delivered, receiver) }

  /** pullUndelivered: ordered by time, then by row id. */
  function Pull(t: Table, receiver: int): seq<Stored> {
    Sort((a: Stored, b: Stored) => a.m.ts <= b.m.ts, Undelivered(t, receiver))
  }

  /** A pull returns exactly the receiver's unmarked messages, by time, and those of one
      second in the order in which they were stored. */
  lemma PullIsExact(t: Table, receiver: int, second: int)
    ensures forall s :: s in Pull(t, receiver) <==> s in t.log && s.m.receiver == receiver && s.m.msgId !in t.delivered
    ensures forall i, j :: 0 <= i < j < |Pull(t, receiver)| ==> Pull(t, receiver)[i].m.ts <= Pull(t, receiver)[j].m.ts
    ensures Only((s: Stored) => s.m.ts == second, Pull(t, receiver))
            == Only((s: Stored) => s.m.ts == second, Undelivered(t, receiver))
  {
    var le := (a: Stored, b: Stored) => a.m.ts <= b.m.ts;
    SortSorts(le, Undelivered(t, receiver));
    forall s ensures s in Pull(t, receiver) <==> s in Undelivered(t, receiver) {
      SortHas(le, Undelivered(t, receiver), s);
    }
    SortStable(le, Undelivered(t, receiver), (s: Stored) => s.m.ts == second);
  }

  // ------------------------------------------------------------------ the conversation list

  predicate Involves(s: Stored, user: int) { s.m.sender == user || s.m.receiver == user }

  /** For each conversation the row with the largest row id among the user's. */
  function Latest(log: seq<Stored>, user: int): seq<Stored> {
    if |log| == 0 then []
    else
      var last, before := log[|log| - 1], Latest(log[..|log| - 1], user);
      if Involves(last, user) then Only((s: Stored) => s.conversation != last.conversation, before) + [last] else before
  }

  /** roamConversations: the latest rows, most recent first. */
  function RoamConversations(log: seq<Stored>, user: int): seq<Stored> {
    Sort((a: Stored, b: Stored) => a.m.ts >= b.m.ts, Latest(log, user))
  }

  ghost predicate LatestAt(log: seq<Stored>, user: int, s: Stored, i: nat) {
    && i < |log| && log[i] == s && Involves(s, user)
    && forall j :: i < j < |log| && Involves(log[j], user) ==> log[j].conversation != s.conversation
  }

  ghost predicate IsLatest(log: seq<Stored>, user: int, s: Stored) { exists i: nat :: LatestAt(log, user, s, i) }

  lemma OneRowMore(log: seq<Stored>, last: Stored, user: int, s: Stored)
    ensures IsLatest(log + [last], user, s)
            <==> if Involves(last, user) && last.conversation == s.conversation then s == last
                else IsLatest(log, user, s)
  {
    var all := log + [last];
    if i: nat :| LatestAt(log, user, s, i) && !(Involves(last, user) && last.conversation == s.conversation) {
      assert LatestAt(all, user, s, i);
    }
    if Involves(last, user) && s == last {
      assert LatestAt(all, user, s, |log|);
    }
    if i: nat :| LatestAt(all, user, s, i) && i < |log| {
      assert all[|log|] == last && all[i] == log[i];
      forall j | i < j < |log| && Involves(log[j], user) ensures log[j].conversation != s.conversation {
        assert all[j] == log[j];
      }
      assert LatestAt(log, user, s, i);
    }
  }

  lemma {:induction false} LatestAreLatest(log: seq<Stored>, user: int, s: Stored)
    ensures s in Latest(log, user) <==> IsLatest(log, user, s)
  {
    if |log| > 0 {
      var n := |log| - 1;
      LatestAreLatest(log[..n], user, s);
      OneRowMore(log[..n], log[n], user, s);
      assert log == log[..n] + [log[n]];
      hide IsLatest;
    }
  }

  /** The list holds exactly the last message of each of the user's conversations, so each
      conversation once, ordered by time. */
  lemma ConversationListIsExact(log: seq<Stored>, user: int, r: Stored, s: Stored)
    ensures s in RoamConversations(log, user) <==> IsLatest(log, user, s)
    ensures r in RoamConversations(log, user) && s in RoamConversations(log, user) && r.conversation == s.conversation
            ==> r == s
    ensures forall i, j :: 0 <= i < j < |RoamConversations(log, user)| ==>
              RoamConversations(log, user)[i].m.ts >= RoamConversations(log, user)[j].m.ts
  {
    var le := (a: Stored, b: Stored) => a.m.ts >= b.m.ts;
    SortSorts(le, Latest(log, user));
    SortHas(le, Latest(log, user), r);
    SortHas(le, Latest(log, user), s);
    LatestAreLatest(log, user, r);
    LatestAreLatest(log, user, s);
  }

  /** No conversation of the user is missing. */
  lemma {:induction false} EveryConversationIsListed(log: seq<Stored>, user: int, k: nat)
    requires k < |log| && Involves(log[k], user)
    ensures exists s :: s in RoamConversations(log, user) && s.conversation == log[k].conversation
    decreases |log| - k
  {
    if j :| k < j < |log| && Involves(log[j], user) && log[j].conversation == log[k].conversation {
      EveryConversationIsListed(log, user, j);
    } else {
      assert LatestAt(log, user, log[k], k);
      ConversationListIsExact(log, user, log[k], log[k]);
    }
  }

  // ------------------------------------------------------------------ the tables as the code changes them

  datatype Row = Row(s: Stored, delivered: bool)

  function LogOf(rows: seq<Row>): (log: seq<Stored>)
    ensures |log| == |rows| && forall i :: 0 <= i < |rows| ==> log[i] == rows[i].s
  {
    seq(|rows|, i requires 0 <= i < |rows| => rows[i].s)
  }

  function FlaggedOf(rows: seq<Row>): set<string> { set r | r in rows && r.delivered :: r.s.m.msgId }

  /** One flag for all rows of an id, as UNIQUE(msg_id) makes it. */
  ghost predicate FlagsAgree(rows: seq<Row>) {
    forall q, r :: q in rows && r in rows && q.s.m.msgId == r.s.m.msgId ==> q.delivered == r.delivered
  }

  class Database {
    var rows: seq<Row>

    ghost function Contents(): Table reads this { Table(LogOf(rows), FlaggedOf(rows)) }

    ghost predicate Valid() reads this { FlagsAgree(rows) }

    constructor ()
      ensures Valid() && Contents() == Empty
    {
      rows := [];
    }

    /** SELECT seq FROM messages WHERE msg_id=? */
    method FindNumber(msgId: string) returns (i: nat)
      ensures i == IndexOf(LogOf(rows), msgId)
    {
      i := 0;
      while i < |rows| && rows[i].s.m.msgId != msgId
        invariant i <= IndexOf(LogOf(rows), msgId) <= |rows|
      {
        i := i + 1;
      }
    }

    /** SELECT COALESCE(MAX(seq),0)+1 FROM messages WHERE conversation_id=? */
    method NextNumber(conversation: int) returns (next: int)
      ensures next == LastNumber(LogOf(rows), conversation) + 1
    {
      var last := 0;
      var i := 0;
      while i < |rows|
        invariant 0 <= i <= |rows| && last == LastNumber(LogOf(rows)[..i], conversation)
      {
        assert LogOf(rows)[..i + 1][..i] == LogOf(rows)[..i];
        if rows[i].s.conversation == conversation && rows[i].s.number > last {
          last := rows[i].s.number;
        }
        i := i + 1;
      }
      assert LogOf(rows)[..i] == LogOf(rows);
      next := last + 1;
    }

    /** One transaction; `begun` and `stored` say whether BEGIN and the insertion with its
        commit succeed. An id that is already stored is answered without looking at either
        the message or the flag. */
    method SaveMessage(m: Message, delivered: bool, begun: bool, stored: bool) returns (ok: bool, number: int)
      requires Valid()
      modifies this
      ensures Valid()
      ensures ok <==> begun && (Has(old(Contents()).log, m.msgId) || stored)
      ensures ok ==> (Contents(), number) == Save(old(Contents()), m, delivered)
      ensures !ok ==> Contents() == old(Contents())
    {
      ok, number := false, 0;
      if !begun {
        return;
      }
      var i := FindNumber(m.msgId);
      if i < |rows| {
        return true, rows[i].s.number;
      }
      number := NextNumber(ConversationOf(m));
      if !stored {
        return;
      }
      ghost var before := rows;
      rows := rows + [Row(Stored(m, ConversationOf(m), number), delivered)];
      ok := true;
      assert LogOf(rows) == LogOf(before) + [NextRow(LogOf(before), m)];
      FlagAppend(before, Row(NextRow(LogOf(before), m), delivered));
      assert Contents().delivered == Save(old(Contents()), m, delivered).0.delivered;
    }

    /** UPDATE messages SET is_delivered=1 WHERE msg_id=? */
    method MarkOne(msgId: string)
      requires Valid()
      modifies this
      ensures Valid() && Contents() == Mark(old(Contents()), [msgId])
    {
      var i := 0;
      while i < |rows|
        invariant 0 <= i <= |rows| == |old(rows)|
        invariant forall k :: 0 <= k < i ==> rows[k] == Flag(old(rows)[k], msgId)
        invariant forall k :: i <= k < |rows| ==> rows[k] == old(rows)[k]
      {
        if rows[i].s.m.msgId == msgId {
          rows := rows[i := rows[i].(delivered := true)];
        }
        i := i + 1;
      }
      FlaggedAll(old(rows), rows, msgId);
    }

    method MarkDelivered(msgIds: seq<string>)
      requires Valid()
      modifies this
      ensures Valid() && Contents() == Mark(old(Contents()), msgIds)
    {
      hide Mark, FlagsAgree;
      MarkNone(Contents());
      var i := 0;
      while i < |msgIds|
        invariant 0 <= i <= |msgIds| && Valid()
        invariant Contents() == Mark(old(Contents()), msgIds[..i])
      {
        MarkOne(msgIds[i]);
        MarkAppend(old(Contents()), msgIds[..i], msgIds[i]);
        assert msgIds[..i + 1] == msgIds[..i] + [msgIds[i]];
        i := i + 1;
      }
      assert msgIds[..i] == msgIds;
    }

    method PullUndelivered(receiver: int) returns (out: seq<Stored>)
      requires Valid()
      ensures out == Pull(Contents(), receiver)
    {
      var found: seq<Stored> := [];
      var i := 0;
      while i < |rows|
        invariant 0 <= i <= |rows|
        invariant found == UndeliveredIn(LogOf(rows)[..i], FlaggedOf(rows), receiver)
      {
        assert LogOf(rows)[..i + 1][..i] == LogOf(rows)[..i];
        FlagOfRow(rows, i);
        if rows[i].s.m.receiver == receiver && !rows[i].delivered {
          found := found + [rows[i].s];
        }
        i := i + 1;
      }
      assert LogOf(rows)[..i] == LogOf(rows);
      out := Sort((a: Stored, b: Stored) => a.m.ts <= b.m.ts, found);
    }
  }

  function Flag(r: Row, msgId: string): Row { if r.s.m.msgId == msgId then r.(delivered := true) else r }

  lemma MarkNone(t: Table)
    ensures Mark(t, []) == t
  {
  }

  lemma MarkAppend(t: Table, ids: seq<string>, id: string)
    ensures Mark(Mark(t, ids), [id]) == Mark(t, ids + [id])
  {
  }

  lemma FlagOfRow(rows: seq<Row>, i: nat)
    requires FlagsAgree(rows) && i < |rows|
    ensures rows[i].delivered <==> rows[i].s.m.msgId in FlaggedOf(rows)
  {
    assert rows[i] in rows;
  }

  lemma FlagAppend(rows: seq<Row>, r: Row)
    requires FlagsAgree(rows) && !Has(LogOf(rows), r.s.m.msgId)
    ensures FlagsAgree(rows + [r])
    ensures FlaggedOf(rows + [r]) == FlaggedOf(rows) + if r.delivered then {r.s.m.msgId} else {}
  {
    forall q | q in rows ensures q.s.m.msgId != r.s.m.msgId {
      var i :| 0 <= i < |rows| && rows[i] == q;
      assert LogOf(rows)[i] == q.s;
    }
    if r.delivered {
      assert r in rows + [r];
    }
    assert forall q :: q in rows ==> q in rows + [r];
  }

  lemma FlaggedAll(rows: seq<Row>, rows': seq<Row>, msgId: string)
    requires |rows'| == |rows| && (forall k :: 0 <= k < |rows| ==> rows'[k] == Flag(rows[k], msgId)) && FlagsAgree(rows)
    ensures FlagsAgree(rows') && LogOf(rows') == LogOf(rows)
    ensures FlaggedOf(rows') == FlaggedOf(rows) + set id | id in [msgId] && Has(LogOf(rows), id)
  {
    FlaggedRows(rows, rows', msgId);
    hide Flag;
    FlaggedSet(rows, rows', msgId);
  }

  lemma FlaggedRows(rows: seq<Row>, rows': seq<Row>, msgId: string)
    requires |rows'| == |rows| && (forall k :: 0 <= k < |rows| ==> rows'[k] == Flag(rows[k], msgId))
    ensures forall q :: q in rows' ==> exists p :: p in rows && q == Flag(p, msgId)
    ensures forall p :: p in rows ==> Flag(p, msgId) in rows'
    ensures LogOf(rows') == LogOf(rows)
  {
    forall q | q in rows' ensures exists p :: p in rows && q == Flag(p, msgId) {
      var k :| 0 <= k < |rows'| && rows'[k] == q;
      assert rows[k] in rows;
    }
    forall p | p in rows ensures Flag(p, msgId) in rows' {
      var k :| 0 <= k < |rows| && rows[k] == p;
      assert rows'[k] in rows';
    }
  }

  lemma FlaggedSet(rows: seq<Row>, rows': seq<Row>, msgId: string)
    requires forall q :: q in rows' ==> exists p :: p in rows && q == Flag(p, msgId)
    requires forall p :: p in rows ==> Flag(p, msgId) in rows'
    requires FlagsAgree(rows) && LogOf(rows') == LogOf(rows)
    ensures FlagsAgree(rows')
    ensures FlaggedOf(rows') == FlaggedOf(rows) + set id | id in [msgId] && Has(LogOf(rows), id)
  {
    hide LogOf, IndexOf;
    FlaggedAgree(rows, rows', msgId);
    forall id ensures id in FlaggedOf(rows') <==> id in FlaggedOf(rows) || (id == msgId && Has(LogOf(rows), id)) {
      FlaggedOne(rows, rows', msgId, id);
    }
  }

  lemma FlaggedAgree(rows: seq<Row>, rows': seq<Row>, msgId: string)
    requires forall q :: q in rows' ==> exists p :: p in rows && q == Flag(p, msgId)
    requires FlagsAgree(rows)
    ensures FlagsAgree(rows')
  {
  }

  lemma FlaggedOne(rows: seq<Row>, rows': seq<Row>, msgId: string, id: string)
    requires forall q :: q in rows' ==> exists p :: p in rows && q == Flag(p, msgId)
    requires forall p :: p in rows ==> Flag(p, msgId) in rows'
    ensures id in FlaggedOf(rows') <==> id in FlaggedOf(rows) || (id == msgId && Has(LogOf(rows), id))
  {
    if id in FlaggedOf(rows') {
      var q :| q in rows' && q.delivered && q.s.m.msgId == id;
      var p :| p in rows && q == Flag(p, msgId);
      var k :| 0 <= k < |rows| && rows[k] == p;
      assert LogOf(rows)[k] == p.s;
    }
    if id in FlaggedOf(rows) {
      var p :| p in rows && p.delivered && p.s.m.msgId == id;
      assert Flag(p, msgId) in rows' && Flag(p, msgId).delivered;
    }
    if id == msgId && Has(LogOf(rows), id) {
      var p := rows[IndexOf(LogOf(rows), id)];
      assert p in rows && Flag(p, msgId) in rows' && Flag(p, msgId).delivered;
    }
  }
}
