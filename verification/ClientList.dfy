// The Android client's message lists: append, mergeMessages, sortBySeq and updateStatus of
// MainViewModel.kt.

module ClientList {
  import opened Sorting

  datatype Kind = Text | Image | File | Unknown

  datatype Status = Sending | Delivered | OfflineStored | Received | Failed

  datatype ChatMessage = ChatMessage(msgId: string, fromMe: bool, text: string, kind: Kind, imgW: int, imgH: int,
                                     ts: int, number: int, fileId: string, fileName: string, fileSize: int,
                                     contentType: string, sha256: string, status: Status)

  type Conversation = seq<ChatMessage>

  const LONG_MAX: int := 0x7fff_ffff_ffff_ffff

  function Key(m: ChatMessage): int { if m.number > 0 then m.number else LONG_MAX }

  /** Confirmed messages by number, the others last; then by time. */
  predicate Le(a: ChatMessage, b: ChatMessage) { Key(a) < Key(b) || (Key(a) == Key(b) && a.ts <= b.ts) }

  function SortBySeq(list: Conversation): Conversation { Sort(Le, list) }

  /** indexOfFirst by message id, or the length. */
  function IndexOf(conv: Conversation, msgId: string): (i: nat)
    ensures i <= |conv|
    ensures i < |conv| ==> conv[i].msgId == msgId
    ensures forall j :: 0 <= j < i ==> conv[j].msgId != msgId
  {
    if |conv| == 0 then 0 else if conv[0].msgId == msgId then 0 else 1 + IndexOf(conv[1..], msgId)
  }

  predicate Blank(s: string) { forall c :: c in s ==> c in {' ', '\t', '\n', '\r'} }

  function IfBlank(s: string, other: string): string { if Blank(s) then other else s }

  function IfPositive(x: int, other: int): int { if x > 0 then x else other }

  /** A stale media record corrected by what the server sent again. */
  function Repaired(was: ChatMessage, m: ChatMessage): ChatMessage {
    was.(fileId := IfBlank(m.fileId, was.fileId), fileName := IfBlank(m.fileName, was.fileName),
         fileSize := IfPositive(m.fileSize, was.fileSize), contentType := IfBlank(m.contentType, was.contentType),
         sha256 := IfBlank(m.sha256, was.sha256),
         imgW := IfPositive(m.imgW, was.imgW), imgH := IfPositive(m.imgH, was.imgH),
         ts := IfPositive(m.ts, was.ts), number := IfPositive(m.number, was.number), status := Received)
  }

  function Append(conv: Conversation, m: ChatMessage): Conversation {
    var i := IndexOf(conv, m.msgId);
    if i == |conv| then SortBySeq(conv + [m])
    else if (m.kind.File? || m.kind.Image?) && !m.fromMe then SortBySeq(conv[i := Repaired(conv[i], m)])
    else conv
  }

  function Receipt(m: ChatMessage, msgId: string, status: Status, number: int): ChatMessage {
    if m.msgId == msgId then m.(status := status, number := IfPositive(number, m.number)) else m
  }

  function Receipts(conv: Conversation, msgId: string, status: Status, number: int): (out: Conversation)
    ensures |out| == |conv| && forall i :: 0 <= i < |conv| ==> out[i] == Receipt(conv[i], msgId, status, number)
  {
    seq(|conv|, i requires 0 <= i < |conv| => Receipt(conv[i], msgId, status, number))
  }

  function UpdateStatus(conv: Conversation, msgId: string, status: Status, number: int): Conversation {
    var updated := Receipts(conv, msgId, status, number);
    if number > 0 then SortBySeq(updated) else updated
  }

  /** The messages in memory whose ids the database list does not have. */
  function Extra(base: Conversation, memory: Conversation): (out: Conversation)
    ensures forall m :: m in out <==> m in memory && IndexOf(base, m.msgId) == |base|
  {
    Only((m: ChatMessage) => IndexOf(base, m.msgId) == |base|, memory)
  }

  function MergeOne(base: Conversation, memory: Conversation): Conversation {
    var extra := Extra(base, memory);
    if |extra| == 0 then base else SortBySeq(base + extra)
  }

  /** SELECT ... ORDER BY (confirmed number, else last), ts, id, from rows in order of id. */
  function FromDb(rows: Conversation): Conversation { SortBySeq(rows) }

  // ------------------------------------------------------------------ what every event keeps

  ghost predicate Distinct(conv: Conversation) {
    forall i, j :: 0 <= i < j < |conv| ==> conv[i].msgId != conv[j].msgId
  }

  /** No id twice, and in order. */
  ghost predicate Tidy(conv: Conversation) { Distinct(conv) && Sorted(Le, conv) }

  lemma LeOrders()
    ensures Orders(Le)
  {
  }

  function Ids(conv: Conversation): (ids: seq<string>)
    ensures |ids| == |conv| && forall i :: 0 <= i < |conv| ==> ids[i] == conv[i].msgId
  {
    seq(|conv|, i requires 0 <= i < |conv| => conv[i].msgId)
  }

  /** How often an id occurs. */
  ghost function Times(conv: Conversation, msgId: string): nat { |Only((m: ChatMessage) => m.msgId == msgId, conv)| }

  lemma {:induction false} DistinctByTimes(conv: Conversation)
    ensures Distinct(conv) <==> forall id :: Times(conv, id) <= 1
  {
    if |conv| > 0 {
      var init, last := conv[..|conv| - 1], conv[|conv| - 1];
      DistinctByTimes(init);
      forall id ensures Times(conv, id) == Times(init, id) + if last.msgId == id then 1 else 0 {
      }
      TimesOf(init, last.msgId);
      if Distinct(conv) {
        forall id ensures Times(conv, id) <= 1 {
          assert Times(init, id) <= 1;
        }
      }
    }
  }

  lemma TimesOf(conv: Conversation, msgId: string)
    ensures Times(conv, msgId) == 0 <==> forall i :: 0 <= i < |conv| ==> conv[i].msgId != msgId
  {
    var only := Only((m: ChatMessage) => m.msgId == msgId, conv);
    if |only| > 0 {
      assert only[0] in only;
    }
    forall i | 0 <= i < |conv| && conv[i].msgId == msgId ensures |only| > 0 {
      assert conv[i] in only;
    }
  }

  lemma {:induction false} TimesInBag(a: Conversation, b: Conversation, msgId: string)
    requires multiset(a) == multiset(b)
    ensures Times(a, msgId) == Times(b, msgId)
  {
    assert |multiset(a)| == |a| && |multiset(b)| == |b|;
    if |a| > 0 {
      var x := a[|a| - 1];
      assert x in multiset(b);
      var k :| 0 <= k < |b| && b[k] == x;
      var b' := b[..k] + b[k + 1..];
      assert b == b[..k] + [x] + b[k + 1..];
      assert a == a[..|a| - 1] + [x];
      assert multiset(b') == multiset(b) - multiset{x};
      TimesInBag(a[..|a| - 1], b', msgId);
      var p := (m: ChatMessage) => m.msgId == msgId;
      OnlySum(p, b[..k] + [x], b[k + 1..]);
      OnlySum(p, b[..k], [x]);
      OnlySum(p, b[..k], b[k + 1..]);
      OnlySum(p, a[..|a| - 1], [x]);
    }
  }

  /** Sorting makes a list without repeated ids tidy. */
  lemma SortTidies(conv: Conversation)
    requires Distinct(conv)
    ensures Tidy(SortBySeq(conv)) && multiset(SortBySeq(conv)) == multiset(conv)
  {
    LeOrders();
    SortSorts(Le, conv);
    DistinctByTimes(conv);
    DistinctByTimes(SortBySeq(conv));
    forall id ensures Times(SortBySeq(conv), id) <= 1 {
      TimesInBag(SortBySeq(conv), conv, id);
    }
  }

  lemma AppendKeeps(conv: Conversation, m: ChatMessage)
    requires Tidy(conv)
    ensures Tidy(Append(conv, m))
  {
    var i := IndexOf(conv, m.msgId);
    if i == |conv| {
      SortTidies(conv + [m]);
    } else {
      SortTidies(conv[i := Repaired(conv[i], m)]);
    }
  }

  lemma UpdateStatusKeeps(conv: Conversation, msgId: string, status: Status, number: int)
    requires Tidy(conv)
    ensures Tidy(UpdateStatus(conv, msgId, status, number))
  {
    if number > 0 {
      SortTidies(Receipts(conv, msgId, status, number));
    }
  }

  lemma {:induction false} OnlyDistinct(p: ChatMessage -> bool, conv: Conversation)
    requires Distinct(conv)
    ensures Distinct(Only(p, conv))
  {
    if |conv| > 0 {
      var init, last := conv[..|conv| - 1], conv[|conv| - 1];
      OnlyDistinct(p, init);
      forall i | 0 <= i < |Only(p, init)| ensures Only(p, init)[i].msgId != last.msgId {
        assert Only(p, init)[i] in init;
        var k :| 0 <= k < |init| && init[k] == Only(p, init)[i];
        assert conv[k].msgId != conv[|conv| - 1].msgId;
      }
    }
  }

  lemma MergeKeeps(base: Conversation, memory: Conversation)
    requires Tidy(base) && Distinct(memory)
    ensures Tidy(MergeOne(base, memory))
    ensures forall m :: m in MergeOne(base, memory) <==> m in base || (m in memory && IndexOf(base, m.msgId) == |base|)
  {
    var extra := Extra(base, memory);
    OnlyDistinct((m: ChatMessage) => IndexOf(base, m.msgId) == |base|, memory);
    if |extra| > 0 {
      forall i, j | 0 <= i < |base| && 0 <= j < |extra| ensures base[i].msgId != extra[j].msgId {
        assert extra[j] in extra;
      }
      SortTidies(base + extra);
      LeOrders();
      forall m ensures m in MergeOne(base, memory) <==> m in base + extra {
        SortHas(Le, base + extra, m);
      }
    }
  }

  // ------------------------------------------------------------------ whole runs of one conversation

  /** A live or historic message, a receipt, or the database list that arrives late. */
  datatype Event =
    | Arrives(m: ChatMessage)
    | ReceiptFor(msgId: string, status: Status, number: int)
    | Hydrate(rows: Conversation)

  function Step(conv: Conversation, e: Event): Conversation {
    match e
    case Arrives(m) => Append(conv, m)
    case ReceiptFor(id, status, number) => UpdateStatus(conv, id, status, number)
    case Hydrate(rows) => MergeOne(FromDb(rows), conv)
  }

  function Run(events: seq<Event>): Conversation {
    if |events| == 0 then [] else Step(Run(events[..|events| - 1]), events[|events| - 1])
  }

  /** The numbers an event carries are those the server gave to the message ids, and the
      local database holds no id twice. */
  ghost predicate Consistent(server: map<string, int>, e: Event) {
    match e
    case Arrives(m) => Numbered(server, m)
    case ReceiptFor(id, _, number) => number > 0 ==> id in server && server[id] == number
    case Hydrate(rows) => Distinct(rows) && forall m :: m in rows ==> Numbered(server, m)
  }

  ghost predicate Numbered(server: map<string, int>, m: ChatMessage) {
    m.number > 0 ==> m.msgId in server && server[m.msgId] == m.number
  }

  ghost predicate AllNumbered(server: map<string, int>, conv: Conversation) {
    forall m :: m in conv ==> Numbered(server, m)
  }

  lemma StepKeeps(server: map<string, int>, conv: Conversation, e: Event)
    requires Tidy(conv) && AllNumbered(server, conv) && Consistent(server, e)
    ensures Tidy(Step(conv, e)) && AllNumbered(server, Step(conv, e))
  {
    LeOrders();
    match e
    case Arrives(m) =>
      AppendKeeps(conv, m);
      AppendNumbered(server, conv, m);
    case ReceiptFor(id, status, number) =>
      UpdateStatusKeeps(conv, id, status, number);
      var updated := Receipts(conv, id, status, number);
      forall x | x in updated ensures Numbered(server, x) {
        var i :| 0 <= i < |updated| && updated[i] == x;
        assert conv[i] in conv;
      }
      SortedNumbered(server, updated);
    case Hydrate(rows) =>
      SortTidies(rows);
      SortedNumbered(server, rows);
      MergeKeeps(FromDb(rows), conv);
  }

  lemma AppendNumbered(server: map<string, int>, conv: Conversation, m: ChatMessage)
    requires AllNumbered(server, conv) && Numbered(server, m)
    ensures AllNumbered(server, Append(conv, m))
  {
    var i := IndexOf(conv, m.msgId);
    if i == |conv| {
      SortedNumbered(server, conv + [m]);
    } else {
      assert conv[i] in conv;
      var repaired := conv[i := Repaired(conv[i], m)];
      forall x | x in repaired ensures Numbered(server, x) {
        var j :| 0 <= j < |repaired| && repaired[j] == x;
        assert j != i ==> conv[j] in conv;
      }
      SortedNumbered(server, repaired);
    }
  }

  lemma SortedNumbered(server: map<string, int>, conv: Conversation)
    requires AllNumbered(server, conv)
    ensures AllNumbered(server, SortBySeq(conv))
  {
    LeOrders();
    forall x | x in SortBySeq(conv) ensures Numbered(server, x) {
      SortHas(Le, conv, x);
    }
  }

  /** Across any sequence of messages, pages, receipts and late database loads the list holds
      no id twice, is in order, and carries only the server's numbers. */
  lemma {:induction false} RunKeeps(server: map<string, int>, events: seq<Event>)
    requires forall e :: e in events ==> Consistent(server, e)
    ensures Tidy(Run(events)) && AllNumbered(server, Run(events))
  {
    if |events| > 0 {
      RunKeeps(server, events[..|events| - 1]);
      assert events[|events| - 1] in events;
      StepKeeps(server, Run(events[..|events| - 1]), events[|events| - 1]);
    }
  }

  predicate IsConfirmed(m: ChatMessage) { m.number > 0 }

  /** The confirmed messages of a list, in its order. */
  function Confirmed(conv: Conversation): Conversation { Only(IsConfirmed, conv) }

  lemma {:induction false} OnlySorted(conv: Conversation)
    requires Sorted(Le, conv)
    ensures Sorted(Le, Confirmed(conv))
  {
    if |conv| > 0 {
      var init, last := conv[..|conv| - 1], conv[|conv| - 1];
      OnlySorted(init);
      forall i | 0 <= i < |Confirmed(init)| ensures Le(Confirmed(init)[i], last) {
        assert Confirmed(init)[i] in init;
        var k :| 0 <= k < |init| && init[k] == Confirmed(init)[i];
        assert Le(conv[k], conv[|conv| - 1]);
      }
    }
  }

  ghost predicate Injective(server: map<string, int>) {
    forall a, b :: a in server && b in server && server[a] == server[b] ==> a == b
  }

  /** The ids of the confirmed messages in order are the server's ids for these messages in
      order of their numbers, whatever else the two lists hold. */
  lemma ConfirmedOrder(server: map<string, int>, a: Conversation, b: Conversation)
    requires Injective(server) && Tidy(a) && Tidy(b) && AllNumbered(server, a) && AllNumbered(server, b)
    requires forall id :: id in Ids(Confirmed(a)) <==> id in Ids(Confirmed(b))
    ensures Ids(Confirmed(a)) == Ids(Confirmed(b))
  {
    ConfirmedIds(server, a);
    ConfirmedIds(server, b);
    var le := (x: string, y: string) => x in server && y in server && server[x] <= server[y];
    var s, t := Ids(Confirmed(a)), Ids(Confirmed(b));
    hide Confirmed, Ids, Tidy, AllNumbered;
    SameBag(s, t);
    SortedIsUnique(le, s, t);
  }

  ghost predicate NoRepeats(s: seq<string>) { forall i, j :: 0 <= i < j < |s| ==> s[i] != s[j] }

  lemma ConfirmedIds(server: map<string, int>, a: Conversation)
    requires Injective(server) && Tidy(a) && AllNumbered(server, a)
    ensures var le := (x: string, y: string) => x in server && y in server && server[x] <= server[y];
            Sorted(le, Ids(Confirmed(a))) && Untied(le, Ids(Confirmed(a))) && NoRepeats(Ids(Confirmed(a)))
  {
    OnlySorted(a);
    OnlyDistinct(IsConfirmed, a);
    var c := Confirmed(a);
    forall i | 0 <= i < |c| ensures c[i].number > 0 && c[i].msgId in server && server[c[i].msgId] == c[i].number {
      assert c[i] in c;
      assert Numbered(server, c[i]);
    }
  }

  lemma {:induction false} SameBag(s: seq<string>, t: seq<string>)
    requires NoRepeats(s) && NoRepeats(t) && forall x :: x in s <==> x in t
    ensures multiset(s) == multiset(t)
  {
    forall x ensures multiset(s)[x] == multiset(t)[x] {
      OnceAtMost(s, x);
      OnceAtMost(t, x);
    }
  }

  lemma {:induction false} OnceAtMost(s: seq<string>, x: string)
    requires NoRepeats(s)
    ensures multiset(s)[x] == if x in s then 1 else 0
  {
    if |s| > 0 {
      var init := s[..|s| - 1];
      assert s == init + [s[|s| - 1]];
      OnceAtMost(init, x);
    }
  }

  /** With server-unique numbers the order of the confirmed messages depends only on which of
      them are present: two clients, or one client on two days, that have seen the same
      confirmed messages list them in the same order, however they arrived. */
  lemma OrderIgnoresArrival(server: map<string, int>, one: seq<Event>, two: seq<Event>)
    requires Injective(server)
    requires forall e :: e in one + two ==> Consistent(server, e)
    requires forall id :: id in Ids(Confirmed(Run(one))) <==> id in Ids(Confirmed(Run(two)))
    ensures Ids(Confirmed(Run(one))) == Ids(Confirmed(Run(two)))
  {
    RunKeeps(server, one);
    RunKeeps(server, two);
    ConfirmedOrder(server, Run(one), Run(two));
  }

  /** A message that has not been confirmed comes after every confirmed one. */
  lemma UnconfirmedAreLast(server: map<string, int>, events: seq<Event>, i: nat, j: nat)
    requires forall e :: e in events ==> Consistent(server, e)
    requires i < |Run(events)| && j < |Run(events)|
    requires 0 < Run(events)[i].number < LONG_MAX && Run(events)[j].number <= 0
    ensures i < j
  {
    RunKeeps(server, events);
    hide Run;
  }

  /** The order of the list: confirmed messages by number, then the others by time. */
  lemma ListedInOrder(server: map<string, int>, events: seq<Event>, i: nat, j: nat)
    requires forall e :: e in events ==> Consistent(server, e)
    requires i < j < |Run(events)|
    ensures var a, b := Run(events)[i], Run(events)[j];
            && (a.number > 0 && b.number > 0 ==> a.number <= b.number)
            && (a.number <= 0 && b.number <= 0 ==> a.ts <= b.ts)
            && (a.number > 0 && a.number == b.number ==> a.ts <= b.ts)
            && (a.number <= 0 ==> b.number <= 0 || b.number >= LONG_MAX)
  {
    RunKeeps(server, events);
    hide Run;
  }

  ghost predicate Lists(conv: Conversation, msgId: string) { exists m :: m in conv && m.msgId == msgId }

  lemma SortLists(conv: Conversation, msgId: string)
    requires Lists(conv, msgId)
    ensures Lists(SortBySeq(conv), msgId)
  {
    LeOrders();
    var m :| m in conv && m.msgId == msgId;
    SortHas(Le, conv, m);
  }

  /** No event drops a message. */
  lemma StepLists(conv: Conversation, e: Event, msgId: string)
    requires Lists(conv, msgId) || (e.Arrives? && e.m.msgId == msgId)
    ensures Lists(Step(conv, e), msgId)
  {
    match e
    case Arrives(m) =>
      AppendLists(conv, m, msgId);
    case ReceiptFor(id, status, number) =>
      var x :| x in conv && x.msgId == msgId;
      var k :| 0 <= k < |conv| && conv[k] == x;
      var updated := Receipts(conv, id, status, number);
      assert updated[k] in updated && updated[k].msgId == msgId;
      SortLists(updated, msgId);
    case Hydrate(rows) =>
      MergeLists(FromDb(rows), conv, msgId);
  }

  lemma AppendLists(conv: Conversation, m: ChatMessage, msgId: string)
    requires Lists(conv, msgId) || m.msgId == msgId
    ensures Lists(Append(conv, m), msgId)
  {
    var i := IndexOf(conv, m.msgId);
    if i == |conv| {
      assert m in conv + [m];
      assert forall x :: x in conv ==> x in conv + [m];
      SortLists(conv + [m], msgId);
    } else {
      assert conv[i] in conv;
      assert Lists(conv, msgId);
      var x :| x in conv && x.msgId == msgId;
      var k :| 0 <= k < |conv| && conv[k] == x;
      var repaired := conv[i := Repaired(conv[i], m)];
      assert repaired[k] in repaired && repaired[k].msgId == msgId;
      SortLists(repaired, msgId);
    }
  }

  lemma MergeLists(base: Conversation, memory: Conversation, msgId: string)
    requires Lists(memory, msgId)
    ensures Lists(MergeOne(base, memory), msgId)
  {
    var extra := Extra(base, memory);
    var x :| x in memory && x.msgId == msgId;
    var i := IndexOf(base, msgId);
    if i < |base| {
      assert base[i] in base && base[i] in base + extra;
    } else {
      assert x in extra && x in base + extra;
    }
    SortLists(base + extra, msgId);
  }

  /** Every message that ever arrived is still listed, even if the database list, which may
      not have it yet, is loaded later. */
  lemma {:induction false} ArrivedIsListed(events: seq<Event>, k: nat)
    requires k < |events| && events[k].Arrives?
    ensures Lists(Run(events), events[k].m.msgId)
  {
    var before, e := events[..|events| - 1], events[|events| - 1];
    if k < |events| - 1 {
      ArrivedIsListed(before, k);
    }
    StepLists(Run(before), e, events[k].m.msgId);
  }

  // ------------------------------------------------------------------ what the messages say

  /** `x` is the listed message corrected by what the server sent again: a field that is sent
      replaces the listed one, a blank or zero one leaves it, and text, kind, sender and id stay. */
  predicate Corrects(x: ChatMessage, was: ChatMessage, m: ChatMessage) {
    && x.msgId == was.msgId && x.fromMe == was.fromMe && x.text == was.text && x.kind == was.kind
    && x.status == Received
    && x.fileId == (if Blank(m.fileId) then was.fileId else m.fileId)
    && x.fileName == (if Blank(m.fileName) then was.fileName else m.fileName)
    && x.contentType == (if Blank(m.contentType) then was.contentType else m.contentType)
    && x.sha256 == (if Blank(m.sha256) then was.sha256 else m.sha256)
    && x.fileSize == (if m.fileSize > 0 then m.fileSize else was.fileSize)
    && x.imgW == (if m.imgW > 0 then m.imgW else was.imgW) && x.imgH == (if m.imgH > 0 then m.imgH else was.imgH)
    && x.ts == (if m.ts > 0 then m.ts else was.ts) && x.number == (if m.number > 0 then m.number else was.number)
  }

  /** What an arriving message changes: a new id is added as it is; media from the peer correct
      the listed message; anything else changes nothing. */
  lemma ArrivalExactly(conv: Conversation, m: ChatMessage, x: ChatMessage)
    requires Distinct(conv)
    ensures x in Append(conv, m) <==>
              if !Lists(conv, m.msgId) then x in conv || x == m
              else if (m.kind.File? || m.kind.Image?) && !m.fromMe then
                (x in conv && x.msgId != m.msgId)
                || exists was :: was in conv && was.msgId == m.msgId && Corrects(x, was, m)
              else x in conv
  {
    LeOrders();
    var i := IndexOf(conv, m.msgId);
    if i == |conv| {
      SortHas(Le, conv + [m], x);
    } else {
      assert conv[i] in conv;
      SortHas(Le, conv[i := Repaired(conv[i], m)], x);
      OneRepaired(conv, i, m, x);
    }
    hide Repaired, Corrects, SortBySeq;
  }

  lemma OneRepaired(conv: Conversation, i: nat, m: ChatMessage, x: ChatMessage)
    requires Distinct(conv) && i < |conv| && conv[i].msgId == m.msgId
    ensures x in conv[i := Repaired(conv[i], m)] <==>
              || (x in conv && x.msgId != m.msgId)
              || exists was :: was in conv && was.msgId == m.msgId && Corrects(x, was, m)
  {
    var repaired := conv[i := Repaired(conv[i], m)];
    forall y ensures Corrects(y, conv[i], m) <==> y == Repaired(conv[i], m) {
    }
    hide Repaired, Corrects;
    assert forall j :: 0 <= j < |conv| && j != i ==> repaired[j] == conv[j] && conv[j].msgId != m.msgId;
    assert conv[i] in conv && repaired[i] in repaired;
    if x in conv && x.msgId != m.msgId {
      var j :| 0 <= j < |conv| && conv[j] == x;
      assert repaired[j] == x;
    }
    if was :| was in conv && was.msgId == m.msgId && Corrects(x, was, m) {
      var j :| 0 <= j < |conv| && conv[j] == was;
    }
  }

  /** What a receipt changes: the status of its message and, if it carries one, the number. */
  lemma ReceiptExactly(conv: Conversation, msgId: string, status: Status, number: int, x: ChatMessage)
    ensures x in UpdateStatus(conv, msgId, status, number) <==>
              exists m :: m in conv
                && x == if m.msgId != msgId then m
                        else m.(status := status, number := if number > 0 then number else m.number)
  {
    LeOrders();
    var updated := Receipts(conv, msgId, status, number);
    SortHas(Le, updated, x);
    assert x in UpdateStatus(conv, msgId, status, number) <==> x in updated;
    hide UpdateStatus, Sort, Le;
    if x in updated {
      var i :| 0 <= i < |updated| && updated[i] == x;
      assert conv[i] in conv;
    }
    if m :| m in conv && x == Receipt(m, msgId, status, number) {
      var i :| 0 <= i < |conv| && conv[i] == m;
      assert updated[i] == x;
    }
  }

  /** Every message of this id has this status and, if the receipt carried one, this number. */
  ghost predicate Says(conv: Conversation, msgId: string, status: Status, number: int) {
    forall m :: m in conv && m.msgId == msgId ==> m.status == status && (number > 0 ==> m.number == number)
  }

  /** Another message, receipt or load may say something else about this id. */
  ghost predicate Concerns(e: Event, msgId: string) {
    match e
    case Arrives(m) => m.msgId == msgId
    case ReceiptFor(id, _, _) => id == msgId
    case Hydrate(rows) => Lists(rows, msgId)
  }

  lemma SaysStays(conv: Conversation, e: Event, msgId: string, status: Status, number: int)
    requires Says(conv, msgId, status, number) && Distinct(conv) && !Concerns(e, msgId)
    ensures Says(Step(conv, e), msgId, status, number)
  {
    var conv' := Step(conv, e);
    forall x | x in conv' && x.msgId == msgId ensures x in conv {
      match e
      case Arrives(m) => ArrivalExactly(conv, m, x);
      case ReceiptFor(id, s, n) => ReceiptExactly(conv, id, s, n, x);
      case Hydrate(rows) => MergedFrom(rows, conv, x);
    }
    hide Step;
  }

  lemma MergedFrom(rows: Conversation, memory: Conversation, x: ChatMessage)
    requires x in MergeOne(FromDb(rows), memory)
    ensures x in rows || x in memory
  {
    LeOrders();
    SortHas(Le, rows, x);
    SortHas(Le, FromDb(rows) + Extra(FromDb(rows), memory), x);
  }

  /** In every run a message has the status, and the number, that its last receipt gave it, until
      the message itself arrives again or is loaded from the database. */
  lemma {:induction false} LastReceiptWins(server: map<string, int>, events: seq<Event>, msgId: string,
                                           status: Status, number: int, more: seq<Event>)
    requires forall e :: e in events + [ReceiptFor(msgId, status, number)] + more ==> Consistent(server, e)
    requires forall e :: e in more ==> !Concerns(e, msgId)
    ensures Says(Run(events + [ReceiptFor(msgId, status, number)] + more), msgId, status, number)
    ensures Lists(Run(events), msgId) ==> Lists(Run(events + [ReceiptFor(msgId, status, number)] + more), msgId)
  {
    var all := events + [ReceiptFor(msgId, status, number)] + more;
    var n := |all| - 1;
    hide Append, UpdateStatus, MergeOne, FromDb, Tidy;
    if |more| == 0 {
      assert all[..n] == events;
      forall x | x in Run(all) && x.msgId == msgId
        ensures x.status == status && (number > 0 ==> x.number == number)
      {
        ReceiptExactly(Run(events), msgId, status, number, x);
      }
    } else {
      assert all[..n] == events + [ReceiptFor(msgId, status, number)] + more[..|more| - 1];
      LastReceiptWins(server, events, msgId, status, number, more[..|more| - 1]);
      RunKeeps(server, all[..n]);
      assert all[n] in more;
      SaysStays(Run(all[..n]), all[n], msgId, status, number);
      hide Says, Step, Concerns;
    }
    if Lists(Run(events), msgId) {
      StepLists(Run(all[..n]), all[n], msgId);
    }
  }

  // ------------------------------------------------------------------ the view model

  function ListOf(lists: map<int, Conversation>, peerId: int): Conversation {
    if peerId in lists then lists[peerId] else []
  }

  class MessageLists {
    var messages: map<int, Conversation>

    function Of(peerId: int): Conversation reads this { ListOf(messages, peerId) }

    constructor ()
      ensures messages == map[]
    {
      messages := map[];
    }

    method AppendMessage(peerId: int, m: ChatMessage)
      modifies this
      ensures forall p :: Of(p) == if p == peerId then Append(old(Of(peerId)), m) else old(Of(p))
    {
      var conv := if peerId in messages then messages[peerId] else [];
      var i := 0;
      while i < |conv| && conv[i].msgId != m.msgId
        invariant 0 <= i <= IndexOf(conv, m.msgId) <= |conv|
      {
        i := i + 1;
      }
      if i < |conv| {
        if (m.kind.File? || m.kind.Image?) && !m.fromMe {
          messages := messages[peerId := SortBySeq(conv[i := Repaired(conv[i], m)])];
        }
        return;
      }
      messages := messages[peerId := SortBySeq(conv + [m])];
    }

    method UpdateMessageStatus(peerId: int, msgId: string, status: Status, number: int)
      modifies this
      ensures forall p :: Of(p) == if p == peerId then UpdateStatus(old(Of(peerId)), msgId, status, number)
              else old(Of(p))
    {
      if peerId !in messages {
        NothingToUpdate(msgId, status, number);
        return;
      }
      var updated := Receipts(messages[peerId], msgId, status, number);
      messages := messages[peerId := if number > 0 then SortBySeq(updated) else updated];
    }

    /** mergeMessages, into the state the view model keeps. */
    method Merge(fromDb: map<int, Conversation>)
      modifies this
      ensures forall p :: Of(p) == MergeOne(ListOf(fromDb, p), old(Of(p)))
    {
      NothingInMemory();
      hide MergeOne, Extra, SortBySeq;
      var inMemory := messages;
      if inMemory == map[] {
        messages := fromDb;
        return;
      }
      var result := fromDb;
      var todo := inMemory.Keys;
      while todo != {}
        invariant todo <= inMemory.Keys && messages == inMemory
        invariant forall p :: p in todo || p !in inMemory ==> ListOf(result, p) == ListOf(fromDb, p)
        invariant forall p :: p in inMemory && p !in todo ==>
                  ListOf(result, p) == MergeOne(ListOf(fromDb, p), inMemory[p])
        decreases |todo|
      {
        EmptyIfNone(todo);
        var peerId :| peerId in todo;
        var base := ListOf(result, peerId);
        MergeUnfolds(base, inMemory[peerId]);
        var extra := Extra(base, inMemory[peerId]);
        if |extra| > 0 {
          result := result[peerId := SortBySeq(base + extra)];
        }
        todo := todo - {peerId};
      }
      messages := result;
    }
  }

  lemma NothingInMemory()
    ensures forall base :: MergeOne(base, []) == base
  {
  }

  lemma MergeUnfolds(base: Conversation, memory: Conversation)
    ensures var extra := Extra(base, memory);
            MergeOne(base, memory) == if |extra| == 0 then base else SortBySeq(base + extra)
  {
  }

  lemma NothingToUpdate(msgId: string, status: Status, number: int)
    ensures UpdateStatus([], msgId, status, number) == []
  {
  }
}
