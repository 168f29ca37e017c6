// History by pages: Database.roamMessages, RoamHandler.onMessages, and the Android cursor.

module Paging {
  import opened Options
  import C = ConversationId
  import opened Sorting
  import opened MessageLog

  const INT64_MAX: int := 0x7fff_ffff_ffff_ffff

  /** The row of a conversation with the largest number below `before`, or the number of rows. */
  function Newest(log: seq<Stored>, conversation: int, before: int): (i: nat)
    ensures i <= |log|
    ensures i < |log| ==> log[i].conversation == conversation && log[i].number < before
    ensures forall j :: 0 <= j < |log| && log[j].conversation == conversation && log[j].number < before ==>
              i < |log| && log[j].number <= log[i].number
  {
    if |log| == 0 then 0
    else
      var n := |log| - 1;
      var i := Newest(log[..n], conversation, before);
      if log[n].conversation == conversation && log[n].number < before && (i == n || log[n].number > log[i].number)
      then n
      else if i == n then |log|
      else i
  }

  /** SELECT ... WHERE conversation_id=? AND seq < ? ORDER BY seq DESC LIMIT ?, walking the
      unique index on (conversation_id, seq) downwards. */
  function RoamMessages(log: seq<Stored>, conversation: int, before: int, limit: nat): seq<Stored>
    decreases limit
  {
    if limit == 0 then []
    else
      var i := Newest(log, conversation, before);
      if i == |log| then [] else [log[i]] + RoamMessages(log, conversation, log[i].number, limit - 1)
  }

  datatype Page = Page(msgs: seq<Stored>, hasMore: bool, minNumber: int)

  function Limit(asked: int): int {
    var limit := if asked > 0 then asked else 20;
    if limit > 100 then 100 else limit
  }

  function Before(asked: int): int { if asked > 0 then asked else INT64_MAX }

  /** RoamHandler.onMessages for a logged-in user. */
  function Answer(log: seq<Stored>, user: int, peer: int, beforeAsked: int, limitAsked: int): Page {
    var rows := RoamMessages(log, C.MakeConversationId(user, peer), Before(beforeAsked), Limit(limitAsked));
    Page(rows, |rows| == Limit(limitAsked), if |rows| == 0 then 0 else rows[|rows| - 1].number)
  }

  // ------------------------------------------------------------------ one page

  /** rows[lo..hi], newest first. */
  function Down(rows: seq<Stored>, hi: nat, lo: nat): (out: seq<Stored>)
    requires lo <= hi <= |rows|
    ensures |out| == hi - lo
    ensures forall k :: 0 <= k < hi - lo ==> out[k] == rows[hi - 1 - k]
  {
    if hi == lo then [] else [rows[hi - 1]] + Down(rows, hi - 1, lo)
  }

  /** How many messages of a conversation of n have a number below `before`. */
  function Below(n: nat, before: int): nat { if before <= 0 then 0 else if before - 1 < n then before - 1 else n }

  lemma NewestIsLast(log: seq<Stored>, c: int, before: int)
    requires Numbered(log)
    ensures var h := Below(|Of(log, c)|, before);
            var i := Newest(log, c, before);
            if h == 0 then i == |log| else i < |log| && log[i] == Of(log, c)[h - 1]
  {
    hide Newest;
    var rows, i := Of(log, c), Newest(log, c, before);
    var h := Below(|rows|, before);
    assert Consecutive(rows);
    if h > 0 {
      Found(log, c, h - 1);
    }
    if i < |log| {
      assert log[i] in rows;
      var k :| 0 <= k < |rows| && rows[k] == log[i];
      assert k + 1 < before;
    }
  }

  lemma Found(log: seq<Stored>, c: int, k: nat)
    requires k < |Of(log, c)|
    ensures exists j :: 0 <= j < |log| && log[j] == Of(log, c)[k] && log[j].conversation == c
  {
    assert Of(log, c)[k] in Of(log, c);
  }

  lemma NumberAt(log: seq<Stored>, c: int, rows: seq<Stored>, k: nat)
    requires Numbered(log) && rows <= Of(log, c) && k < |rows|
    ensures rows[k].number == k + 1
  {
    assert Consecutive(Of(log, c));
  }

  /** On a numbered log a page is the next slice of the conversation, newest first. */
  lemma {:induction false} PageIsSlice(log: seq<Stored>, c: int, before: int, limit: nat)
    requires Numbered(log)
    ensures var rows := Of(log, c);
            var hi := Below(|rows|, before);
            RoamMessages(log, c, before, limit) == Down(rows, hi, if limit < hi then hi - limit else 0)
  {
    hide Newest, Numbered;
    var rows := Of(log, c);
    var hi := Below(|rows|, before);
    NewestIsLast(log, c, before);
    if limit > 0 && hi > 0 {
      NumberAt(log, c, rows, hi - 1);
      PageIsSlice(log, c, hi, limit - 1);
    }
  }

  // ------------------------------------------------------------------ following the pages

  /** What the client remembers of one conversation: MainViewModel's loadedMinSeq, roamHasMore
      and roamLoading. */
  datatype Cursor = Cursor(minSeq: Option<int>, hasMore: Option<bool>, loading: bool)

  /** loadMoreHistory: the `before` it asks for, if it asks. */
  function LoadMore(c: Cursor): Option<int> {
    if c.hasMore == Some(false) || c.loading then None else c.minSeq
  }

  function Received(c: Cursor, p: Page): Cursor {
    var min := if p.minNumber > 0 && (c.minSeq.None? || p.minNumber < c.minSeq.value)
      then Some(p.minNumber) else c.minSeq;
    Cursor(min, Some(p.hasMore), false)
  }

  /** All pages from `before` on; the k-th request meets the k-th of `logs`. The client stops
      when its cursor says so, or with the last log. */
  function Follow(logs: seq<seq<Stored>>, user: int, peer: int, c: Cursor, before: int, limit: int): seq<Page> {
    if |logs| == 0 then []
    else
      var page := Answer(logs[0], user, peer, before, limit);
      var c' := Received(c.(loading := true), page);
      var next := LoadMore(c');
      if next.None? then [page] else [page] + Follow(logs[1..], user, peer, c', next.value, limit)
  }

  function Texts(pages: seq<Page>): seq<Stored> {
    if |pages| == 0 then [] else pages[0].msgs + Texts(pages[1..])
  }

  /** Between two requests messages may be saved, but none is taken away. */
  ghost predicate Growing(logs: seq<seq<Stored>>) {
    && (forall log :: log in logs ==> Numbered(log))
    && (forall i, j :: 0 <= i <= j < |logs| ==> logs[i] <= logs[j])
  }

  lemma {:induction false} OfPrefix(a: seq<Stored>, b: seq<Stored>, c: int)
    requires a <= b
    ensures Of(a, c) <= Of(b, c)
  {
    assert b == a + b[|a|..];
    OnlySum((s: Stored) => s.conversation == c, a, b[|a|..]);
  }

  lemma DownPrefix(rows: seq<Stored>, more: seq<Stored>, hi: nat, lo: nat)
    requires rows <= more && lo <= hi <= |rows|
    ensures Down(more, hi, lo) == Down(rows, hi, lo)
  {
  }

  lemma DownSplit(rows: seq<Stored>, hi: nat, mid: nat, lo: nat)
    requires lo <= mid <= hi <= |rows|
    ensures Down(rows, hi, lo) == Down(rows, hi, mid) + Down(rows, mid, lo)
  {
  }

  /** How many requests h messages take: the last page is the first that is not full. */
  function PagesFor(h: nat, limit: int): (n: nat)
    requires limit > 0
    ensures n >= 1
  {
    h / limit + 1
  }

  ghost predicate Covered(logs: seq<seq<Stored>>, rows: seq<Stored>, c: int) {
    forall log :: log in logs ==> rows <= Of(log, c)
  }

  /** Following the cursor below number h yields the messages h, h-1, ..., 1. */
  lemma {:induction false} FollowFrom(logs: seq<seq<Stored>>, user: int, peer: int, c: Cursor, before: int, asked: int,
                                      rows: seq<Stored>, h: nat)
    requires Growing(logs) && |logs| >= PagesFor(h, Limit(asked))
    requires Covered(logs, rows, C.MakeConversationId(user, peer))
    requires h <= |rows| && Below(|Of(logs[0], C.MakeConversationId(user, peer))|, Before(before)) == h
    requires c.minSeq.None? || c.minSeq.value > h
    ensures var pages := Follow(logs, user, peer, c, before, asked);
            Texts(pages) == Down(rows, h, 0) && |pages| == PagesFor(h, Limit(asked))
    decreases |logs|
  {
    hide Numbered, Growing, Covered, RoamMessages, Of, Below, C.MakeConversationId, Limit, Before, PagesFor, Down;
    var conv, limit := C.MakeConversationId(user, peer), Limit(asked);
    assert limit > 0 by { LimitRange(asked); }
    var page := Answer(logs[0], user, peer, before, asked);
    FirstPage(logs, conv, before, limit, rows, h, page);
    FollowUnfolds(logs, user, peer, c, before, asked, page);
    hide Answer, Follow;
    if h < limit {
      LastPage(page, Follow(logs, user, peer, c, before, asked), h, limit);
    } else {
      var lo := h - limit;
      var c' := Received(c.(loading := true), page);
      Division(h, limit);
      NextLog(logs, conv, rows, lo);
      assert Before(lo + 1) == lo + 1 by { BeforeOf(lo + 1); }
      FollowFrom(logs[1..], user, peer, c', lo + 1, asked, rows, lo);
      DownSplit(rows, h, lo, 0);
    }
  }

  lemma FollowUnfolds(logs: seq<seq<Stored>>, user: int, peer: int, c: Cursor, before: int, asked: int, page: Page)
    requires |logs| > 0 && page == Answer(logs[0], user, peer, before, asked)
    requires page.hasMore ==> page.minNumber > 0 && (c.minSeq.None? || c.minSeq.value > page.minNumber)
    ensures Follow(logs, user, peer, c, before, asked)
            == if !page.hasMore then [page]
               else [page] + Follow(logs[1..], user, peer, Received(c.(loading := true), page), page.minNumber, asked)
    ensures page.hasMore ==> Received(c.(loading := true), page).minSeq == Some(page.minNumber)
  {
    hide Answer;
  }

  lemma FirstPage(logs: seq<seq<Stored>>, c: int, before: int, limit: int, rows: seq<Stored>, h: nat, page: Page)
    requires Growing(logs) && |logs| > 0 && Covered(logs, rows, c) && limit > 0
    requires h <= |rows| && Below(|Of(logs[0], c)|, Before(before)) == h
    requires page.msgs == RoamMessages(logs[0], c, Before(before), limit)
    requires page.hasMore == (|page.msgs| == limit)
    requires page.minNumber == if |page.msgs| == 0 then 0 else page.msgs[|page.msgs| - 1].number
    ensures page.msgs == Down(rows, h, if limit < h then h - limit else 0)
    ensures page.hasMore <==> h >= limit
    ensures h >= limit ==> page.minNumber == h - limit + 1
  {
    hide Below, RoamMessages, Numbered, Of;
    assert logs[0] in logs;
    PageIsSlice(logs[0], c, Before(before), limit);
    DownPrefix(rows, Of(logs[0], c), h, if limit < h then h - limit else 0);
    if h >= limit {
      NumberAt(logs[0], c, rows, h - limit);
    }
  }

  lemma LimitRange(asked: int)
    ensures 1 <= Limit(asked) <= 100
  {
  }

  lemma BeforeOf(n: int)
    requires n > 0
    ensures Before(n) == n
  {
  }

  lemma LastPage(page: Page, pages: seq<Page>, h: nat, limit: int)
    requires limit > 0 && h < limit && pages == [page]
    ensures Texts(pages) == page.msgs && |pages| == PagesFor(h, limit)
  {
    assert Texts(pages[1..]) == [];
  }

  lemma Division(h: nat, limit: int)
    requires 0 < limit <= h
    ensures PagesFor(h, limit) == PagesFor(h - limit, limit) + 1
  {
    var q, r := (h - limit) / limit, (h - limit) % limit;
    assert limit * (q + 1) == limit * q + limit;
    C.RemainderIs(h, limit, q + 1, r);
    assert limit * (h / limit - (q + 1)) == limit * (h / limit) - limit * (q + 1) == 0;
    C.Apart(limit, h / limit - (q + 1));
  }

  lemma NextLog(logs: seq<seq<Stored>>, c: int, rows: seq<Stored>, lo: nat)
    requires Growing(logs) && |logs| > 1 && lo < |rows|
    requires Covered(logs, rows, c)
    ensures Covered(logs[1..], rows, c)
    ensures Growing(logs[1..]) && Below(|Of(logs[1], c)|, lo + 1) == lo
  {
    hide Numbered, Of;
    assert logs[1] in logs;
  }

  /** Starting from the maximum cursor and following min_seq while has_more, the client gets
      every message saved before its first request exactly once, newest first, and nothing
      else, whatever is saved between its requests; it stops after floor(n/limit)+1 pages. */
  lemma PagesCoverHistory(logs: seq<seq<Stored>>, user: int, peer: int, before: int, asked: int)
    requires Growing(logs) && |logs| > 0
    requires var n := |Of(logs[0], C.MakeConversationId(user, peer))|;
             n < INT64_MAX && |logs| >= PagesFor(n, if asked <= 0 then 20 else if asked > 100 then 100 else asked)
    requires before <= 0 || before == INT64_MAX
    ensures var rows := Of(logs[0], C.MakeConversationId(user, peer));
            var pages := Follow(logs, user, peer, Cursor(None, None, false), before, asked);
            && Texts(pages) == Down(rows, |rows|, 0)
            && |pages| == |rows| / (if asked <= 0 then 20 else if asked > 100 then 100 else asked) + 1
            && (forall k :: 0 <= k < |rows| ==> Texts(pages)[k].number == |rows| - k)
  {
    var conv := C.MakeConversationId(user, peer);
    var rows := Of(logs[0], conv);
    forall log | log in logs ensures rows <= Of(log, conv) {
      var j :| 0 <= j < |logs| && logs[j] == log;
      OfPrefix(logs[0], log, conv);
    }
    assert logs[0] in logs && Consecutive(rows);
    FollowFrom(logs, user, peer, Cursor(None, None, false), before, asked, rows, |rows|);
  }

  // ------------------------------------------------------------------ the cursor by itself

  /** The user scrolls to the top, or a page arrives, asked for or not. */
  datatype UiEvent = Scroll | Arrived(page: Page)

  function CursorAfter(events: seq<UiEvent>): Cursor {
    if |events| == 0 then Cursor(None, None, false)
    else
      var c := CursorAfter(events[..|events| - 1]);
      match events[|events| - 1]
      case Scroll => if LoadMore(c).Some? then c.(loading := true) else c
      case Arrived(p) => Received(c, p)
  }

  /** How many requests were sent. */
  function Requests(events: seq<UiEvent>): nat {
    if |events| == 0 then 0
    else
      var before := events[..|events| - 1];
      Requests(before) + if events[|events| - 1].Scroll? && LoadMore(CursorAfter(before)).Some? then 1 else 0
  }

  function Arrivals(events: seq<UiEvent>): nat {
    if |events| == 0 then 0
    else Arrivals(events[..|events| - 1]) + if events[|events| - 1].Arrived? then 1 else 0
  }

  /** However often the user scrolls, no request is sent before the page of the last one is there. */
  lemma {:induction false} OneRequestAtATime(events: seq<UiEvent>)
    ensures Requests(events) <= Arrivals(events)
    ensures CursorAfter(events).loading || CursorAfter(events).minSeq.None? || Requests(events) < Arrivals(events)
  {
    if |events| > 0 {
      OneRequestAtATime(events[..|events| - 1]);
    }
  }

  /** What is asked for lies below every number that has arrived, and only while the latest page
      said that there is more. */
  lemma {:induction false} AsksBelowAll(events: seq<UiEvent>)
    ensures var c := CursorAfter(events);
            && (c.minSeq.Some? ==>
                  && (exists e :: e in events && e.Arrived? && e.page.minNumber == c.minSeq.value > 0)
                  && (forall e :: e in events && e.Arrived? && e.page.minNumber > 0 ==>
                        c.minSeq.value <= e.page.minNumber))
            && (c.minSeq.None? ==> forall e :: e in events && e.Arrived? ==> e.page.minNumber <= 0)
            && (|events| > 0 && events[|events| - 1].Arrived? && !events[|events| - 1].page.hasMore ==>
                  LoadMore(c).None?)
  {
    if |events| > 0 {
      AsksBelowAll(events[..|events| - 1]);
      assert events == events[..|events| - 1] + [events[|events| - 1]];
    }
  }

  /** The handler over the database. */
  class RoamHandler {
    const db: Database

    constructor (db: Database)
      ensures this.db == db
    {
      this.db := db;
    }

    /** One step down the index. */
    method NewestBelow(conversation: int, before: int) returns (best: nat)
      ensures best == Newest(LogOf(db.rows), conversation, before)
    {
      hide Newest;
      var log := LogOf(db.rows);
      best := |log|;
      var i := 0;
      while i < |log|
        invariant 0 <= i <= |log|
        invariant var n := Newest(log[..i], conversation, before); best == if n == i then |log| else n
      {
        NewestStep(log[..i], log[i], conversation, before);
        assert log[..i + 1] == log[..i] + [log[i]];
        if log[i].conversation == conversation && log[i].number < before
           && (best == |log| || log[i].number > log[best].number) {
          best := i;
        }
        i := i + 1;
      }
      assert log[..i] == log;
    }

    method RoamRows(conversation: int, before: int, limit: nat) returns (out: seq<Stored>)
      ensures out == RoamMessages(LogOf(db.rows), conversation, before, limit)
    {
      hide *;
      out := [];
      var cursor := before;
      ghost var log, all := LogOf(db.rows), RoamMessages(LogOf(db.rows), conversation, before, limit);
      assert [] + all == all;
      while |out| < limit
        invariant |out| <= limit
        invariant out + RoamMessages(log, conversation, cursor, limit - |out|) == all
      {
        var i := NewestBelow(conversation, cursor);
        RoamStep(log, conversation, cursor, limit - |out|);
        if i == |db.rows| {
          assert out + [] == out;
          return;
        }
        assert log[i] == db.rows[i].s;
        Regroup(out, log[i], RoamMessages(log, conversation, log[i].number, limit - |out| - 1));
        cursor := db.rows[i].s.number;
        out := out + [db.rows[i].s];
      }
      RoamStep(log, conversation, cursor, 0);
    }

    /** A request of a session nobody has logged in on is not answered. */
    method OnMessages(userId: int, peerId: int, beforeSeq: int, limitAsked: int) returns (answer: Option<Page>)
      ensures answer == if userId <= 0 then None
              else Some(Answer(LogOf(db.rows), userId, peerId, beforeSeq, limitAsked))
    {
      if userId <= 0 {
        return None;
      }
      var before := if beforeSeq > 0 then beforeSeq else INT64_MAX;
      var limit := if limitAsked > 0 then limitAsked else 20;
      if limit > 100 {
        limit := 100;
      }
      var rows := RoamRows(C.MakeConversationId(userId, peerId), before, limit);
      answer := Some(Page(rows, |rows| == limit, if |rows| == 0 then 0 else rows[|rows| - 1].number));
    }
  }

  lemma NewestStep(log: seq<Stored>, s: Stored, c: int, before: int)
    ensures var i := Newest(log, c, before);
            Newest(log + [s], c, before)
            == if s.conversation == c && s.number < before && (i == |log| || s.number > log[i].number) then |log|
               else if i == |log| then |log| + 1
               else i
  {
    assert (log + [s])[..|log|] == log;
  }

  lemma RoamStep(log: seq<Stored>, c: int, before: int, limit: nat)
    ensures var i := Newest(log, c, before);
            RoamMessages(log, c, before, limit)
            == if limit == 0 || i == |log| then [] else [log[i]] + RoamMessages(log, c, log[i].number, limit - 1)
  {
  }

  lemma Regroup(a: seq<Stored>, s: Stored, b: seq<Stored>)
    ensures a + ([s] + b) == (a + [s]) + b
  {
  }

  /** The paging state of one conversation in MainViewModel. */
  class HistoryCursor {
    var loadedMinSeq: Option<int>
    var roamHasMore: Option<bool>
    var roamLoading: bool

    function Contents(): Cursor reads this { Cursor(loadedMinSeq, roamHasMore, roamLoading) }

    constructor ()
      ensures Contents() == Cursor(None, None, false)
    {
      loadedMinSeq, roamHasMore, roamLoading := None, None, false;
    }

    method LoadMoreHistory() returns (request: Option<int>)
      modifies this
      ensures request == LoadMore(old(Contents()))
      ensures Contents() == if request.Some? then old(Contents()).(loading := true) else old(Contents())
    {
      request := None;
      if roamHasMore == Some(false) || roamLoading || loadedMinSeq.None? {
        return;
      }
      roamLoading := true;
      request := loadedMinSeq;
    }

    method OnRoamMessages(page: Page)
      modifies this
      ensures Contents() == Received(old(Contents()), page)
    {
      if page.minNumber > 0 {
        if loadedMinSeq.None? || page.minNumber < loadedMinSeq.value {
          loadedMinSeq := Some(page.minNumber);
        }
      }
      roamHasMore, roamLoading := Some(page.hasMore), false;
    }
  }
}
