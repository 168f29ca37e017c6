// utf8Truncate of Protocol.h and the context builder of AiContextBuilder.cpp.

/** UTF-8 as section 4 of RFC 3629 defines it, and cutting it. */
module Utf8 {
  import opened Bytes

  predicate IsTail(b: byte) { 0x80 <= b <= 0xBF }

  /** The length of the well-formed character s begins with, or 0. */
  function CharLen(s: bytes): (n: nat)
    ensures n <= 4 && n <= |s|
  {
    if |s| == 0 then 0
    else if s[0] <= 0x7F then 1
    else if |s| < 2 || !IsTail(s[1]) then 0
    else if 0xC2 <= s[0] <= 0xDF then 2
    else if |s| < 3 || !IsTail(s[2]) then 0
    else if (s[0] == 0xE0 && s[1] >= 0xA0) || 0xE1 <= s[0] <= 0xEC || (s[0] == 0xED && s[1] <= 0x9F)
        || 0xEE <= s[0] <= 0xEF then 3
    else if |s| < 4 || !IsTail(s[3]) then 0
    else if (s[0] == 0xF0 && s[1] >= 0x90) || 0xF1 <= s[0] <= 0xF3 || (s[0] == 0xF4 && s[1] <= 0x8F) then 4
    else 0
  }

  predicate WellFormed(s: bytes) {
    |s| == 0 || (CharLen(s) > 0 && WellFormed(s[CharLen(s)..]))
  }

  /** The loop of utf8Truncate: back to the start of a character. */
  function Boundary(s: bytes, n: nat): (k: nat)
    requires n < |s|
    ensures k <= n && (k == 0 || !IsTail(s[k]))
    ensures forall i :: k < i <= n ==> IsTail(s[i])
  {
    if n > 0 && IsTail(s[n]) then Boundary(s, n - 1) else n
  }

  function Truncate(s: bytes, maxBytes: nat): (t: bytes)
    ensures t <= s && |t| <= maxBytes
  {
    if |s| <= maxBytes then s else s[..Boundary(s, maxBytes)]
  }

  /** A character cut short is not a character, and its later bytes are tails. */
  lemma InsideChar(s: bytes, k: nat)
    requires 0 < k < CharLen(s)
    ensures IsTail(s[k]) && CharLen(s[..k]) == 0
  {
    var t := s[..k];
    assert t[0] == s[0] && (k > 1 ==> t[1] == s[1]) && (k > 2 ==> t[2] == s[2]);
  }

  lemma CharOfPrefix(s: bytes, k: nat)
    requires 0 < CharLen(s) <= k <= |s|
    ensures CharLen(s[..k]) == CharLen(s)
  {
    var t := s[..k];
    assert t[0] == s[0] && (k > 1 ==> t[1] == s[1]) && (k > 2 ==> t[2] == s[2]) && (k > 3 ==> t[3] == s[3]);
  }

  /** A prefix of well-formed text is well formed exactly if it does not end before a tail byte. */
  lemma {:induction false} PrefixWellFormed(s: bytes, k: nat)
    requires WellFormed(s) && k <= |s|
    ensures WellFormed(s[..k]) <==> k == |s| || !IsTail(s[k])
    decreases |s|
  {
    hide CharLen;
    if k == |s| {
      assert s[..k] == s;
    } else {
      var n := CharLen(s);
      if k == 0 {
        FirstIsNoTail(s);
      } else if k < n {
        InsideChar(s, k);
      } else {
        CharOfPrefix(s, k);
        assert s[..k][n..] == s[n..][..k - n];
        PrefixWellFormed(s[n..], k - n);
      }
    }
  }

  lemma FirstIsNoTail(s: bytes)
    requires CharLen(s) > 0
    ensures !IsTail(s[0])
  {
  }

  /** Truncating well-formed text gives its longest well-formed prefix within the limit. */
  lemma TruncateIsLongest(s: bytes, maxBytes: nat)
    requires WellFormed(s)
    ensures var t := Truncate(s, maxBytes);
            && WellFormed(t)
            && (forall k :: 0 <= k <= |s| && k <= maxBytes && WellFormed(s[..k]) ==> k <= |t|)
  {
    hide CharLen, WellFormed;
    if |s| <= maxBytes {
    } else {
      var b := Boundary(s, maxBytes);
      PrefixWellFormed(s, b);
      if b == 0 {
        Nothing(s[..0]);
      }
      forall k | 0 <= k <= |s| && k <= maxBytes && WellFormed(s[..k]) ensures k <= b {
        PrefixWellFormed(s, k);
      }
    }
  }

  lemma Nothing(s: bytes)
    requires |s| == 0
    ensures WellFormed(s)
  {
  }

  /** Truncating twice is truncating once to the smaller limit, for any bytes at all. */
  lemma TruncateTwice(s: bytes, a: nat, b: nat)
    ensures Truncate(Truncate(s, a), b) == Truncate(s, if a < b then a else b)
  {
    if |s| > a && b < |s| {
      var t, m := Truncate(s, a), if a < b then a else b;
      if |t| <= b {
        SameBoundary(s, Boundary(s, a), m);
      } else {
        PrefixBoundary(s, |t|, b);
      }
    }
  }

  lemma SameBoundary(s: bytes, k: nat, n: nat)
    requires k <= n < |s| && (k == 0 || !IsTail(s[k])) && forall i :: k < i <= n ==> IsTail(s[i])
    ensures Boundary(s, n) == k
  {
  }

  lemma PrefixBoundary(s: bytes, len: nat, n: nat)
    requires n < len <= |s|
    ensures Boundary(s[..len], n) == Boundary(s, n)
  {
  }

  /** A cut wastes at most three bytes. */
  lemma CutIsTight(s: bytes, maxBytes: nat)
    requires WellFormed(s) && |s| > maxBytes
    ensures |Truncate(s, maxBytes)| + 3 >= maxBytes
  {
    BoundaryIsNear(s, maxBytes);
  }

  lemma {:induction false} BoundaryIsNear(s: bytes, n: nat)
    requires WellFormed(s) && n < |s|
    ensures Boundary(s, n) + 3 >= n
    decreases |s|
  {
    var c := CharLen(s);
    if n >= c {
      BoundaryIsNear(s[c..], n - c);
      var k := Boundary(s[c..], n - c);
      assert forall i :: k + c < i <= n ==> s[i] == s[c..][i - c];
      assert s[k + c] == s[c..][k];
      hide CharLen;
      if k + c > 0 && IsTail(s[k + c]) {
        FirstIsNoTail(s[c..]);
      }
      SameBoundary(s, k + c, n);
    }
  }

  method Utf8Truncate(s: bytes, maxBytes: nat) returns (t: bytes)
    ensures t == Truncate(s, maxBytes)
  {
    if |s| <= maxBytes {
      return s;
    }
    var n := maxBytes;
    while n > 0 && IsTail(s[n])
      invariant 0 <= n < |s| && Boundary(s, n) == Boundary(s, maxBytes)
    {
      n := n - 1;
    }
    t := s[..n];
  }
}

module AiContext {
  import opened Bytes
  import opened Utf8

  type Redactor = bytes -> bytes

  /** A row of roamMessages, as far as the builder reads it. */
  datatype Row = Row(number: int, sender: int, receiver: int, kind: int, content: bytes)

  datatype Role = Me | Peer

  datatype Turn = Turn(role: Role, text: bytes)

  /** A message that may go into the context, under its number. */
  datatype Candidate = Candidate(number: int, role: Role, text: bytes)

  datatype Policy = Policy(maxMessages: int, maxMessageBytes: int, maxContextBytes: int)

  datatype Request = Request(turns: seq<Turn>, maxSuggestions: int)

  function AtLeastOne(x: int): (n: nat)
    ensures n >= 1
  {
    if x < 1 then 1 else x
  }

  function Clamp(x: int): int { if x < 1 then 1 else if x > 3 then 3 else x }

  predicate Belongs(r: Row, user: int, peer: int) {
    (r.sender == user && r.receiver == peer) || (r.sender == peer && r.receiver == user)
  }

  /** What a row offers: a text of this conversation, redacted, within the message limit. */
  function Offer(redact: Redactor, r: Row, user: int, peer: int, p: Policy): seq<Candidate> {
    if r.kind != 0 || |r.content| == 0 || !Belongs(r, user, peer) then []
    else
      var text := Truncate(redact(r.content), AtLeastOne(p.maxMessageBytes));
      if |text| == 0 then [] else [Candidate(r.number, if r.sender == user then Me else Peer, text)]
  }

  /** The eligible messages, newest first: the reference for what the loop may take. */
  function Eligible(redact: Redactor, rows: seq<Row>, user: int, peer: int, p: Policy): seq<Candidate> {
    if |rows| == 0 then [] else Offer(redact, rows[0], user, peer, p) + Eligible(redact, rows[1..], user, peer, p)
  }

  function Left(limit: nat, used: nat): nat { if used < limit then limit - used else 0 }

  /** The loop: newest first, with `used` bytes and `room` messages. */
  function Pick(redact: Redactor, rows: seq<Row>, user: int, peer: int, p: Policy, used: nat, room: nat): seq<Candidate>
    decreases rows
  {
    if |rows| == 0 || room == 0 then []
    else
      var offer := Offer(redact, rows[0], user, peer, p);
      if |offer| == 0 then Pick(redact, rows[1..], user, peer, p, used, room)
      else
        var text := Truncate(offer[0].text, Left(AtLeastOne(p.maxContextBytes), used));
        if |text| == 0 then []
        else [offer[0].(text := text)] + Pick(redact, rows[1..], user, peer, p, used + |text|, room - 1)
  }

  lemma PickStep(redact: Redactor, rows: seq<Row>, user: int, peer: int, p: Policy, used: nat, room: nat)
    ensures var picked := Pick(redact, rows, user, peer, p, used, room);
            if |rows| == 0 || room == 0 then picked == []
            else
              var offer := Offer(redact, rows[0], user, peer, p);
              if |offer| == 0 then picked == Pick(redact, rows[1..], user, peer, p, used, room)
              else
                var text := Truncate(offer[0].text, Left(AtLeastOne(p.maxContextBytes), used));
                && |offer| == 1
                && picked == if |text| == 0 then []
                             else [offer[0].(text := text)] + Pick(redact, rows[1..], user, peer, p,
                               used + |text|, room - 1)
  {
    hide Truncate;
  }

  function TurnOf(c: Candidate): Turn { Turn(c.role, c.text) }

  function Reversed(picked: seq<Candidate>): (turns: seq<Turn>)
    ensures |turns| == |picked|
    ensures forall i :: 0 <= i < |picked| ==> turns[i] == TurnOf(picked[|picked| - 1 - i])
  {
    if |picked| == 0 then [] else Reversed(picked[1..]) + [TurnOf(picked[0])]
  }

  function Picked(redact: Redactor, rows: seq<Row>, user: int, peer: int, p: Policy): seq<Candidate> {
    Pick(redact, rows, user, peer, p, 0, AtLeastOne(p.maxMessages))
  }

  /** buildReplyContext. */
  function Build(redact: Redactor, rows: seq<Row>, user: int, peer: int, maxSuggestions: int, p: Policy): Request {
    Request(Reversed(Picked(redact, rows, user, peer, p)), Clamp(maxSuggestions))
  }

  function Size(picked: seq<Candidate>): nat {
    if |picked| == 0 then 0 else |picked[0].text| + Size(picked[1..])
  }

  /** The first n eligible messages, each cut to what its newer ones have left of the budget. */
  ghost predicate Fills(picked: seq<Candidate>, eligible: seq<Candidate>, limit: nat, used: nat) {
    |picked| == 0
    || (&& |eligible| > 0
        && |picked[0].text| > 0
        && picked[0] == eligible[0].(text := Truncate(eligible[0].text, Left(limit, used)))
        && Fills(picked[1..], eligible[1..], limit, used + |picked[0].text|))
  }

  /** Why the loop ends: nothing eligible is left, the count is reached, or not even the
      first character of the next eligible message fits. */
  predicate Ends(picked: seq<Candidate>, eligible: seq<Candidate>, limit: nat, used: nat, room: nat)
    requires |picked| <= |eligible|
  {
    || |picked| == |eligible|
    || |picked| == room
    || |Truncate(eligible[|picked|].text, Left(limit, used + Size(picked)))| == 0
  }

  lemma {:induction false} PickFills(redact: Redactor, rows: seq<Row>, user: int, peer: int, p: Policy, used: nat,
      room: nat)
    ensures var picked := Pick(redact, rows, user, peer, p, used, room);
            var eligible := Eligible(redact, rows, user, peer, p);
            var limit := AtLeastOne(p.maxContextBytes);
            && |picked| <= room && |picked| <= |eligible|
            && Fills(picked, eligible, limit, used)
            && Ends(picked, eligible, limit, used, room)
            && (|picked| > 0 ==> used + Size(picked) <= limit)
    decreases rows
  {
    PickStep(redact, rows, user, peer, p, used, room);
    hide Pick, Offer, Truncate, Left;
    if |rows| > 0 && room > 0 {
      var offer := Offer(redact, rows[0], user, peer, p);
      var limit := AtLeastOne(p.maxContextBytes);
      var eligible, rest := Eligible(redact, rows, user, peer, p), Eligible(redact, rows[1..], user, peer, p);
      assert eligible == offer + rest;
      hide Eligible;
      if |offer| == 0 {
        assert eligible == rest;
        PickFills(redact, rows[1..], user, peer, p, used, room);
      } else {
        assert eligible[0] == offer[0] && eligible[1..] == rest;
        var text := Truncate(offer[0].text, Left(limit, used));
        WithinBudget(offer[0].text, limit, used);
        if |text| > 0 {
          PickFills(redact, rows[1..], user, peer, p, used + |text|, room - 1);
          var tail := Pick(redact, rows[1..], user, peer, p, used + |text|, room - 1);
          var picked := [offer[0].(text := text)] + tail;
          assert picked[1..] == tail && picked[0] == offer[0].(text := text);
          assert |tail| < |rest| ==> eligible[|picked|] == rest[|tail|];
        }
      }
    }
  }

  lemma WithinBudget(text: bytes, limit: nat, used: nat)
    ensures var t := Truncate(text, Left(limit, used)); |t| > 0 ==> used + |t| <= limit
  {
  }

  /** The context takes the newest eligible messages in unbroken order, whole as long as they
      fit, and ends only when nothing is left, the count is reached, or the next message
      cannot contribute a character; count and bytes stay within the limits. */
  lemma KeepsNewest(redact: Redactor, rows: seq<Row>, user: int, peer: int, p: Policy)
    ensures var picked := Picked(redact, rows, user, peer, p);
            var eligible := Eligible(redact, rows, user, peer, p);
            var limit := AtLeastOne(p.maxContextBytes);
            && |picked| <= AtLeastOne(p.maxMessages) && Size(picked) <= limit
            && Fills(picked, eligible, limit, 0) && |picked| <= |eligible|
            && Ends(picked, eligible, limit, 0, AtLeastOne(p.maxMessages))
  {
    PickFills(redact, rows, user, peer, p, 0, AtLeastOne(p.maxMessages));
    hide Pick, Fills, Ends;
  }

  /** Redaction of well-formed text is well formed. */
  ghost predicate Sound(redact: Redactor) { forall s :: WellFormed(s) ==> WellFormed(redact(s)) }

  ghost predicate ContentsOk(rows: seq<Row>) { forall r :: r in rows ==> WellFormed(r.content) }

  ghost predicate Descending(rows: seq<Row>) { forall i, j :: 0 <= i < j < |rows| ==> rows[i].number > rows[j].number }

  ghost predicate NewestFirst(picked: seq<Candidate>) {
    forall i, j :: 0 <= i < j < |picked| ==> picked[i].number > picked[j].number
  }

  ghost predicate TurnOk(c: Candidate, rows: seq<Row>, p: Policy) {
    && 0 < |c.text| <= AtLeastOne(p.maxMessageBytes) && WellFormed(c.text)
    && exists r :: r in rows && r.number == c.number
  }

  ghost predicate AllOk(picked: seq<Candidate>, rows: seq<Row>, p: Policy) {
    forall c :: c in picked ==> TurnOk(c, rows, p)
  }

  lemma {:induction false} PickedAreOk(redact: Redactor, rows: seq<Row>, user: int, peer: int, p: Policy, used: nat,
      room: nat)
    requires Sound(redact) && Descending(rows) && ContentsOk(rows)
    ensures var picked := Pick(redact, rows, user, peer, p, used, room);
            AllOk(picked, rows, p) && NewestFirst(picked)
    decreases rows
  {
    hide AllOk, WellFormed, Descending, NewestFirst, Pick, TurnOk, Offer, Truncate, Left, Sound, ContentsOk;
    PickStep(redact, rows, user, peer, p, used, room);
    NoneOk(rows, p);
    if |rows| > 0 && room > 0 {
      var offer := Offer(redact, rows[0], user, peer, p);
      Tail(rows);
      if |offer| == 0 {
        PickedAreOk(redact, rows[1..], user, peer, p, used, room);
        StillOk(Pick(redact, rows[1..], user, peer, p, used, room), rows, p);
      } else {
        var limit := Left(AtLeastOne(p.maxContextBytes), used);
        var text := Truncate(offer[0].text, limit);
        if |text| > 0 {
          OfferOk(redact, rows, user, peer, p, limit);
          PickedAreOk(redact, rows[1..], user, peer, p, used + |text|, room - 1);
          Prepend(offer[0].(text := text), Pick(redact, rows[1..], user, peer, p, used + |text|, room - 1), rows, p);
        }
      }
    }
  }

  lemma NoneOk(rows: seq<Row>, p: Policy)
    ensures NewestFirst([]) && AllOk([], rows, p)
  {
  }

  lemma Prepend(c: Candidate, tail: seq<Candidate>, rows: seq<Row>, p: Policy)
    requires |rows| > 0 && Descending(rows) && c.number == rows[0].number
    requires NewestFirst(tail) && AllOk(tail, rows[1..], p) && TurnOk(c, rows, p)
    ensures NewestFirst([c] + tail) && AllOk([c] + tail, rows, p)
  {
    hide WellFormed, ContentsOk;
    Tail(rows);
    StillOk(tail, rows, p);
    forall d | d in tail ensures c.number > d.number {
      assert TurnOk(d, rows[1..], p);
    }
  }

  lemma Tail(rows: seq<Row>)
    requires |rows| > 0 && Descending(rows)
    ensures Descending(rows[1..])
    ensures forall r :: r in rows[1..] ==> r in rows && r.number < rows[0].number
    ensures ContentsOk(rows) ==> ContentsOk(rows[1..]) && WellFormed(rows[0].content)
  {
    hide WellFormed;
    forall r | r in rows[1..] ensures r in rows && r.number < rows[0].number {
      var i :| 0 <= i < |rows[1..]| && rows[1..][i] == r;
      assert rows[i + 1] == r;
    }
  }

  lemma StillOk(picked: seq<Candidate>, rows: seq<Row>, p: Policy)
    requires |rows| > 0 && AllOk(picked, rows[1..], p)
    ensures AllOk(picked, rows, p)
  {
    hide WellFormed;
    forall c | c in picked ensures TurnOk(c, rows, p) {
      assert TurnOk(c, rows[1..], p);
    }
  }

  lemma OfferOk(redact: Redactor, rows: seq<Row>, user: int, peer: int, p: Policy, limit: nat)
    requires |rows| > 0 && Sound(redact) && WellFormed(rows[0].content)
    requires |Offer(redact, rows[0], user, peer, p)| > 0
    requires |Truncate(Offer(redact, rows[0], user, peer, p)[0].text, limit)| > 0
    ensures var offer := Offer(redact, rows[0], user, peer, p)[0];
            offer.number == rows[0].number && TurnOk(offer.(text := Truncate(offer.text, limit)), rows, p)
  {
    hide WellFormed, Truncate;
    var full := redact(rows[0].content);
    assert WellFormed(full);
    TruncateIsLongest(full, AtLeastOne(p.maxMessageBytes));
    TruncateIsLongest(Truncate(full, AtLeastOne(p.maxMessageBytes)), limit);
  }

  /** For rows in descending order of well-formed text: every turn is well formed, not empty
      and within the message limit, and the turns are in chronological order, the i-th one
      being the message numbers[i]. */
  lemma ContextIsSound(redact: Redactor, rows: seq<Row>, user: int, peer: int, maxSuggestions: int, p: Policy)
    returns (numbers: seq<int>)
    requires Sound(redact) && Descending(rows) && ContentsOk(rows)
    ensures var turns := Build(redact, rows, user, peer, maxSuggestions, p).turns;
            && |numbers| == |turns| <= AtLeastOne(p.maxMessages)
            && (forall t :: t in turns ==> WellFormed(t.text) && 0 < |t.text| <= AtLeastOne(p.maxMessageBytes))
            && (forall i, j :: 0 <= i < j < |numbers| ==> numbers[i] < numbers[j])
            && (forall n :: n in numbers ==> exists r :: r in rows && r.number == n)
  {
    hide WellFormed, Pick, TurnOk, AllOk, Descending, Sound, ContentsOk, Fills, Ends;
    PickedAreOk(redact, rows, user, peer, p, 0, AtLeastOne(p.maxMessages));
    KeepsNewest(redact, rows, user, peer, p);
    var picked := Picked(redact, rows, user, peer, p);
    numbers := Numbers(picked);
    hide Picked, Eligible, Size, Reversed, NewestFirst;
    TurnsOk(picked, rows, p);
  }

  function Numbers(picked: seq<Candidate>): (numbers: seq<int>)
    ensures |numbers| == |picked|
    ensures forall i :: 0 <= i < |picked| ==> numbers[i] == picked[|picked| - 1 - i].number
  {
    seq(|picked|, i requires 0 <= i < |picked| => picked[|picked| - 1 - i].number)
  }

  lemma TurnsOk(picked: seq<Candidate>, rows: seq<Row>, p: Policy)
    requires NewestFirst(picked) && AllOk(picked, rows, p)
    ensures var numbers, turns := Numbers(picked), Reversed(picked);
            && (forall t :: t in turns ==> WellFormed(t.text) && 0 < |t.text| <= AtLeastOne(p.maxMessageBytes))
            && (forall i, j :: 0 <= i < j < |numbers| ==> numbers[i] < numbers[j])
            && (forall n :: n in numbers ==> exists r :: r in rows && r.number == n)
  {
    hide WellFormed, TurnOk;
    var numbers, turns := Numbers(picked), Reversed(picked);
    hide Numbers, Reversed;
    forall t | t in turns ensures WellFormed(t.text) && 0 < |t.text| <= AtLeastOne(p.maxMessageBytes) {
      var i :| 0 <= i < |turns| && turns[i] == t;
      OkTurn(picked[|picked| - 1 - i], rows, p);
    }
    forall n | n in numbers ensures exists r :: r in rows && r.number == n {
      var i :| 0 <= i < |numbers| && numbers[i] == n;
      OkTurn(picked[|picked| - 1 - i], rows, p);
    }
  }

  lemma OkTurn(c: Candidate, rows: seq<Row>, p: Policy)
    requires TurnOk(c, rows, p)
    ensures 0 < |c.text| <= AtLeastOne(p.maxMessageBytes) && WellFormed(c.text)
    ensures exists r :: r in rows && r.number == c.number
  {
  }

  /** What the k-th message taken is: the k-th eligible one, cut to what the newer ones left. */
  lemma {:induction false} FillsAt(picked: seq<Candidate>, eligible: seq<Candidate>, limit: nat, used: nat, k: nat)
    requires Fills(picked, eligible, limit, used) && k < |picked| <= |eligible|
    ensures |picked[k].text| > 0
    ensures picked[k] == eligible[k].(text := Truncate(eligible[k].text, Left(limit, used + Size(picked[..k]))))
  {
    hide Truncate, Left;
    if k == 0 {
      assert picked[..0] == [];
    } else {
      FillsAt(picked[1..], eligible[1..], limit, used + |picked[0].text|, k - 1);
      assert picked[..k][0] == picked[0] && picked[..k][1..] == picked[1..][..k - 1];
    }
  }

  /** The row is a text of the conversation between these two. */
  predicate TextBetween(r: Row, user: int, peer: int) {
    && r.kind == 0 && |r.content| > 0
    && ((r.sender == user && r.receiver == peer) || (r.sender == peer && r.receiver == user))
  }

  /** The candidate quotes the row: its number, whose it is, and its redacted text cut to the
      message limit. */
  predicate Quotes(redact: Redactor, c: Candidate, r: Row, user: int, limit: nat) {
    && c.number == r.number && (c.role.Me? <==> r.sender == user)
    && c.text == Truncate(redact(r.content), limit)
  }

  /** Eligible are exactly the texts of this conversation of which redaction leaves something. */
  lemma {:induction false} EligibleExactlyWhen(redact: Redactor, rows: seq<Row>, user: int, peer: int, p: Policy,
                                               c: Candidate)
    ensures c in Eligible(redact, rows, user, peer, p) <==>
              |c.text| > 0 && exists r :: r in rows && TextBetween(r, user, peer)
                                          && Quotes(redact, c, r, user, AtLeastOne(p.maxMessageBytes))
  {
    hide Truncate;
    if |rows| > 0 {
      EligibleExactlyWhen(redact, rows[1..], user, peer, p, c);
      assert rows == [rows[0]] + rows[1..];
      assert c in Offer(redact, rows[0], user, peer, p) <==>
               |c.text| > 0 && TextBetween(rows[0], user, peer)
               && Quotes(redact, c, rows[0], user, AtLeastOne(p.maxMessageBytes));
      hide Offer, TextBetween, Quotes;
    }
  }

  /** Every turn of the context is the beginning of the redacted text of a text message of this
      conversation, under the role of its sender; one to three suggestions are asked for. */
  lemma TurnsQuoteMessages(redact: Redactor, rows: seq<Row>, user: int, peer: int, maxSuggestions: int, p: Policy,
                           i: nat)
    requires i < |Build(redact, rows, user, peer, maxSuggestions, p).turns|
    ensures var request := Build(redact, rows, user, peer, maxSuggestions, p);
            && 1 <= request.maxSuggestions <= 3
            && (1 <= maxSuggestions <= 3 ==> request.maxSuggestions == maxSuggestions)
            && (maxSuggestions > 3 ==> request.maxSuggestions == 3)
            && exists r :: r in rows && TextBetween(r, user, peer)
                 && request.turns[i].text <= redact(r.content)
                 && (request.turns[i].role.Me? <==> r.sender == user)
  {
    var picked := Picked(redact, rows, user, peer, p);
    var k := |picked| - 1 - i;
    var r := PickedQuotes(redact, rows, user, peer, p, k);
    hide Picked, TextBetween;
    assert Build(redact, rows, user, peer, maxSuggestions, p).turns[i] == TurnOf(picked[k]);
  }

  lemma PickedQuotes(redact: Redactor, rows: seq<Row>, user: int, peer: int, p: Policy, k: nat) returns (r: Row)
    requires k < |Picked(redact, rows, user, peer, p)|
    ensures var c := Picked(redact, rows, user, peer, p)[k];
            r in rows && TextBetween(r, user, peer) && c.text <= redact(r.content) && (c.role.Me? <==> r.sender == user)
  {
    hide *;
    KeepsNewest(redact, rows, user, peer, p);
    var picked, eligible := Picked(redact, rows, user, peer, p), Eligible(redact, rows, user, peer, p);
    FillsAt(picked, eligible, AtLeastOne(p.maxContextBytes), 0, k);
    EligibleExactlyWhen(redact, rows, user, peer, p, eligible[k]);
    r :| r in rows && TextBetween(r, user, peer)
         && Quotes(redact, eligible[k], r, user, AtLeastOne(p.maxMessageBytes));
    QuotedPrefix(redact, eligible[k], r, user, AtLeastOne(p.maxMessageBytes));
    TruncateIsPrefix(eligible[k].text, Left(AtLeastOne(p.maxContextBytes), 0 + Size(picked[..k])));
  }

  lemma QuotedPrefix(redact: Redactor, c: Candidate, r: Row, user: int, limit: nat)
    requires Quotes(redact, c, r, user, limit)
    ensures c.text <= redact(r.content) && (c.role.Me? <==> r.sender == user)
  {
    TruncateIsPrefix(redact(r.content), limit);
    hide Truncate;
  }

  lemma TruncateIsPrefix(s: bytes, limit: nat)
    ensures Truncate(s, limit) <= s
  {
  }

  /** Nothing of a text fits exactly if its first character does not. */
  lemma NothingFits(text: bytes, room: nat)
    requires WellFormed(text) && |text| > 0
    ensures |Truncate(text, room)| == 0 <==> room < CharLen(text)
  {
    TruncateIsLongest(text, room);
    var n := CharLen(text);
    CharOfPrefix(text, n);
    hide CharLen;
    assert text[..n][n..] == [];
    assert WellFormed(text[..n]);
    if 0 < |Truncate(text, room)| < n {
      InsideChar(text, |Truncate(text, room)|);
    }
  }

  /** Exactly when the k-th message taken, cut or not, is the last of the context: no further
      message is eligible, the count is reached, or nothing of the next one fits into what is left. */
  lemma LastExactlyWhen(redact: Redactor, rows: seq<Row>, user: int, peer: int, p: Policy, k: nat)
    requires k < |Picked(redact, rows, user, peer, p)|
    ensures k < |Eligible(redact, rows, user, peer, p)|
    ensures var picked, eligible := Picked(redact, rows, user, peer, p), Eligible(redact, rows, user, peer, p);
            var limit := AtLeastOne(p.maxContextBytes);
            k + 1 == |picked|
            <==> || k + 1 == |eligible|
                 || k + 1 == AtLeastOne(p.maxMessages)
                 || |Truncate(eligible[k + 1].text, Left(limit, Size(picked[..k + 1])))| == 0
  {
    KeepsNewest(redact, rows, user, peer, p);
    var picked, eligible := Picked(redact, rows, user, peer, p), Eligible(redact, rows, user, peer, p);
    hide Picked, Eligible, Truncate, Left, Fills;
    if k + 1 == |picked| {
      assert picked[..k + 1] == picked;
    } else {
      FillsAt(picked, eligible, AtLeastOne(p.maxContextBytes), 0, k + 1);
    }
  }

  /** A message is cut only when fewer than four bytes of the budget then remain. */
  lemma CutNearlyFills(text: bytes, limit: nat, used: nat)
    requires WellFormed(text) && Truncate(text, Left(limit, used)) != text
    ensures Left(limit, used + |Truncate(text, Left(limit, used))|) <= 3
  {
    CutIsTight(text, Left(limit, used));
  }

  /** A cut message is the last of the context exactly if nothing else is eligible, the count
      is reached, or the first character of the next message is longer than the bytes that
      remain, of which there are at most three. */
  lemma CutIsLastExactlyWhen(redact: Redactor, rows: seq<Row>, user: int, peer: int, p: Policy, k: nat)
    requires Sound(redact) && ContentsOk(rows) && k < |Picked(redact, rows, user, peer, p)|
    ensures k < |Eligible(redact, rows, user, peer, p)|
    ensures var picked, eligible := Picked(redact, rows, user, peer, p), Eligible(redact, rows, user, peer, p);
            var left := Left(AtLeastOne(p.maxContextBytes), Size(picked[..k + 1]));
            picked[k] != eligible[k] ==>
              && left <= 3
              && (k + 1 == |picked|
                  <==> || k + 1 == |eligible| || k + 1 == AtLeastOne(p.maxMessages)
                       || left < CharLen(eligible[k + 1].text))
  {
    hide *;
    LastExactlyWhen(redact, rows, user, peer, p, k);
    KeepsNewest(redact, rows, user, peer, p);
    EligibleAreOk(redact, rows, user, peer, p);
    var picked, eligible := Picked(redact, rows, user, peer, p), Eligible(redact, rows, user, peer, p);
    var limit := AtLeastOne(p.maxContextBytes);
    if picked[k] != eligible[k] {
      CutLeavesLittle(picked, eligible, limit, k);
      if k + 1 < |eligible| {
        NothingFits(eligible[k + 1].text, Left(limit, Size(picked[..k + 1])));
      }
    }
  }

  lemma CutLeavesLittle(picked: seq<Candidate>, eligible: seq<Candidate>, limit: nat, k: nat)
    requires Fills(picked, eligible, limit, 0) && k < |picked| <= |eligible|
    requires WellFormed(eligible[k].text) && picked[k] != eligible[k]
    ensures Left(limit, Size(picked[..k + 1])) <= 3
  {
    hide *;
    FillsAt(picked, eligible, limit, 0, k);
    CutNearlyFills(eligible[k].text, limit, Size(picked[..k]));
    assert picked[..k + 1] == picked[..k] + [picked[k]];
    SizeAppend(picked[..k], picked[k]);
  }

  lemma {:induction false} SizeAppend(picked: seq<Candidate>, c: Candidate)
    ensures Size(picked + [c]) == Size(picked) + |c.text|
  {
    if |picked| == 0 {
      assert [c][1..] == [];
    } else {
      assert (picked + [c])[1..] == picked[1..] + [c];
      SizeAppend(picked[1..], c);
    }
  }

  lemma {:induction false} EligibleAreOk(redact: Redactor, rows: seq<Row>, user: int, peer: int, p: Policy)
    requires Sound(redact) && ContentsOk(rows)
    ensures forall c :: c in Eligible(redact, rows, user, peer, p) ==> WellFormed(c.text) && |c.text| > 0
  {
    hide WellFormed, Truncate;
    if |rows| > 0 {
      assert rows[0] in rows;
      assert forall r :: r in rows[1..] ==> r in rows;
      TruncateIsLongest(redact(rows[0].content), AtLeastOne(p.maxMessageBytes));
      EligibleAreOk(redact, rows[1..], user, peer, p);
    }
  }

  /** A cut message need not be the last: with four bytes of budget, a text of two three-byte
      characters is cut to one, and an older one-byte message still fits behind it. */
  lemma CutIsNotAlwaysLast()
    ensures var zhang: bytes := [0xE5, 0xBC, 0xA0];
            var rows := [Row(2, 1, 2, 0, zhang + zhang), Row(1, 1, 2, 0, [0x61])];
            Build(s => s, rows, 1, 2, 3, Policy(20, 2000, 4)).turns == [Turn(Me, [0x61]), Turn(Me, zhang)]
  {
    var zhang: bytes := [0xE5, 0xBC, 0xA0];
    var both := zhang + zhang;
    assert both == [0xE5, 0xBC, 0xA0, 0xE5, 0xBC, 0xA0];
    var newer, older := Row(2, 1, 2, 0, both), Row(1, 1, 2, 0, [0x61]);
    var p := Policy(20, 2000, 4);
    var redact: Redactor := s => s;
    assert Boundary(both, 4) == 3 && both[..3] == zhang;
    assert Truncate(both, 4) == zhang;
    assert Offer(redact, newer, 1, 2, p) == [Candidate(2, Me, both)];
    assert Offer(redact, older, 1, 2, p) == [Candidate(1, Me, [0x61])];
    assert [newer, older][1..] == [older] && [older][1..] == [];
    assert Pick(redact, [], 1, 2, p, 4, 18) == [];
    assert Pick(redact, [older], 1, 2, p, 3, 19) == [Candidate(1, Me, [0x61])];
    assert Pick(redact, [newer, older], 1, 2, p, 0, 20) == [Candidate(2, Me, zhang), Candidate(1, Me, [0x61])];
    assert [Candidate(2, Me, zhang), Candidate(1, Me, [0x61])][1..] == [Candidate(1, Me, [0x61])];
  }

  method BuildReplyContext(redact: Redactor, rows: seq<Row>, userId: int, peerId: int, maxSuggestions: int,
      policy: Policy)
    returns (request: Request)
    ensures request == Build(redact, rows, userId, peerId, maxSuggestions, policy)
  {
    var newestFirst: seq<Candidate> := [];
    var usedBytes := 0;
    var totalLimit, messageLimit := AtLeastOne(policy.maxContextBytes), AtLeastOne(policy.maxMessageBytes);
    var messageCount := AtLeastOne(policy.maxMessages);
    var i := 0;
    hide Truncate, Pick;
    assert rows[0..] == rows;
    while i < |rows| && |newestFirst| < messageCount
      invariant 0 <= i <= |rows| && |newestFirst| <= messageCount && usedBytes >= 0
      invariant newestFirst + Pick(redact, rows[i..], userId, peerId, policy, usedBytes, messageCount - |newestFirst|)
                == Picked(redact, rows, userId, peerId, policy)
    {
      var row := rows[i];
      assert rows[i..][0] == row && rows[i..][1..] == rows[i + 1..];
      PickStep(redact, rows[i..], userId, peerId, policy, usedBytes, messageCount - |newestFirst|);
      i := i + 1;
      if row.kind != 0 || |row.content| == 0 {
        continue;
      }
      var belongs := (row.sender == userId && row.receiver == peerId)
          || (row.sender == peerId && row.receiver == userId);
      if !belongs {
        continue;
      }
      var sanitized := redact(row.content);
      sanitized := Utf8Truncate(sanitized, messageLimit);
      if |sanitized| == 0 {
        continue;
      }
      var remaining := totalLimit - if usedBytes < totalLimit then usedBytes else totalLimit;
      var cut := Utf8Truncate(sanitized, remaining);
      if remaining == 0 || |cut| == 0 {
        assert newestFirst + [] == newestFirst;
        break;
      }
      var turn := Candidate(row.number, if row.sender == userId then Me else Peer, cut);
      newestFirst := newestFirst + [turn];
      usedBytes := usedBytes + |cut|;
    }
    PickStep(redact, rows[i..], userId, peerId, policy, usedBytes, messageCount - |newestFirst|);
    assert newestFirst + [] == newestFirst;
    request := Request(Reversed(newestFirst),
      if maxSuggestions < 1 then 1 else if maxSuggestions > 3 then 3 else maxSuggestions);
  }
}
