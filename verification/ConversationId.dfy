// Conversation ids: Database.h and the migration in Database.cpp on the server, ChatStore.kt
// and AppDatabase.kt on Android. Bits are spelled out over the 64-bit word.

module ConversationId {
  import opened Options

  const WORD: int := 0x1_0000_0000_0000_0000
  const HALF: int := 0x1_0000_0000

  predicate Int32(x: int) { -0x8000_0000 <= x < 0x8000_0000 }

  function Pow2(k: nat): (p: nat)
    ensures p > 0
  {
    if k == 0 then 1 else 2 * Pow2(k - 1)
  }

  /** Bitwise disjunction and conjunction, digit by digit. */
  function Or(a: nat, b: nat): nat
    decreases a + b
  {
    if a == 0 && b == 0 then 0 else 2 * Or(a / 2, b / 2) + if a % 2 == 1 || b % 2 == 1 then 1 else 0
  }

  function And(a: nat, b: nat): nat {
    if a == 0 then 0 else 2 * And(a / 2, b / 2) + if a % 2 == 1 && b % 2 == 1 then 1 else 0
  }

  /** The 64-bit pattern of an integer, and the two's complement value of a pattern. */
  function Bits(x: int): nat { x % WORD }

  function Signed(u: nat): int { if u < WORD / 2 then u else u - WORD }

  function Shl32(u: nat): nat { u * HALF % WORD }

  function Min(a: int, b: int): int { if a < b then a else b }

  function Max(a: int, b: int): int { if a < b then b else a }

  /** makeConversationId. */
  function MakeConversationId(a: int, b: int): int {
    if a <= 0 || b <= 0 then 0 else Signed(Or(Shl32(Bits(Min(a, b))), Bits(Max(a, b))))
  }

  /** ChatStore.conversationId: refuses ids that are not positive. */
  function ClientConversationId(a: int, b: int): Option<int> {
    if a <= 0 || b <= 0 then None
    else Some(Signed(Or(Shl32(And(Bits(Min(a, b)), HALF - 1)), And(Bits(Max(a, b)), HALF - 1))))
  }

  /** The expression of the server's UPDATE. */
  function ServerMigration(sender: int, receiver: int): int {
    Min(sender, receiver) * 4294967296 + Max(sender, receiver)
  }

  /** The expression of the Room migration from version 4 to 5. */
  function RoomMigration(owner: int, peer: int): int {
    Signed(Or(Shl32(Bits(Min(owner, peer))), And(Bits(Max(owner, peer)), 4294967295)))
  }

  // ------------------------------------------------------------------ bits against arithmetic

  lemma {:induction false} OrSelf(b: nat)
    ensures Or(0, b) == b
  {
    if b > 0 {
      OrSelf(b / 2);
    }
  }

  /** Bits that do not overlap add up. */
  lemma {:induction false} OrAdds(a: nat, b: nat, k: nat)
    requires b < Pow2(k)
    ensures Or(a * Pow2(k), b) == a * Pow2(k) + b
    decreases k
  {
    if k == 0 {
      OrZero(a);
    } else {
      var p := Pow2(k - 1);
      assert a * Pow2(k) == 2 * (a * p);
      OrAdds(a, b / 2, k - 1);
    }
  }

  lemma {:induction false} OrZero(a: nat)
    ensures Or(a, 0) == a
  {
    if a > 0 {
      OrZero(a / 2);
    }
  }

  /** A mask of k ones keeps the remainder by 2^k. */
  lemma {:induction false} MaskIsRemainder(a: nat, k: nat)
    ensures And(a, Pow2(k) - 1) == a % Pow2(k)
    decreases k
  {
    if k == 0 {
      AndZero(a);
    } else {
      var p := Pow2(k - 1);
      assert (Pow2(k) - 1) / 2 == p - 1 && (Pow2(k) - 1) % 2 == 1;
      MaskIsRemainder(a / 2, k - 1);
      HalfRemainder(a, p);
    }
  }

  lemma HalfRemainder(a: nat, p: nat)
    requires p > 0
    ensures a % (2 * p) == 2 * ((a / 2) % p) + a % 2
  {
    var q, r := a / 2 / p, a / 2 % p;
    assert a / 2 == q * p + r;
    assert a == (2 * p) * q + (2 * r + a % 2);
    RemainderIs(a, 2 * p, q, 2 * r + a % 2);
  }

  lemma RemainderIs(a: int, m: int, q: int, r: int)
    requires m > 0 && a == m * q + r && 0 <= r < m
    ensures a % m == r
  {
    var d := a / m - q;
    assert m * d == r - a % m;
    Apart(m, d);
  }

  lemma Apart(m: int, d: int)
    requires m > 0
    ensures d > 0 ==> m * d >= m
    ensures d < 0 ==> m * d <= -m
  {
  }

  lemma {:induction false} AndZero(a: nat)
    ensures And(a, 0) == 0
  {
    if a > 0 {
      AndZero(a / 2);
    }
  }

  lemma HalfIsPow()
    ensures Pow2(32) == HALF
  {
    assert Pow2(8) == 256;
    assert Pow2(16) == 256 * Pow2(8);
    assert Pow2(24) == 256 * Pow2(16);
    assert Pow2(32) == 256 * Pow2(24);
  }

  /** The packed word of a 32-bit `low` in the upper and `high` in the lower half. */
  lemma Packed(low: int, high: nat)
    requires Int32(low) && high < HALF
    ensures Signed(Or(Shl32(Bits(low)), high)) == low * HALF + high
  {
    var l := if low >= 0 then low else low + HALF;
    assert Shl32(Bits(low)) == l * HALF;
    HalfIsPow();
    OrAdds(l, high, 32);
    assert Or(l * HALF, high) == l * HALF + high;
  }

  lemma Masked(x: int)
    requires Int32(x)
    ensures And(Bits(x), HALF - 1) == x % HALF
  {
    HalfIsPow();
    MaskIsRemainder(Bits(x), 32);
  }

  // ------------------------------------------------------------------ the ids

  /** For positive ids all four forms are the same number, and it is a positive int64. */
  lemma AllFormsAgree(a: int, b: int)
    requires Int32(a) && Int32(b) && a > 0 && b > 0
    ensures MakeConversationId(a, b) == Min(a, b) * HALF + Max(a, b) == ServerMigration(a, b) == RoomMigration(a, b)
    ensures ClientConversationId(a, b) == Some(MakeConversationId(a, b))
    ensures 0 < MakeConversationId(a, b) < WORD / 2
  {
    hide Or, And, Signed, Shl32;
    Packed(Min(a, b), Max(a, b));
    Masked(Min(a, b));
    Masked(Max(a, b));
  }

  /** Exactly when the forms agree on ids that are not positive. */
  lemma WhenFormsAgree(a: int, b: int)
    requires Int32(a) && Int32(b)
    ensures ClientConversationId(a, b).Some? <==> a > 0 && b > 0
    ensures MakeConversationId(a, b) == ServerMigration(a, b) <==> (a > 0 && b > 0) || (a == 0 && b == 0)
    ensures RoomMigration(a, b) == ServerMigration(a, b) <==> a >= 0 || b >= 0
  {
    hide Or, And, Signed, Shl32, Bits, RoomMigration;
    RoomValue(a, b);
    if a > 0 && b > 0 {
      AllFormsAgree(a, b);
    } else {
      ZeroValue(Min(a, b), Max(a, b));
    }
  }

  lemma ZeroValue(low: int, high: int)
    requires Int32(low) && Int32(high) && low <= high
    ensures low * HALF + high == 0 <==> low == 0 && high == 0
  {
  }

  lemma RoomValue(a: int, b: int)
    requires Int32(a) && Int32(b)
    ensures RoomMigration(a, b) == Min(a, b) * HALF + Max(a, b) % HALF
    ensures Max(a, b) % HALF == Max(a, b) <==> Max(a, b) >= 0
  {
    hide Or, And, Signed, Shl32, Bits;
    Masked(Max(a, b));
    Packed(Min(a, b), Max(a, b) % HALF);
  }

  /** The id is symmetric and determines the unordered pair. */
  lemma IdDeterminesPair(a: int, b: int, c: int, d: int)
    requires Int32(a) && Int32(b) && Int32(c) && Int32(d) && a > 0 && b > 0 && c > 0 && d > 0
    ensures MakeConversationId(a, b) == MakeConversationId(b, a)
    ensures MakeConversationId(a, b) == MakeConversationId(c, d) <==> (a == c && b == d) || (a == d && b == c)
  {
    hide *;
    AllFormsAgree(a, b);
    AllFormsAgree(b, a);
    AllFormsAgree(c, d);
    MinMaxPair(a, b, b, a);
    MinMaxPair(a, b, c, d);
    Halves(Min(a, b), Max(a, b), Min(c, d), Max(c, d));
  }

  lemma MinMaxPair(a: int, b: int, c: int, d: int)
    ensures Min(a, b) == Min(c, d) && Max(a, b) == Max(c, d) <==> (a == c && b == d) || (a == d && b == c)
    ensures a > 0 && b > 0 && Int32(a) && Int32(b) ==> 0 < Max(a, b) < HALF
    ensures c > 0 && d > 0 && Int32(c) && Int32(d) ==> 0 < Max(c, d) < HALF
  {
  }

  lemma Halves(l: int, h: int, m: int, k: int)
    requires 0 <= h < HALF && 0 <= k < HALF
    ensures l * HALF + h == m * HALF + k <==> l == m && h == k
  {
  }

  /** The formula the migrations replace. */
  function OldId(a: int, b: int): int { Min(a, b) * 0x10_0000 + Max(a, b) }

  /** It let two conversations share an id, and could only do so beyond 20-bit ids. */
  lemma OldIdCollides(a: int, b: int, c: int, d: int)
    ensures OldId(2, 3) == OldId(1, 0x10_0003)
    ensures 0 < a < 0x10_0000 && 0 < b < 0x10_0000 && 0 < c < 0x10_0000 && 0 < d < 0x10_0000 ==>
              (OldId(a, b) == OldId(c, d) <==> (a == c && b == d) || (a == d && b == c))
  {
  }

  // ------------------------------------------------------------------ the server's table

  datatype Row = Row(conversation: int, sender: int, receiver: int, number: int)

  ghost predicate Users(rows: seq<Row>) {
    forall r :: r in rows ==> Int32(r.sender) && Int32(r.receiver) && r.sender > 0 && r.receiver > 0
  }

  predicate SamePair(q: Row, r: Row) {
    (q.sender == r.sender && q.receiver == r.receiver) || (q.sender == r.receiver && q.receiver == r.sender)
  }

  /** UNIQUE(conversation_id, seq). */
  ghost predicate Unique(rows: seq<Row>) {
    forall i, j :: 0 <= i < j < |rows| ==>
      !(rows[i].conversation == rows[j].conversation && rows[i].number == rows[j].number)
  }

  function Migrated(rows: seq<Row>): (out: seq<Row>)
    ensures |out| == |rows|
    ensures forall i :: 0 <= i < |rows| ==>
            out[i] == rows[i].(conversation := ServerMigration(rows[i].sender, rows[i].receiver))
  {
    seq(|rows|, i requires 0 <= i < |rows| =>
      rows[i].(conversation := ServerMigration(rows[i].sender, rows[i].receiver)))
  }

  /** The new table is unique exactly when no two messages between the same two users carry
      the same number; so a table that was unique, whatever its old ids were, as long as a
      pair of users had one id, stays unique, and migrating again changes nothing. */
  lemma MigrationKeepsUnique(rows: seq<Row>)
    requires Users(rows)
    ensures Unique(Migrated(rows)) <==>
              (forall i, j :: 0 <= i < j < |rows| && SamePair(rows[i], rows[j]) ==> rows[i].number != rows[j].number)
    ensures Unique(rows) && (forall q, r :: q in rows && r in rows && SamePair(q, r) ==>
              q.conversation == r.conversation)
            ==> Unique(Migrated(rows))
    ensures Migrated(Migrated(rows)) == Migrated(rows)
    ensures forall q, r :: q in Migrated(rows) && r in Migrated(rows) ==>
              (q.conversation == r.conversation <==> SamePair(q, r))
    ensures forall r :: r in Migrated(rows) ==> r.conversation == MakeConversationId(r.sender, r.receiver)
  {
    var out := Migrated(rows);
    forall i, j | 0 <= i < |rows| && 0 <= j < |rows|
      ensures out[i].conversation == out[j].conversation <==> SamePair(rows[i], rows[j])
      ensures out[i].conversation == MakeConversationId(out[i].sender, out[i].receiver)
    {
      var q, r := rows[i], rows[j];
      assert q in rows && r in rows;
      AllFormsAgree(q.sender, q.receiver);
      AllFormsAgree(r.sender, r.receiver);
      IdDeterminesPair(q.sender, q.receiver, r.sender, r.receiver);
    }
    hide ServerMigration, MakeConversationId;
    forall i, j | 0 <= i < j < |rows| && SamePair(rows[i], rows[j])
      ensures Unique(out) ==> rows[i].number != rows[j].number
    {
      assert out[i].conversation == out[j].conversation;
    }
  }

  /** The table and its schema version. */
  class MessagesTable {
    var rows: seq<Row>
    var userVersion: int

    constructor (rows: seq<Row>, userVersion: int)
      ensures this.rows == rows && this.userVersion == userVersion
    {
      this.rows, this.userVersion := rows, userVersion;
    }

    /** One transaction: `updateOk`, `pragmaOk` and `commitOk` say whether its statements succeed. */
    method MigrateConversationIds(updateOk: bool, pragmaOk: bool, commitOk: bool) returns (ok: bool)
      modifies this
      ensures ok <==> updateOk && pragmaOk && commitOk
      ensures ok ==> rows == Migrated(old(rows)) && userVersion == 1
      ensures !ok ==> rows == old(rows) && userVersion == old(userVersion)
    {
      var rowsAtBegin, versionAtBegin := rows, userVersion;
      var i := 0;
      while i < |rows|
        invariant 0 <= i <= |rows| == |rowsAtBegin| && userVersion == versionAtBegin
        invariant rows == Migrated(rowsAtBegin[..i]) + rowsAtBegin[i..]
      {
        var r := rows[i];
        var low := if r.sender < r.receiver then r.sender else r.receiver;
        var high := if r.sender < r.receiver then r.receiver else r.sender;
        rows := rows[i := r.(conversation := low * 4294967296 + high)];
        i := i + 1;
      }
      assert rowsAtBegin[..i] == rowsAtBegin;
      if !updateOk {
        rows := rowsAtBegin;
        return false;
      }
      userVersion := 1;
      if !pragmaOk || !commitOk {
        rows, userVersion := rowsAtBegin, versionAtBegin;
        return false;
      }
      ok := true;
    }
  }
}
