// Refresh-token rotation: TokenService.cpp over the two auth tables of Database.cpp.

module AuthTables {
  import opened Options

  type Hash = string
  type Id = string

  /** A row of auth_sessions. */
  datatype Row = Row(sessionId: Id, familyId: Id, userId: int, deviceId: string,
                     accessHash: Hash, accessExpiresAt: int, refreshHash: Hash, refreshExpiresAt: int,
                     generation: nat, revoked: bool)

  /** A row of auth_refresh_history. */
  datatype Used = Used(familyId: Id, tokenHash: Hash, generation: nat)

  datatype Tables = Tables(rows: seq<Row>, history: seq<Used>)

  /** The position of the first row with this refresh hash, or the number of rows. */
  function RefreshIndex(rows: seq<Row>, h: Hash): (i: nat)
    ensures i <= |rows|
    ensures i < |rows| ==> rows[i].refreshHash == h
    ensures forall j :: 0 <= j < i ==> rows[j].refreshHash != h
  {
    if |rows| == 0 then 0
    else if rows[0].refreshHash == h then 0
    else 1 + RefreshIndex(rows[1..], h)
  }

  function AccessIndex(rows: seq<Row>, h: Hash): (i: nat)
    ensures i <= |rows|
    ensures i < |rows| ==> rows[i].accessHash == h
    ensures forall j :: 0 <= j < i ==> rows[j].accessHash != h
  {
    if |rows| == 0 then 0
    else if rows[0].accessHash == h then 0
    else 1 + AccessIndex(rows[1..], h)
  }

  function SessionIndex(rows: seq<Row>, id: Id): (i: nat)
    ensures i <= |rows|
    ensures i < |rows| ==> rows[i].sessionId == id
    ensures forall j :: 0 <= j < i ==> rows[j].sessionId != id
  {
    if |rows| == 0 then 0
    else if rows[0].sessionId == id then 0
    else 1 + SessionIndex(rows[1..], id)
  }

  function FamilyIndex(rows: seq<Row>, f: Id): (i: nat)
    ensures i <= |rows|
    ensures i < |rows| ==> rows[i].familyId == f
    ensures forall j :: 0 <= j < i ==> rows[j].familyId != f
  {
    if |rows| == 0 then 0
    else if rows[0].familyId == f then 0
    else 1 + FamilyIndex(rows[1..], f)
  }

  /** The position of a token hash in the history, or the number of history rows. */
  function UsedIndex(history: seq<Used>, h: Hash): (i: nat)
    ensures i <= |history|
    ensures i < |history| ==> history[i].tokenHash == h
    ensures forall j :: 0 <= j < i ==> history[j].tokenHash != h
  {
    if |history| == 0 then 0
    else if history[0].tokenHash == h then 0
    else 1 + UsedIndex(history[1..], h)
  }

  /** createAuthSession: refused by the UNIQUE columns, else a first-generation row. */
  function Create(t: Tables, r: Row): Option<Tables> {
    if SessionIndex(t.rows, r.sessionId) < |t.rows| || AccessIndex(t.rows, r.accessHash) < |t.rows|
       || RefreshIndex(t.rows, r.refreshHash) < |t.rows|
    then None
    else Some(t.(rows := t.rows + [r.(generation := 1, revoked := false)]))
  }

  /** A new pair of hashes with their expiry times. */
  datatype Fresh = Fresh(accessHash: Hash, accessExpiresAt: int, refreshHash: Hash, refreshExpiresAt: int)

  function Renewed(r: Row, n: Fresh): Row {
    r.(accessHash := n.accessHash, accessExpiresAt := n.accessExpiresAt,
       refreshHash := n.refreshHash, refreshExpiresAt := n.refreshExpiresAt, generation := r.generation + 1)
  }

  /** rotateRefreshToken: both statements or neither. The record was read earlier, so the
      update is guarded by hash, generation and revocation. */
  function Rotate(t: Tables, was: Row, oldHash: Hash, n: Fresh): Option<Tables> {
    var i := SessionIndex(t.rows, was.sessionId);
    if UsedIndex(t.history, oldHash) < |t.history| then None
    else if i == |t.rows| || t.rows[i].refreshHash != oldHash || t.rows[i].generation != was.generation
        || t.rows[i].revoked
    then None
    else if AccessIndex(t.rows, n.accessHash) !in {i, |t.rows|}
        || RefreshIndex(t.rows, n.refreshHash) !in {i, |t.rows|} then None
    else Some(Tables(t.rows[i := Renewed(t.rows[i], n)], t.history + [Used(was.familyId, oldHash, was.generation)]))
  }

  /** Which sessions a revocation names. */
  datatype Target = Family(familyId: Id) | Session(sessionId: Id) | User(userId: int)

  predicate Names(g: Target, r: Row) {
    match g
    case Family(f) => r.familyId == f
    case Session(s) => r.sessionId == s
    case User(u) => r.userId == u
  }

  function RevokeIf(r: Row, g: Target): Row { if Names(g, r) then r.(revoked := true) else r }

  /** revokeTokenFamily, revokeSession, revokeAllUserSessions. */
  function Revoke(t: Tables, g: Target): Tables {
    t.(rows := seq(|t.rows|, i requires 0 <= i < |t.rows| => RevokeIf(t.rows[i], g)))
  }

  /** How an UPDATE ends; the code looks only at whether it could be prepared. */
  datatype Update = Done | NotPrepared | NotStepped

  function Updated(t: Tables, g: Target, u: Update): Tables { if u.Done? then Revoke(t, g) else t }

  /** The user whom revokeTokenFamily reports, 0 if the family has no session. */
  function FamilyUser(t: Tables, f: Id): int {
    var i := FamilyIndex(t.rows, f);
    if i < |t.rows| then t.rows[i].userId else 0
  }

  /** The history of one family, oldest first. */
  function HistoryOf(history: seq<Used>, f: Id): seq<Used> {
    if |history| == 0 then []
    else
      var before := HistoryOf(history[..|history| - 1], f);
      if history[|history| - 1].familyId == f then before + [history[|history| - 1]] else before
  }

  lemma HistoryAppend(history: seq<Used>, u: Used, f: Id)
    ensures HistoryOf(history + [u], f) == HistoryOf(history, f) + (if u.familyId == f then [u] else [])
  {
    assert (history + [u])[..|history|] == history;
  }

  lemma {:induction false} HistoryOfUnknown(history: seq<Used>, f: Id)
    requires forall u :: u in history ==> u.familyId != f
    ensures HistoryOf(history, f) == []
  {
    if |history| > 0 {
      HistoryOfUnknown(history[..|history| - 1], f);
    }
  }

  // ------------------------------------------------------------------ what every state keeps

  /** The generations of a family's history are exactly 1, 2, ..., g - 1, in order. */
  ghost predicate Generations(h: seq<Used>, g: nat) {
    |h| + 1 == g && forall i :: 0 <= i < |h| ==> h[i].generation == i + 1
  }

  ghost predicate DistinctRows(rows: seq<Row>) {
    forall i, j :: 0 <= i < j < |rows| ==>
      && rows[i].sessionId != rows[j].sessionId && rows[i].familyId != rows[j].familyId
      && rows[i].accessHash != rows[j].accessHash && rows[i].refreshHash != rows[j].refreshHash
  }

  ghost predicate Separate(rows: seq<Row>) {
    forall i, j :: 0 <= i < |rows| && 0 <= j < |rows| ==> rows[i].accessHash != rows[j].refreshHash
  }

  ghost predicate DistinctHistory(history: seq<Used>) {
    forall i, j :: 0 <= i < j < |history| ==> history[i].tokenHash != history[j].tokenHash
  }

  ghost predicate HasFamily(rows: seq<Row>, f: Id) { exists r :: r in rows && r.familyId == f }

  ghost predicate Counted(t: Tables) {
    forall r :: r in t.rows ==> Generations(HistoryOf(t.history, r.familyId), r.generation)
  }

  /** `owner` maps every hash ever issued to its family. */
  ghost predicate Owned(t: Tables, owner: map<Hash, Id>) {
    && (forall r :: r in t.rows ==> r.accessHash in owner && owner[r.accessHash] == r.familyId)
    && (forall r :: r in t.rows ==> r.refreshHash in owner && owner[r.refreshHash] == r.familyId)
    && (forall u :: u in t.history ==> u.tokenHash in owner && owner[u.tokenHash] == u.familyId)
  }

  ghost predicate Populated(t: Tables, owner: map<Hash, Id>) {
    && (forall u :: u in t.history ==> HasFamily(t.rows, u.familyId))
    && (forall h :: h in owner ==> HasFamily(t.rows, owner[h]))
  }

  /** No hash is both live and in the history. */
  ghost predicate Disjoint(t: Tables) {
    forall r, u :: r in t.rows && u in t.history ==> r.refreshHash != u.tokenHash && r.accessHash != u.tokenHash
  }

  ghost predicate TableInv(t: Tables, owner: map<Hash, Id>) {
    && DistinctRows(t.rows) && Separate(t.rows) && DistinctHistory(t.history)
    && Counted(t) && Owned(t, owner) && Populated(t, owner) && Disjoint(t)
  }

  /** Random identifiers and tokens have not occurred before. */
  ghost predicate FreshRow(t: Tables, owner: map<Hash, Id>, r: Row) {
    && r.accessHash !in owner && r.refreshHash !in owner && r.accessHash != r.refreshHash
    && (forall q :: q in t.rows ==> q.sessionId != r.sessionId && q.familyId != r.familyId)
  }

  ghost predicate FreshPair(owner: map<Hash, Id>, n: Fresh) {
    n.accessHash !in owner && n.refreshHash !in owner && n.accessHash != n.refreshHash
  }

  lemma CreateCounted(t: Tables, owner: map<Hash, Id>, r: Row, t': Tables)
    requires TableInv(t, owner) && FreshRow(t, owner, r)
    requires t' == t.(rows := t.rows + [r.(generation := 1, revoked := false)])
    ensures Counted(t') && Populated(t', owner[r.accessHash := r.familyId][r.refreshHash := r.familyId])
  {
    hide DistinctRows, Separate, DistinctHistory, Disjoint;
    forall f | HasFamily(t.rows, f) ensures HasFamily(t'.rows, f) {
      var q :| q in t.rows && q.familyId == f;
      assert q in t'.rows;
    }
    assert r.(generation := 1, revoked := false) in t'.rows;
    assert HasFamily(t'.rows, r.familyId);
    forall u | u in t.history ensures u.familyId != r.familyId {
      assert HasFamily(t.rows, u.familyId);
    }
    HistoryOfUnknown(t.history, r.familyId);
  }

  lemma CreateHashes(t: Tables, owner: map<Hash, Id>, r: Row, t': Tables)
    requires TableInv(t, owner) && FreshRow(t, owner, r)
    requires t' == t.(rows := t.rows + [r.(generation := 1, revoked := false)])
    ensures DistinctRows(t'.rows) && Separate(t'.rows) && Disjoint(t')
    ensures Owned(t', owner[r.accessHash := r.familyId][r.refreshHash := r.familyId])
  {
    hide Counted, Populated, DistinctHistory;
    forall j | 0 <= j < |t.rows|
      ensures t.rows[j].accessHash in owner && t.rows[j].refreshHash in owner
      ensures t.rows[j].sessionId != r.sessionId && t.rows[j].familyId != r.familyId
    {
      assert t.rows[j] in t.rows;
    }
  }

  lemma CreateKeeps(t: Tables, owner: map<Hash, Id>, r: Row)
    requires TableInv(t, owner) && FreshRow(t, owner, r)
    ensures Create(t, r).Some?
    ensures TableInv(Create(t, r).value, owner[r.accessHash := r.familyId][r.refreshHash := r.familyId])
  {
    var t' := t.(rows := t.rows + [r.(generation := 1, revoked := false)]);
    assert Create(t, r) == Some(t') by {
      hide Counted, Populated, Separate, DistinctRows, Disjoint;
      forall q | q in t.rows
        ensures q.sessionId != r.sessionId && q.accessHash != r.accessHash && q.refreshHash != r.refreshHash
      {
        assert q.accessHash in owner && q.refreshHash in owner;
      }
    }
    CreateCounted(t, owner, r, t');
    CreateHashes(t, owner, r, t');
    hide DistinctRows, Separate, Disjoint, Counted, Owned, Populated;
  }

  lemma RotateCounted(t: Tables, owner: map<Hash, Id>, i: nat, n: Fresh, t': Tables)
    requires TableInv(t, owner) && i < |t.rows|
    requires t' == Tables(t.rows[i := Renewed(t.rows[i], n)],
                          t.history + [Used(t.rows[i].familyId, t.rows[i].refreshHash, t.rows[i].generation)])
    ensures Counted(t')
    ensures Populated(t', owner[n.accessHash := t.rows[i].familyId][n.refreshHash := t.rows[i].familyId])
  {
    hide Separate, DistinctHistory, Disjoint, Owned;
    var u := Used(t.rows[i].familyId, t.rows[i].refreshHash, t.rows[i].generation);
    forall q | q in t'.rows ensures Generations(HistoryOf(t'.history, q.familyId), q.generation) {
      HistoryAppend(t.history, u, q.familyId);
      var j :| 0 <= j < |t'.rows| && t'.rows[j] == q;
      assert t.rows[j] in t.rows;
      assert Generations(HistoryOf(t.history, q.familyId), t.rows[j].generation);
    }
    forall f | HasFamily(t.rows, f) ensures HasFamily(t'.rows, f) {
      var q :| q in t.rows && q.familyId == f;
      var j :| 0 <= j < |t.rows| && t.rows[j] == q;
      assert t'.rows[j] in t'.rows && t'.rows[j].familyId == f;
    }
    assert t.rows[i] in t.rows;
    assert HasFamily(t.rows, t.rows[i].familyId);
  }

  lemma RotateHashes(t: Tables, owner: map<Hash, Id>, i: nat, n: Fresh, t': Tables)
    requires TableInv(t, owner) && FreshPair(owner, n) && i < |t.rows|
    requires t' == Tables(t.rows[i := Renewed(t.rows[i], n)],
                          t.history + [Used(t.rows[i].familyId, t.rows[i].refreshHash, t.rows[i].generation)])
    ensures DistinctRows(t'.rows) && Separate(t'.rows) && DistinctHistory(t'.history)
    ensures Owned(t', owner[n.accessHash := t.rows[i].familyId][n.refreshHash := t.rows[i].familyId])
  {
    hide Counted, Populated;
    forall j | 0 <= j < |t.rows|
      ensures t.rows[j].accessHash in owner && t.rows[j].refreshHash in owner
      ensures owner[t.rows[j].accessHash] == owner[t.rows[j].refreshHash] == t.rows[j].familyId
    {
      assert t.rows[j] in t.rows;
    }
    forall j | 0 <= j < |t.history| ensures t.history[j].tokenHash != t.rows[i].refreshHash {
      assert t.history[j] in t.history && t.rows[i] in t.rows;
    }
  }

  lemma RotateDisjoint(t: Tables, owner: map<Hash, Id>, i: nat, n: Fresh, t': Tables)
    requires TableInv(t, owner) && FreshPair(owner, n) && i < |t.rows|
    requires t' == Tables(t.rows[i := Renewed(t.rows[i], n)],
                          t.history + [Used(t.rows[i].familyId, t.rows[i].refreshHash, t.rows[i].generation)])
    ensures Disjoint(t')
  {
    hide Counted, Populated, DistinctHistory;
    forall r, v | r in t'.rows && v in t'.history ensures r.refreshHash != v.tokenHash && r.accessHash != v.tokenHash {
      var j :| 0 <= j < |t'.rows| && t'.rows[j] == r;
      assert t.rows[j] in t.rows && t.rows[i] in t.rows;
      if v !in t.history {
        assert v.tokenHash == t.rows[i].refreshHash;
        assert j < i ==> t.rows[j].refreshHash != t.rows[i].refreshHash;
        assert i < j ==> t.rows[i].refreshHash != t.rows[j].refreshHash;
        assert t.rows[j].accessHash != t.rows[i].refreshHash;
      }
    }
  }

  /** A rotation moves the old hash to the history and keeps everything. */
  lemma RotateKeeps(t: Tables, owner: map<Hash, Id>, was: Row, oldHash: Hash, n: Fresh)
    requires TableInv(t, owner) && FreshPair(owner, n)
    requires Rotate(t, was, oldHash, n).Some?
    requires exists r :: r in t.rows && r.sessionId == was.sessionId && r.familyId == was.familyId
    ensures TableInv(Rotate(t, was, oldHash, n).value,
                     owner[n.accessHash := was.familyId][n.refreshHash := was.familyId])
  {
    var i := SessionIndex(t.rows, was.sessionId);
    var t' := Rotate(t, was, oldHash, n).value;
    SameSession(t.rows, was);
    RotateCounted(t, owner, i, n, t');
    RotateHashes(t, owner, i, n, t');
    RotateDisjoint(t, owner, i, n, t');
    hide DistinctRows, Separate, Disjoint, Counted, Owned, Populated, DistinctHistory;
  }

  lemma SameSession(rows: seq<Row>, was: Row)
    requires DistinctRows(rows)
    requires exists r :: r in rows && r.sessionId == was.sessionId && r.familyId == was.familyId
    ensures SessionIndex(rows, was.sessionId) < |rows|
    ensures rows[SessionIndex(rows, was.sessionId)].familyId == was.familyId
  {
    var r :| r in rows && r.sessionId == was.sessionId && r.familyId == was.familyId;
    var j :| 0 <= j < |rows| && rows[j] == r;
    var i := SessionIndex(rows, was.sessionId);
    OneSession(rows, i, j);
  }

  lemma OneSession(rows: seq<Row>, i: nat, j: nat)
    requires DistinctRows(rows) && i < |rows| && j < |rows| && rows[i].sessionId == rows[j].sessionId
    ensures i == j
  {
  }

  lemma RevokedRow(t: Tables, g: Target, r: Row) returns (q: Row)
    requires r in Revoke(t, g).rows
    ensures q in t.rows && r == RevokeIf(q, g)
  {
    var j :| 0 <= j < |t.rows| && Revoke(t, g).rows[j] == r;
    q := t.rows[j];
  }

  lemma RevokePopulated(t: Tables, owner: map<Hash, Id>, g: Target)
    requires TableInv(t, owner)
    ensures Populated(Revoke(t, g), owner)
  {
    hide DistinctRows, Separate, Disjoint, Counted, Owned, DistinctHistory;
    var t' := Revoke(t, g);
    forall f | HasFamily(t.rows, f) ensures HasFamily(t'.rows, f) {
      var q :| q in t.rows && q.familyId == f;
      var j :| 0 <= j < |t.rows| && t.rows[j] == q;
      assert t'.rows[j] in t'.rows && t'.rows[j].familyId == f;
    }
  }

  lemma RevokeContents(t: Tables, owner: map<Hash, Id>, g: Target)
    requires TableInv(t, owner)
    ensures Counted(Revoke(t, g)) && Owned(Revoke(t, g), owner) && Disjoint(Revoke(t, g))
  {
    hide Populated, Generations, HistoryOf, DistinctRows, Separate, DistinctHistory, Revoke;
    var t' := Revoke(t, g);
    RevokeFrame(t, g);
    forall r | r in t'.rows
      ensures Generations(HistoryOf(t'.history, r.familyId), r.generation)
      ensures r.accessHash in owner && owner[r.accessHash] == r.familyId
      ensures r.refreshHash in owner && owner[r.refreshHash] == r.familyId
      ensures forall u :: u in t'.history ==> r.refreshHash != u.tokenHash && r.accessHash != u.tokenHash
    {
      var q := RevokedRow(t, g, r);
    }
  }

  lemma RevokeFrame(t: Tables, g: Target)
    ensures Revoke(t, g).history == t.history && |Revoke(t, g).rows| == |t.rows|
    ensures forall j :: 0 <= j < |t.rows| ==> Revoke(t, g).rows[j] == RevokeIf(t.rows[j], g)
  {
  }

  lemma RevokeKeeps(t: Tables, owner: map<Hash, Id>, g: Target)
    requires TableInv(t, owner)
    ensures TableInv(Revoke(t, g), owner)
  {
    hide Populated, Counted, Owned, Disjoint, DistinctRows, Separate, DistinctHistory, Revoke;
    RevokePopulated(t, owner, g);
    RevokeContents(t, owner, g);
    RevokeFrame(t, g);
    RevokeDistinct(t.rows, Revoke(t, g).rows, g);
  }

  lemma RevokeDistinct(rows: seq<Row>, rows': seq<Row>, g: Target)
    requires DistinctRows(rows) && Separate(rows) && |rows'| == |rows|
    requires forall j :: 0 <= j < |rows| ==> rows'[j] == RevokeIf(rows[j], g)
    ensures DistinctRows(rows') && Separate(rows')
  {
    hide Names;
  }
}

/** TokenService: issue, validate and rotate, with the idempotency cache. */
module TokenSpec {
  import opened Options
  import opened AuthTables

  type Hasher = string -> Hash

  const CACHE_CAP: nat := 1024
  const CACHE_SECONDS: int := 120

  datatype Pair = Pair(sessionId: Id, familyId: Id, accessToken: string, refreshToken: string,
                       accessExpiresAt: int, refreshExpiresAt: int)

  datatype Entry = Entry(refreshHash: Hash, deviceId: string, pair: Pair, expiresAt: int)

  datatype State = State(t: Tables, cache: map<string, Entry>)

  datatype Request = Request(refreshToken: string, deviceId: string, requestId: string)

  /** What one refresh draws and meets: two tokens, the entry a full cache gives up, whether
      the rotation's transaction commits, and how the revocation of a replayed family ends. */
  datatype Draw = Draw(accessToken: string, refreshToken: string, victim: string, commits: bool, revocation: Update)

  /** The next state, the granted pair if any, and the user whose family was revoked or 0. */
  datatype Outcome = Outcome(next: State, granted: Option<Pair>, revokedUser: int)

  function Purge(cache: map<string, Entry>, now: int): map<string, Entry> {
    map k | k in cache && cache[k].expiresAt > now :: cache[k]
  }

  function RevokeAll(t: Tables, gs: seq<Target>): Tables
    decreases |gs|
  {
    if |gs| == 0 then t else RevokeAll(Revoke(t, gs[0]), gs[1..])
  }

  /** A hash found in the history revokes its family. */
  function Reused(s: State, h: Hash, u: Update): Outcome {
    var i := UsedIndex(s.t.history, h);
    if i == |s.t.history| || s.t.history[i].familyId == "" then Outcome(s, None, 0)
    else
      var f := s.t.history[i].familyId;
      var uid := if u.NotPrepared? then 0 else FamilyUser(s.t, f);
      Outcome(s.(t := Updated(s.t, Family(f), u)), None, if uid > 0 then uid else 0)
  }

  function FreshOf(hash: Hasher, now: int, d: Draw): Fresh {
    Fresh(hash(d.accessToken), now + 15 * 60, hash(d.refreshToken), now + 30 * 24 * 60 * 60)
  }

  function PairOf(was: Row, now: int, d: Draw): Pair {
    Pair(was.sessionId, was.familyId, d.accessToken, d.refreshToken, now + 15 * 60, now + 30 * 24 * 60 * 60)
  }

  function Remember(cache: map<string, Entry>, id: string, e: Entry, victim: string): map<string, Entry> {
    (if |cache| >= CACHE_CAP then cache - {victim} else cache)[id := e]
  }

  /** rotateRefresh. Between reading the record and writing it other connections may revoke;
      refreshes exclude each other. */
  function Refresh(hash: Hasher, s: State, rq: Request, now: int, d: Draw, between: seq<Target>): Outcome {
    if rq.refreshToken == "" || rq.deviceId == "" || rq.requestId == "" then Outcome(s, None, 0)
    else
      var h := hash(rq.refreshToken);
      var s1 := s.(cache := Purge(s.cache, now));
      if rq.requestId in s1.cache then
        var e := s1.cache[rq.requestId];
        Outcome(s1, if e.refreshHash == h && e.deviceId == rq.deviceId then Some(e.pair) else None, 0)
      else
        var i := RefreshIndex(s.t.rows, h);
        if i == |s.t.rows| then Reused(s1, h, d.revocation)
        else
          var was := s.t.rows[i];
          if was.revoked || was.refreshExpiresAt <= now || was.deviceId != rq.deviceId then Outcome(s1, None, 0)
          else
            var s2 := s1.(t := RevokeAll(s1.t, between));
            var written := if d.commits then Rotate(s2.t, was, h, FreshOf(hash, now, d)) else None;
            if written.None? then Reused(s2, h, d.revocation)
            else
              var pair := PairOf(was, now, d);
              Outcome(State(written.value,
                  Remember(s2.cache, rq.requestId, Entry(h, rq.deviceId, pair, now + CACHE_SECONDS), d.victim)),
                      Some(pair), 0)
  }

  datatype Access = Access(userId: int, sessionId: Id, expiresAt: int)

  /** validateAccess. */
  function Validate(hash: Hasher, t: Tables, token: string, sessionId: Id, deviceId: string, now: int): Option<Access> {
    if token == "" || deviceId == "" then None
    else
      var i := AccessIndex(t.rows, hash(token));
      if i == |t.rows| then None
      else
        var r := t.rows[i];
        if r.revoked || r.accessExpiresAt <= now || r.deviceId != deviceId
            || (sessionId != "" && r.sessionId != sessionId)
        then None
        else Some(Access(r.userId, r.sessionId, r.accessExpiresAt))
  }

  // ------------------------------------------------------------------ whole runs

  datatype World = World(s: State, owner: map<Hash, Id>)

  datatype Action =
    | Issue(row: Row)
    | Withdraw(target: Target)
    | Ask(rq: Request, now: int, draw: Draw, between: seq<Target>)

  /** Random draws are fresh, and what a full cache gives up is one of its entries. */
  ghost predicate Admissible(hash: Hasher, w: World, a: Action) {
    match a
    case Issue(r) => FreshRow(w.s.t, w.owner, r) && r.familyId != ""
    case Withdraw(_) => true
    case Ask(rq, now, d, _) =>
      FreshPair(w.owner, FreshOf(hash, now, d))
          && (|Purge(w.s.cache, now)| >= CACHE_CAP ==> d.victim in Purge(w.s.cache, now))
  }

  function Step(hash: Hasher, w: World, a: Action): World {
    match a
    case Issue(r) =>
      var t := Create(w.s.t, r);
      if t.None? then w else World(w.s.(t := t.value), w.owner[r.accessHash := r.familyId][r.refreshHash := r.familyId])
    case Withdraw(g) => w.(s := w.s.(t := Revoke(w.s.t, g)))
    case Ask(rq, now, d, between) =>
      var o := Refresh(hash, w.s, rq, now, d, between);
      if |o.next.t.history| <= |w.s.t.history| then w.(s := o.next)
      else
        var f := o.next.t.history[|o.next.t.history| - 1].familyId;
        World(o.next, w.owner[hash(d.accessToken) := f][hash(d.refreshToken) := f])
  }

  const Begin := World(State(Tables([], []), map[]), map[])

  function Run(hash: Hasher, w: World, actions: seq<Action>): World {
    if |actions| == 0 then w else Step(hash, Run(hash, w, actions[..|actions| - 1]), actions[|actions| - 1])
  }

  ghost predicate AdmissibleRun(hash: Hasher, w: World, actions: seq<Action>) {
    |actions| == 0
    || (AdmissibleRun(hash, w, actions[..|actions| - 1])
        && Admissible(hash, Run(hash, w, actions[..|actions| - 1]), actions[|actions| - 1]))
  }

  ghost predicate Inv(w: World) {
    && TableInv(w.s.t, w.owner)
    && |w.s.cache| <= CACHE_CAP
    && (forall r :: r in w.s.t.rows ==> r.familyId != "")
  }

  lemma {:induction false} RevokeAllKeeps(t: Tables, owner: map<Hash, Id>, gs: seq<Target>)
    requires TableInv(t, owner)
    ensures TableInv(RevokeAll(t, gs), owner)
    decreases |gs|
  {
    hide TableInv;
    if |gs| > 0 {
      RevokeKeeps(t, owner, gs[0]);
      RevokeAllKeeps(Revoke(t, gs[0]), owner, gs[1..]);
    }
  }

  /** Revocations change nothing but the flag, and only of the rows they name. */
  predicate OnlyRevoked(r: Row, r': Row, gs: seq<Target>) {
    && r' == r.(revoked := r'.revoked)
    && (r.revoked ==> r'.revoked)
    && (r'.revoked ==> r.revoked || NamedBy(gs, r))
  }

  predicate NamedBy(gs: seq<Target>, r: Row) { exists g :: g in gs && Names(g, r) }

  lemma {:induction false} RevokeAllFrame(t: Tables, gs: seq<Target>)
    ensures RevokeAll(t, gs).history == t.history && |RevokeAll(t, gs).rows| == |t.rows|
    ensures forall i :: 0 <= i < |t.rows| ==> OnlyRevoked(t.rows[i], RevokeAll(t, gs).rows[i], gs)
    decreases |gs|
  {
    if |gs| > 0 {
      var t1 := Revoke(t, gs[0]);
      RevokeFrame(t, gs[0]);
      RevokeAllFrame(t1, gs[1..]);
      forall i | 0 <= i < |t.rows| ensures OnlyRevoked(t.rows[i], RevokeAll(t, gs).rows[i], gs) {
        OneMore(t.rows[i], t1.rows[i], RevokeAll(t, gs).rows[i], gs);
      }
    }
  }

  lemma OneMore(r: Row, r1: Row, r': Row, gs: seq<Target>)
    requires |gs| > 0 && r1 == RevokeIf(r, gs[0]) && OnlyRevoked(r1, r', gs[1..])
    ensures OnlyRevoked(r, r', gs)
  {
    if NamedBy(gs[1..], r1) {
      var g :| g in gs[1..] && Names(g, r1);
      assert g in gs && Names(g, r);
    }
    assert gs[0] in gs;
  }

  lemma ReusedKeeps(w: World, s: State, h: Hash, u: Update)
    requires TableInv(s.t, w.owner)
    ensures TableInv(Reused(s, h, u).next.t, w.owner) && Reused(s, h, u).next.cache == s.cache
    ensures Reused(s, h, u).next.t.history == s.t.history
    ensures |Reused(s, h, u).next.t.rows| == |s.t.rows|
    ensures forall i :: 0 <= i < |s.t.rows| ==>
            Reused(s, h, u).next.t.rows[i] == s.t.rows[i].(revoked := Reused(s, h, u).next.t.rows[i].revoked)
  {
    hide TableInv;
    var i := UsedIndex(s.t.history, h);
    if i < |s.t.history| && s.t.history[i].familyId != "" {
      RevokeKeeps(s.t, w.owner, Family(s.t.history[i].familyId));
      RevokeFrame(s.t, Family(s.t.history[i].familyId));
    }
  }

  /** How a refresh that is not answered from the cache and whose hash is live ends. */
  lemma RotationKeeps(hash: Hasher, w: World, rq: Request, now: int, d: Draw, between: seq<Target>, i: nat)
    requires Inv(w) && Admissible(hash, w, Ask(rq, now, d, between))
    requires i < |w.s.t.rows| && w.s.t.rows[i].refreshHash == hash(rq.refreshToken)
    ensures var t2 := RevokeAll(w.s.t, between);
            var written := Rotate(t2, w.s.t.rows[i], hash(rq.refreshToken), FreshOf(hash, now, d));
            && TableInv(t2, w.owner)
            && (written.Some? ==>
                 var f := w.s.t.rows[i].familyId;
                 && TableInv(written.value, w.owner[hash(d.accessToken) := f][hash(d.refreshToken) := f])
                 && written.value.history == w.s.t.history + [Used(f, hash(rq.refreshToken), w.s.t.rows[i].generation)]
                 && (forall r :: r in written.value.rows ==> HasFamily(w.s.t.rows, r.familyId)))
  {
    hide TableInv;
    RevokeAllKeeps(w.s.t, w.owner, between);
    RevokeAllFrame(w.s.t, between);
    var t2 := RevokeAll(w.s.t, between);
    var n := FreshOf(hash, now, d);
    var was := w.s.t.rows[i];
    if Rotate(t2, was, hash(rq.refreshToken), n).Some? {
      assert t2.rows[i] in t2.rows && t2.rows[i].sessionId == was.sessionId && t2.rows[i].familyId == was.familyId;
      RotateKeeps(t2, w.owner, was, hash(rq.refreshToken), n);
      forall r | r in Rotate(t2, was, hash(rq.refreshToken), n).value.rows ensures HasFamily(w.s.t.rows, r.familyId) {
        var j :| 0 <= j < |t2.rows| && Rotate(t2, was, hash(rq.refreshToken), n).value.rows[j] == r;
        assert w.s.t.rows[j] in w.s.t.rows;
      }
    }
  }

  lemma NamedFamilies(rows: seq<Row>, rows': seq<Row>)
    requires forall r :: r in rows ==> r.familyId != ""
    requires forall r :: r in rows' ==> HasFamily(rows, r.familyId)
    ensures forall r :: r in rows' ==> r.familyId != ""
  {
  }

  lemma SameFamilies(rows: seq<Row>, rows': seq<Row>)
    requires |rows'| == |rows| && forall i :: 0 <= i < |rows| ==> rows'[i].familyId == rows[i].familyId
    ensures forall r :: r in rows' ==> HasFamily(rows, r.familyId)
  {
    forall r | r in rows' ensures HasFamily(rows, r.familyId) {
      var i :| 0 <= i < |rows'| && rows'[i] == r;
      assert rows[i] in rows;
    }
  }

  lemma PurgeShrinks(cache: map<string, Entry>, now: int)
    ensures |Purge(cache, now)| <= |cache|
  {
    Subset(Purge(cache, now).Keys, cache.Keys);
  }

  lemma {:induction false} Subset<T>(a: set<T>, b: set<T>)
    requires a <= b
    ensures |a| <= |b|
    decreases a
  {
    if a != {} {
      var x :| x in a;
      Subset(a - {x}, b - {x});
    }
  }

  lemma RememberBounded(cache: map<string, Entry>, id: string, e: Entry, victim: string)
    requires |cache| <= CACHE_CAP && (|cache| >= CACHE_CAP ==> victim in cache)
    ensures |Remember(cache, id, e, victim)| <= CACHE_CAP
  {
    var kept := if |cache| >= CACHE_CAP then cache - {victim} else cache;
    assert |cache| >= CACHE_CAP ==> kept.Keys == cache.Keys - {victim};
    assert kept[id := e].Keys == kept.Keys + {id};
    assert id !in kept.Keys ==> |kept.Keys + {id}| == |kept.Keys| + 1;
    assert id in kept.Keys ==> kept.Keys + {id} == kept.Keys;
  }

  lemma AskKeeps(hash: Hasher, w: World, rq: Request, now: int, d: Draw, between: seq<Target>)
    requires Inv(w) && Admissible(hash, w, Ask(rq, now, d, between))
    ensures Inv(Step(hash, w, Ask(rq, now, d, between)))
  {
    hide TableInv, Rotate, Purge, Remember, Reused, RevokeAll, FreshPair;
    PurgeShrinks(w.s.cache, now);
    if rq.refreshToken == "" || rq.deviceId == "" || rq.requestId == "" {
      return;
    }
    var h := hash(rq.refreshToken);
    var s1 := w.s.(cache := Purge(w.s.cache, now));
    if rq.requestId in s1.cache {
      return;
    }
    var i := RefreshIndex(w.s.t.rows, h);
    if i == |w.s.t.rows| {
      ReusedKeeps(w, s1, h, d.revocation);
      SameFamilies(w.s.t.rows, Reused(s1, h, d.revocation).next.t.rows);
      return;
    }
    var was := w.s.t.rows[i];
    if was.revoked || was.refreshExpiresAt <= now || was.deviceId != rq.deviceId {
      return;
    }
    RotationKeeps(hash, w, rq, now, d, between, i);
    RevokeAllFrame(w.s.t, between);
    var s2 := s1.(t := RevokeAll(s1.t, between));
    var written := if d.commits then Rotate(s2.t, was, h, FreshOf(hash, now, d)) else None;
    if written.None? {
      ReusedKeeps(w, s2, h, d.revocation);
      SameFamilies(w.s.t.rows, Reused(s2, h, d.revocation).next.t.rows);
    } else {
      RememberBounded(s2.cache, rq.requestId, Entry(h, rq.deviceId, PairOf(was, now, d), now + CACHE_SECONDS),
          d.victim);
      NamedFamilies(w.s.t.rows, written.value.rows);
    }
  }

  lemma StepKeeps(hash: Hasher, w: World, a: Action)
    requires Inv(w) && Admissible(hash, w, a)
    ensures Inv(Step(hash, w, a))
  {
    match a
    case Issue(r) => CreateKeeps(w.s.t, w.owner, r);
    case Withdraw(g) =>
      RevokeKeeps(w.s.t, w.owner, g);
      RevokeFrame(w.s.t, g);
      SameFamilies(w.s.t.rows, Revoke(w.s.t, g).rows);
      hide TableInv, Revoke;
    case Ask(rq, now, d, between) => AskKeeps(hash, w, rq, now, d, between);
  }

  lemma {:induction false} RunKeeps(hash: Hasher, w: World, actions: seq<Action>)
    requires Inv(w) && AdmissibleRun(hash, w, actions)
    ensures Inv(Run(hash, w, actions))
  {
    if |actions| > 0 {
      RunKeeps(hash, w, actions[..|actions| - 1]);
      StepKeeps(hash, Run(hash, w, actions[..|actions| - 1]), actions[|actions| - 1]);
    }
  }

  /** In every reachable state a family has one session, whose generation is one more than
      the number of its history rows; these carry exactly the generations before it; and no
      hash is both live and in the history. */
  lemma FamilyLaw(hash: Hasher, actions: seq<Action>, i: nat, j: nat)
    requires AdmissibleRun(hash, Begin, actions)
    requires i < |Run(hash, Begin, actions).s.t.rows| && j < |Run(hash, Begin, actions).s.t.rows|
    ensures var t := Run(hash, Begin, actions).s.t;
            var h := HistoryOf(t.history, t.rows[i].familyId);
            && |h| + 1 == t.rows[i].generation
            && (forall k :: 0 <= k < |h| ==> h[k].generation == k + 1)
            && (t.rows[i].familyId == t.rows[j].familyId ==> i == j)
            && UsedIndex(t.history, t.rows[i].refreshHash) == |t.history|
            && UsedIndex(t.history, t.rows[i].accessHash) == |t.history|
  {
    RunKeeps(hash, Begin, actions);
    var w := Run(hash, Begin, actions);
    hide Run, AdmissibleRun, Generations;
    OneRow(w.s.t, w.owner, i, j);
  }

  lemma OneRow(t: Tables, owner: map<Hash, Id>, i: nat, j: nat)
    requires TableInv(t, owner) && i < |t.rows| && j < |t.rows|
    ensures Generations(HistoryOf(t.history, t.rows[i].familyId), t.rows[i].generation)
    ensures t.rows[i].familyId == t.rows[j].familyId ==> i == j
    ensures UsedIndex(t.history, t.rows[i].refreshHash) == |t.history|
            && UsedIndex(t.history, t.rows[i].accessHash) == |t.history|
  {
    hide Populated, Separate, DistinctHistory, Owned, Generations, HistoryOf;
    assert t.rows[i] in t.rows;
    forall k | 0 <= k < |t.history| ensures t.history[k].tokenHash !in {t.rows[i].refreshHash, t.rows[i].accessHash} {
      assert t.history[k] in t.history;
    }
  }

  /** A refresh hash is usable when some unrevoked session still holds it. */
  ghost predicate Usable(t: Tables, h: Hash) { exists r :: r in t.rows && r.refreshHash == h && !r.revoked }

  ghost predicate UsableAccess(t: Tables, h: Hash) { exists r :: r in t.rows && r.accessHash == h && !r.revoked }

  /** Of all tokens ever issued in a family at most one refresh token and one access token
      are usable. */
  lemma AtMostOneUsable(hash: Hasher, actions: seq<Action>, g: Hash, h: Hash)
    requires AdmissibleRun(hash, Begin, actions)
    requires var w := Run(hash, Begin, actions); g in w.owner && h in w.owner && w.owner[g] == w.owner[h]
    ensures var t := Run(hash, Begin, actions).s.t;
            && (Usable(t, g) && Usable(t, h) ==> g == h)
            && (UsableAccess(t, g) && UsableAccess(t, h) ==> g == h)
  {
    RunKeeps(hash, Begin, actions);
    var w := Run(hash, Begin, actions);
    hide Run, AdmissibleRun;
    if Usable(w.s.t, g) && Usable(w.s.t, h) {
      var q :| q in w.s.t.rows && q.refreshHash == g && !q.revoked;
      var r :| r in w.s.t.rows && r.refreshHash == h && !r.revoked;
      OneRowPerFamily(w.s.t, w.owner, q, r);
    }
    if UsableAccess(w.s.t, g) && UsableAccess(w.s.t, h) {
      var q :| q in w.s.t.rows && q.accessHash == g && !q.revoked;
      var r :| r in w.s.t.rows && r.accessHash == h && !r.revoked;
      OneRowPerFamily(w.s.t, w.owner, q, r);
    }
  }

  lemma OneRowPerFamily(t: Tables, owner: map<Hash, Id>, q: Row, r: Row)
    requires TableInv(t, owner) && q in t.rows && r in t.rows && q.familyId == r.familyId
    ensures q == r
  {
    var i :| 0 <= i < |t.rows| && t.rows[i] == q;
    var j :| 0 <= j < |t.rows| && t.rows[j] == r;
  }

  // ------------------------------------------------------------------ replay

  /** The family exists and its session is revoked. */
  ghost predicate Dead(t: Tables, f: Id) {
    HasFamily(t.rows, f) && forall r :: r in t.rows && r.familyId == f ==> r.revoked
  }

  /** Presenting a rotated token, with a request the cache does not answer, is refused; its
      family is revoked exactly if the update is carried out, and its user reported exactly
      if the update could be prepared. */
  lemma ReplayRevokes(hash: Hasher, w: World, rq: Request, now: int, d: Draw, between: seq<Target>, u: Used)
    requires Inv(w) && rq.refreshToken != "" && rq.deviceId != "" && rq.requestId != ""
    requires u in w.s.t.history && u.tokenHash == hash(rq.refreshToken)
    requires rq.requestId !in Purge(w.s.cache, now)
    ensures var o := Refresh(hash, w.s, rq, now, d, between);
            && o.granted.None?
            && (Dead(o.next.t, u.familyId) <==> d.revocation.Done? || Dead(w.s.t, u.familyId))
            && (exists r :: r in w.s.t.rows && r.familyId == u.familyId
                  && o.revokedUser == if d.revocation.NotPrepared? || r.userId <= 0 then 0 else r.userId)
  {
    var h := hash(rq.refreshToken);
    var t := w.s.t;
    LiveIsNotUsed(t, w.owner, h, u);
    UsedOnce(t, w.owner, h, u);
    FamilyRow(t, w.owner, u);
    DeadAfterRevoke(t, u.familyId);
    var j := FamilyIndex(t.rows, u.familyId);
    assert t.rows[j] in t.rows;
    hide TableInv, Purge, Remember, RevokeAll, Rotate, Dead, HasFamily;
  }

  lemma UsedOnce(t: Tables, owner: map<Hash, Id>, h: Hash, u: Used)
    requires TableInv(t, owner) && u in t.history && u.tokenHash == h
    ensures UsedIndex(t.history, h) < |t.history| && t.history[UsedIndex(t.history, h)] == u
  {
    hide Counted, Owned, Populated, Disjoint, DistinctRows, Separate;
    var k := UsedIndex(t.history, h);
    var m :| 0 <= m < |t.history| && t.history[m] == u;
    OneUse(t.history, k, m);
  }

  lemma OneUse(history: seq<Used>, k: nat, m: nat)
    requires DistinctHistory(history) && k < |history| && m < |history| && history[k].tokenHash == history[m].tokenHash
    ensures k == m
  {
  }

  lemma LiveIsNotUsed(t: Tables, owner: map<Hash, Id>, h: Hash, u: Used)
    requires TableInv(t, owner) && u in t.history && u.tokenHash == h
    ensures RefreshIndex(t.rows, h) == |t.rows|
  {
    forall q | q in t.rows ensures q.refreshHash != h {
      assert q.refreshHash != u.tokenHash;
    }
  }

  lemma FamilyRow(t: Tables, owner: map<Hash, Id>, u: Used)
    requires TableInv(t, owner) && u in t.history
    ensures HasFamily(t.rows, u.familyId) && FamilyIndex(t.rows, u.familyId) < |t.rows|
  {
    assert HasFamily(t.rows, u.familyId);
    var r :| r in t.rows && r.familyId == u.familyId;
    var j :| 0 <= j < |t.rows| && t.rows[j] == r;
  }

  lemma DeadAfterRevoke(t: Tables, f: Id)
    requires HasFamily(t.rows, f)
    ensures Dead(Revoke(t, Family(f)), f)
  {
    var t' := Revoke(t, Family(f));
    RevokeFrame(t, Family(f));
    var r :| r in t.rows && r.familyId == f;
    var j :| 0 <= j < |t.rows| && t.rows[j] == r;
    assert t'.rows[j] in t'.rows;
    forall q | q in t'.rows && q.familyId == f ensures q.revoked {
      var p := RevokedRow(t, Family(f), q);
    }
  }

  lemma DeadRows(t: Tables, t': Tables, f: Id)
    requires Dead(t, f) && |t'.rows| >= |t.rows|
    requires forall i :: 0 <= i < |t.rows| ==>
               t'.rows[i].familyId == t.rows[i].familyId && (t.rows[i].revoked ==> t'.rows[i].revoked)
    requires forall i :: |t.rows| <= i < |t'.rows| ==> t'.rows[i].familyId != f
    ensures Dead(t', f)
  {
    var r :| r in t.rows && r.familyId == f;
    var j :| 0 <= j < |t.rows| && t.rows[j] == r;
    assert t'.rows[j] in t'.rows;
    forall q | q in t'.rows && q.familyId == f ensures q.revoked {
      var i :| 0 <= i < |t'.rows| && t'.rows[i] == q;
      assert t.rows[i] in t.rows;
    }
  }

  lemma DeadStep(hash: Hasher, w: World, a: Action, f: Id)
    requires Inv(w) && Admissible(hash, w, a) && Dead(w.s.t, f)
    ensures Dead(Step(hash, w, a).s.t, f)
  {
    var t, t' := w.s.t, Step(hash, w, a).s.t;
    match a
    case Issue(r) =>
      hide TableInv;
      var q :| q in t.rows && q.familyId == f;
      DeadRows(t, t', f);
    case Withdraw(g) =>
      hide TableInv;
      RevokeFrame(t, g);
      DeadRows(t, t', f);
    case Ask(rq, now, d, between) =>
      hide TableInv, Purge, Remember;
      AskRows(hash, w, rq, now, d, between);
      DeadRows(t, t', f);
  }

  /** What a refresh does to the rows: nothing is un-revoked, no row comes or goes, and only
      the row whose refresh hash was presented is renewed. */
  lemma AskRows(hash: Hasher, w: World, rq: Request, now: int, d: Draw, between: seq<Target>)
    requires Inv(w)
    ensures var t, t' := w.s.t, Refresh(hash, w.s, rq, now, d, between).next.t;
            && |t'.rows| == |t.rows|
            && (forall i :: 0 <= i < |t.rows| ==>
                  t'.rows[i].familyId == t.rows[i].familyId && (t.rows[i].revoked ==> t'.rows[i].revoked))
            && (forall i :: 0 <= i < |t.rows| && t.rows[i].refreshHash != hash(rq.refreshToken) ==>
                  t'.rows[i].refreshHash == t.rows[i].refreshHash)
  {
    hide TableInv, Inv, Purge, Remember, RevokeAll, Reused, Rotate, FreshOf, PairOf, RefreshIndex;
    var h := hash(rq.refreshToken);
    var s1 := w.s.(cache := Purge(w.s.cache, now));
    ReusedRows(s1, h, d.revocation);
    RevokeAllFrame(w.s.t, between);
    var s2 := s1.(t := RevokeAll(s1.t, between));
    ReusedRows(s2, h, d.revocation);
    var i := RefreshIndex(w.s.t.rows, h);
    if i < |w.s.t.rows| {
      RotatedRows(s2.t, w.s.t.rows[i], h, FreshOf(hash, now, d));
    }
  }

  lemma RotatedRows(t: Tables, was: Row, h: Hash, n: Fresh)
    ensures var o := Rotate(t, was, h, n);
            o.Some? ==>
              && |o.value.rows| == |t.rows|
              && (forall i :: 0 <= i < |t.rows| ==>
                    && o.value.rows[i].familyId == t.rows[i].familyId && o.value.rows[i].revoked == t.rows[i].revoked
                    && (t.rows[i].refreshHash != h ==> o.value.rows[i] == t.rows[i]))
  {
  }

  lemma ReusedRows(s: State, h: Hash, u: Update)
    ensures |Reused(s, h, u).next.t.rows| == |s.t.rows|
    ensures forall i :: 0 <= i < |s.t.rows| ==>
              && Reused(s, h, u).next.t.rows[i] == s.t.rows[i].(revoked := Reused(s, h, u).next.t.rows[i].revoked)
              && (s.t.rows[i].revoked ==> Reused(s, h, u).next.t.rows[i].revoked)
  {
    var i := UsedIndex(s.t.history, h);
    if i < |s.t.history| {
      RevokeFrame(s.t, Family(s.t.history[i].familyId));
    }
  }

  /** Revocation is permanent: in every continuation the family stays dead. */
  lemma {:induction false} DeadForever(hash: Hasher, w: World, actions: seq<Action>, f: Id)
    requires Inv(w) && Dead(w.s.t, f) && AdmissibleRun(hash, w, actions)
    ensures Dead(Run(hash, w, actions).s.t, f)
  {
    if |actions| > 0 {
      DeadForever(hash, w, actions[..|actions| - 1], f);
      RunKeeps(hash, w, actions[..|actions| - 1]);
      DeadStep(hash, Run(hash, w, actions[..|actions| - 1]), actions[|actions| - 1], f);
    }
  }

  /** What the cache holds belongs to the family of the token that was exchanged. */
  ghost predicate CacheOwned(hash: Hasher, cache: map<string, Entry>, owner: map<Hash, Id>) {
    forall k :: k in cache ==> EntryOwned(hash, cache[k], owner)
  }

  ghost predicate EntryOwned(hash: Hasher, e: Entry, owner: map<Hash, Id>) {
    && e.refreshHash in owner && hash(e.pair.accessToken) in owner
    && owner[e.refreshHash] == owner[hash(e.pair.accessToken)]
  }

  /** How a refresh changes the cache and the history. */
  lemma AskCache(hash: Hasher, s: State, rq: Request, now: int, d: Draw, between: seq<Target>)
    ensures var o := Refresh(hash, s, rq, now, d, between);
            var h := hash(rq.refreshToken);
            var i := RefreshIndex(s.t.rows, h);
            if |o.next.t.history| <= |s.t.history| then
              o.next.t.history == s.t.history && (o.next.cache == s.cache || o.next.cache == Purge(s.cache, now))
            else
              && i < |s.t.rows| && !s.t.rows[i].revoked && rq.requestId !in Purge(s.cache, now)
              && o.granted == Some(PairOf(s.t.rows[i], now, d))
              && o.next.t.history == s.t.history + [Used(s.t.rows[i].familyId, h, s.t.rows[i].generation)]
              && o.next.cache == Remember(Purge(s.cache, now), rq.requestId,
                                          Entry(h, rq.deviceId, PairOf(s.t.rows[i], now, d), now + CACHE_SECONDS),
                                          d.victim)
  {
    hide Purge, Remember, RevokeAll, Reused;
    var h := hash(rq.refreshToken);
    var s1 := s.(cache := Purge(s.cache, now));
    ReusedHistory(s1, h, d.revocation);
    RevokeAllFrame(s.t, between);
    ReusedHistory(s1.(t := RevokeAll(s1.t, between)), h, d.revocation);
  }

  lemma ReusedHistory(s: State, h: Hash, u: Update)
    ensures Reused(s, h, u).next.t.history == s.t.history && Reused(s, h, u).next.cache == s.cache
            && Reused(s, h, u).granted.None?
  {
  }

  lemma CacheStep(hash: Hasher, w: World, a: Action)
    requires Inv(w) && Admissible(hash, w, a) && CacheOwned(hash, w.s.cache, w.owner)
    ensures var w' := Step(hash, w, a); CacheOwned(hash, w'.s.cache, w'.owner)
  {
    hide TableInv, CacheOwned, Create, Refresh, EntryOwned, Revoke;
    match a
    case Issue(r) => OwnerGrows(hash, w.s.cache, w.owner, r.accessHash, r.refreshHash, r.familyId);
    case Withdraw(g) =>
    case Ask(rq, now, d, between) => CacheAsk(hash, w, rq, now, d, between);
  }

  lemma CacheAsk(hash: Hasher, w: World, rq: Request, now: int, d: Draw, between: seq<Target>)
    requires Inv(w) && FreshPair(w.owner, FreshOf(hash, now, d)) && CacheOwned(hash, w.s.cache, w.owner)
    ensures var w' := Step(hash, w, Ask(rq, now, d, between)); CacheOwned(hash, w'.s.cache, w'.owner)
  {
    hide TableInv, CacheOwned, Refresh, EntryOwned, Purge, Remember, RefreshIndex;
    var h := hash(rq.refreshToken);
    AskCache(hash, w.s, rq, now, d, between);
    CachePurged(hash, w.s.cache, w.owner, now);
    var i := RefreshIndex(w.s.t.rows, h);
    if i < |w.s.t.rows| {
      OwnedRow(w.s.t, w.owner, i);
      var was := w.s.t.rows[i];
      CacheGrows(hash, Purge(w.s.cache, now), w.owner, rq.requestId,
                 Entry(h, rq.deviceId, PairOf(was, now, d), now + CACHE_SECONDS), d, was.familyId);
    }
  }

  lemma OwnerGrows(hash: Hasher, cache: map<string, Entry>, owner: map<Hash, Id>, g: Hash, h: Hash, f: Id)
    requires CacheOwned(hash, cache, owner) && g !in owner && h !in owner
    ensures CacheOwned(hash, cache, owner[g := f][h := f])
  {
  }

  lemma CachePurged(hash: Hasher, cache: map<string, Entry>, owner: map<Hash, Id>, now: int)
    requires CacheOwned(hash, cache, owner)
    ensures CacheOwned(hash, Purge(cache, now), owner)
  {
    hide EntryOwned;
  }

  lemma CacheGrows(hash: Hasher, cache: map<string, Entry>, owner: map<Hash, Id>, id: string, e: Entry, d: Draw, f: Id)
    requires CacheOwned(hash, cache, owner) && hash(d.accessToken) !in owner && hash(d.refreshToken) !in owner
    requires e.pair.accessToken == d.accessToken && e.refreshHash in owner && owner[e.refreshHash] == f
    ensures CacheOwned(hash, Remember(cache, id, e, d.victim),
            owner[hash(d.accessToken) := f][hash(d.refreshToken) := f])
  {
    OwnerGrows(hash, cache, owner, hash(d.accessToken), hash(d.refreshToken), f);
    assert EntryOwned(hash, e, owner[hash(d.accessToken) := f][hash(d.refreshToken) := f]);
    hide EntryOwned;
  }

  lemma OwnedRow(t: Tables, owner: map<Hash, Id>, i: nat)
    requires TableInv(t, owner) && i < |t.rows|
    ensures t.rows[i].refreshHash in owner && owner[t.rows[i].refreshHash] == t.rows[i].familyId
    ensures t.rows[i].accessHash in owner && owner[t.rows[i].accessHash] == t.rows[i].familyId
  {
    hide Counted, Populated, Disjoint, DistinctRows, Separate, DistinctHistory;
    assert t.rows[i] in t.rows;
  }

  lemma {:induction false} RunKeepsCache(hash: Hasher, w: World, actions: seq<Action>)
    requires Inv(w) && CacheOwned(hash, w.s.cache, w.owner) && AdmissibleRun(hash, w, actions)
    ensures CacheOwned(hash, Run(hash, w, actions).s.cache, Run(hash, w, actions).owner)
  {
    if |actions| > 0 {
      RunKeepsCache(hash, w, actions[..|actions| - 1]);
      RunKeeps(hash, w, actions[..|actions| - 1]);
      CacheStep(hash, Run(hash, w, actions[..|actions| - 1]), actions[|actions| - 1]);
    }
  }

  /** No token ever issued in a dead family validates, and a refresh with one rotates
      nothing; it is answered at all only while the cache still holds its request, and the
      pair it is then given back does not validate either. */
  lemma DeadTokensAreUseless(hash: Hasher, w: World, f: Id, rq: Request, sessionId: Id, now: int, d: Draw,
      between: seq<Target>)
    requires Inv(w) && CacheOwned(hash, w.s.cache, w.owner) && Dead(w.s.t, f)
    requires hash(rq.refreshToken) in w.owner && w.owner[hash(rq.refreshToken)] == f
    ensures Validate(hash, w.s.t, rq.refreshToken, sessionId, rq.deviceId, now).None?
    ensures var o := Refresh(hash, w.s, rq, now, d, between);
            var cache := Purge(w.s.cache, now);
            && o.next.t.history == w.s.t.history
            && (o.granted.Some? <==>
                && rq.refreshToken != "" && rq.deviceId != "" && rq.requestId != "" && rq.requestId in cache
                && cache[rq.requestId].refreshHash == hash(rq.refreshToken)
                && cache[rq.requestId].deviceId == rq.deviceId)
            && (o.granted.Some? ==>
                  Validate(hash, o.next.t, o.granted.value.accessToken, sessionId, rq.deviceId, now).None?)
  {
    DeadDoesNotValidate(hash, w, f, rq.refreshToken, sessionId, rq.deviceId, now);
    var i := RefreshIndex(w.s.t.rows, hash(rq.refreshToken));
    if i < |w.s.t.rows| {
      OwnedRow(w.s.t, w.owner, i);
      assert w.s.t.rows[i] in w.s.t.rows;
    }
    RevokedIsRefused(hash, w.s, rq, now, d, between);
    var cache := Purge(w.s.cache, now);
    if rq.requestId in cache {
      if cache[rq.requestId].refreshHash == hash(rq.refreshToken) {
        DeadDoesNotValidate(hash, w, f, cache[rq.requestId].pair.accessToken, sessionId, rq.deviceId, now);
      }
    }
    hide Refresh, Validate, TableInv;
  }

  lemma RevokedIsRefused(hash: Hasher, s: State, rq: Request, now: int, d: Draw, between: seq<Target>)
    requires var i := RefreshIndex(s.t.rows, hash(rq.refreshToken)); i < |s.t.rows| ==> s.t.rows[i].revoked
    ensures var o := Refresh(hash, s, rq, now, d, between);
            var cache := Purge(s.cache, now);
            && o.next.t.history == s.t.history
            && (o.granted.Some? <==>
                && rq.refreshToken != "" && rq.deviceId != "" && rq.requestId != "" && rq.requestId in cache
                && cache[rq.requestId].refreshHash == hash(rq.refreshToken)
                && cache[rq.requestId].deviceId == rq.deviceId)
            && (o.granted.Some? ==> o.next.t == s.t && o.granted.value == cache[rq.requestId].pair)
  {
    hide Purge, Remember, RevokeAll, Rotate, Reused;
    ReusedHistory(s.(cache := Purge(s.cache, now)), hash(rq.refreshToken), d.revocation);
  }

  lemma DeadDoesNotValidate(hash: Hasher, w: World, f: Id, token: string, sessionId: Id, deviceId: string, now: int)
    requires Inv(w) && Dead(w.s.t, f)
    requires hash(token) in w.owner && w.owner[hash(token)] == f
    ensures Validate(hash, w.s.t, token, sessionId, deviceId, now).None?
  {
    var i := AccessIndex(w.s.t.rows, hash(token));
    if i < |w.s.t.rows| {
      assert w.s.t.rows[i] in w.s.t.rows;
    }
  }

  /** One replayed token whose revocation is carried out finishes its family: whatever happens
      afterwards, no token ever issued in it validates or rotates again. */
  lemma ReplayIsFinal(hash: Hasher, w: World, replay: Request, now: int, d: Draw, between: seq<Target>, u: Used,
                      actions: seq<Action>, rq: Request, sessionId: Id, later: int, draw: Draw, meanwhile: seq<Target>)
    requires Inv(w) && CacheOwned(hash, w.s.cache, w.owner) && Admissible(hash, w, Ask(replay, now, d, between))
    requires replay.refreshToken != "" && replay.deviceId != "" && replay.requestId != ""
    requires u in w.s.t.history && u.tokenHash == hash(replay.refreshToken)
             && replay.requestId !in Purge(w.s.cache, now)
    requires AdmissibleRun(hash, Step(hash, w, Ask(replay, now, d, between)), actions)
    requires var w' := Run(hash, Step(hash, w, Ask(replay, now, d, between)), actions);
             hash(rq.refreshToken) in w'.owner && w'.owner[hash(rq.refreshToken)] == u.familyId
    ensures var w' := Run(hash, Step(hash, w, Ask(replay, now, d, between)), actions);
            d.revocation.Done? ==>
              && Dead(w'.s.t, u.familyId)
              && Validate(hash, w'.s.t, rq.refreshToken, sessionId, rq.deviceId, later).None?
              && Refresh(hash, w'.s, rq, later, draw, meanwhile).next.t.history == w'.s.t.history
  {
    var a := Ask(replay, now, d, between);
    ReplayRevokes(hash, w, replay, now, d, between, u);
    StepKeeps(hash, w, a);
    CacheStep(hash, w, a);
    var w1 := Step(hash, w, a);
    hide Step, Inv, Admissible, CacheOwned, Refresh, Validate, Run, AdmissibleRun, Dead;
    if d.revocation.Done? {
      DeadForever(hash, w1, actions, u.familyId);
      RunKeeps(hash, w1, actions);
      RunKeepsCache(hash, w1, actions);
      DeadTokensAreUseless(hash, Run(hash, w1, actions), u.familyId, rq, sessionId, later, draw, meanwhile);
    }
  }
}

/** The Android client's refresh loop: one request id is kept until an answer arrives. */
module RefreshClient {
  import opened Options
  import opened AuthTables
  import opened TokenSpec

  datatype Client = Client(deviceId: string, pair: Pair, pending: Option<string>, active: bool)

  datatype Play = Play(w: World, c: Client)

  /** Something another client does, or one attempt of this client: the request may be lost
      on its way, and so may the answer. `id` is used only when no request is pending. */
  datatype Event =
    | Other(action: Action)
    | Attempt(id: string, now: int, draw: Draw, between: seq<Target>, arrives: bool, answered: bool)

  function IdOf(c: Client, id: string): string { if c.pending.Some? then c.pending.value else id }

  function RequestOf(c: Client, id: string): Request { Request(c.pair.refreshToken, c.deviceId, IdOf(c, id)) }

  function AskOf(c: Client, ev: Event): Action
    requires ev.Attempt?
  {
    Ask(RequestOf(c, ev.id), ev.now, ev.draw, ev.between)
  }

  /** What the client does with an answer: a pair replaces the old one, a refusal ends the session. */
  function Answered(c: Client, granted: Option<Pair>): Client {
    if granted.None? then c.(pending := None, active := false) else c.(pending := None, pair := granted.value)
  }

  function Next(hash: Hasher, p: Play, ev: Event): Play {
    match ev
    case Other(a) => p.(w := Step(hash, p.w, a))
    case Attempt(id, now, d, between, arrives, answered) =>
      if !p.c.active then p
      else
        var asked := p.c.(pending := Some(IdOf(p.c, id)));
        if !arrives then p.(c := asked)
        else
          var o := Refresh(hash, p.w.s, RequestOf(p.c, id), now, d, between);
          Play(Step(hash, p.w, AskOf(p.c, ev)), if answered then Answered(asked, o.granted) else asked)
  }

  function Played(hash: Hasher, p: Play, events: seq<Event>): Play {
    if |events| == 0 then p else Next(hash, Played(hash, p, events[..|events| - 1]), events[|events| - 1])
  }

  /** The entry under a pending id is neither dropped by time nor evicted. */
  ghost predicate Retained(p: Play, now: int, d: Draw) {
    p.c.pending.Some? ==>
      d.victim != p.c.pending.value
      && (p.c.pending.value in p.w.s.cache ==> now < p.w.s.cache[p.c.pending.value].expiresAt)
  }

  /** Others neither know this client's tokens nor draw its request ids, and the answer to a
      pending request is still remembered. */
  ghost predicate Fair(hash: Hasher, p: Play, ev: Event) {
    match ev
    case Other(a) =>
      && Admissible(hash, p.w, a)
      && (a.Ask? ==>
           && Retained(p, a.now, a.draw)
           && (p.c.pending.Some? ==> a.rq.requestId != p.c.pending.value)
           && (hash(a.rq.refreshToken) in p.w.owner ==> p.w.owner[hash(a.rq.refreshToken)] != p.c.pair.familyId))
    case Attempt(id, now, d, _, _, _) =>
      && Admissible(hash, p.w, AskOf(p.c, ev))
      && Retained(p, now, d)
      && (p.c.pending.None? ==> id !in p.w.s.cache)
  }

  ghost predicate FairRun(hash: Hasher, p: Play, events: seq<Event>) {
    |events| == 0
    || (FairRun(hash, p, events[..|events| - 1])
        && Fair(hash, Played(hash, p, events[..|events| - 1]), events[|events| - 1]))
  }

  /** Some session of the family still holds this refresh hash. */
  ghost predicate LiveIn(t: Tables, f: Id, h: Hash) {
    exists r :: r in t.rows && r.familyId == f && r.refreshHash == h
  }

  /** The client's token has not been exchanged. */
  ghost predicate Holding(hash: Hasher, p: Play) {
    && LiveIn(p.w.s.t, p.c.pair.familyId, hash(p.c.pair.refreshToken))
    && (p.c.pending.Some? ==> p.c.pending.value !in p.w.s.cache)
  }

  /** The client's token has been exchanged for the pair of `e`, and the answer is remembered. */
  ghost predicate Waiting(hash: Hasher, p: Play, e: Entry) {
    && p.c.pending.Some? && p.c.pending.value in p.w.s.cache && p.w.s.cache[p.c.pending.value] == e
    && e.refreshHash == hash(p.c.pair.refreshToken) && e.deviceId == p.c.deviceId
    && p.c.pair.refreshToken != "" && p.c.deviceId != "" && p.c.pending.value != ""
    && e.pair.familyId == p.c.pair.familyId
    && LiveIn(p.w.s.t, e.pair.familyId, hash(e.pair.refreshToken))
  }

  ghost predicate Honest(hash: Hasher, p: Play) {
    p.c.active ==> Holding(hash, p) || exists e :: Waiting(hash, p, e)
  }

  lemma LiveRow(t: Tables, owner: map<Hash, Id>, f: Id, h: Hash) returns (i: nat)
    requires TableInv(t, owner) && LiveIn(t, f, h)
    ensures i == RefreshIndex(t.rows, h) < |t.rows| && t.rows[i].familyId == f && t.rows[i].refreshHash == h
    ensures h in owner && owner[h] == f && UsedIndex(t.history, h) == |t.history|
  {
    hide Counted, Populated, Separate, DistinctHistory;
    i := RefreshIndex(t.rows, h);
    var r :| r in t.rows && r.familyId == f && r.refreshHash == h;
    var j :| 0 <= j < |t.rows| && t.rows[j] == r;
    assert t.rows[i] in t.rows;
    forall k | 0 <= k < |t.history| ensures t.history[k].tokenHash != h {
      assert t.history[k] in t.history;
    }
  }

  lemma SameRowsLive(t: Tables, t': Tables, f: Id, h: Hash)
    requires LiveIn(t, f, h) && |t'.rows| >= |t.rows|
    requires forall i :: 0 <= i < |t.rows| ==>
               t'.rows[i].familyId == t.rows[i].familyId && (t.rows[i].refreshHash == h ==> t'.rows[i].refreshHash == h)
    ensures LiveIn(t', f, h)
  {
    var r :| r in t.rows && r.familyId == f && r.refreshHash == h;
    var j :| 0 <= j < |t.rows| && t.rows[j] == r;
    assert t'.rows[j] in t'.rows;
  }

  /** Nothing but presenting the token itself takes a live refresh hash away. */
  lemma LiveStays(hash: Hasher, w: World, a: Action, f: Id, h: Hash)
    requires Inv(w) && Admissible(hash, w, a) && LiveIn(w.s.t, f, h)
    requires a.Ask? ==> hash(a.rq.refreshToken) != h
    ensures LiveIn(Step(hash, w, a).s.t, f, h)
  {
    hide TableInv, Inv, Admissible, Refresh, LiveIn;
    var t, t' := w.s.t, Step(hash, w, a).s.t;
    match a
    case Issue(r) => SameRowsLive(t, t', f, h);
    case Withdraw(g) =>
      RevokeFrame(t, g);
      SameRowsLive(t, t', f, h);
    case Ask(rq, now, d, between) =>
      AskRows(hash, w, rq, now, d, between);
      SameRowsLive(t, t', f, h);
  }

  /** A remembered answer stays until it expires, is evicted, or its id is used again. */
  lemma CacheStays(hash: Hasher, w: World, a: Action, id: string)
    requires a.Ask? ==>
               a.rq.requestId != id && a.draw.victim != id && (id in w.s.cache ==> a.now < w.s.cache[id].expiresAt)
    ensures var cache, cache' := w.s.cache, Step(hash, w, a).s.cache;
            (id in cache <==> id in cache') && (id in cache ==> cache'[id] == cache[id])
  {
    if a.Ask? {
      AskCache(hash, w.s, a.rq, a.now, a.draw, a.between);
      hide Refresh;
    }
  }

  /** The first answer to a live token, whatever it is, revokes nothing by itself. */
  lemma FirstAnswerRevokesNothing(hash: Hasher, w: World, rq: Request, now: int, d: Draw, between: seq<Target>, f: Id)
    requires Inv(w) && LiveIn(w.s.t, f, hash(rq.refreshToken)) && rq.requestId !in w.s.cache
    ensures var o := Refresh(hash, w.s, rq, now, d, between);
            && o.revokedUser == 0
            && |o.next.t.rows| == |w.s.t.rows|
            && (forall i :: 0 <= i < |w.s.t.rows| && o.next.t.rows[i].revoked ==>
                  w.s.t.rows[i].revoked || NamedBy(between, w.s.t.rows[i]))
  {
    var h := hash(rq.refreshToken);
    var i := LiveRow(w.s.t, w.owner, f, h);
    hide TableInv, LiveIn;
    RevokeAllFrame(w.s.t, between);
    LiveRefresh(hash, w.s, rq, now, d, between, i);
    hide Refresh, RevokeAll, NamedBy, Remember, RefreshIndex, PairOf, FreshOf;
  }

  /** A pair granted for a live token is remembered for 120 seconds, and its refresh token is live. */
  lemma FirstAnswer(hash: Hasher, w: World, rq: Request, now: int, d: Draw, between: seq<Target>, f: Id)
    requires Inv(w) && LiveIn(w.s.t, f, hash(rq.refreshToken)) && rq.requestId !in w.s.cache
    ensures var o := Refresh(hash, w.s, rq, now, d, between);
            if o.granted.None? then
              LiveIn(o.next.t, f, hash(rq.refreshToken)) && rq.requestId !in o.next.cache
            else
              && rq.refreshToken != "" && rq.deviceId != "" && rq.requestId != "" && rq.requestId in o.next.cache
              && o.next.cache[rq.requestId]
                  == Entry(hash(rq.refreshToken), rq.deviceId, o.granted.value, now + CACHE_SECONDS)
              && o.granted.value.familyId == f
              && LiveIn(o.next.t, f, hash(o.granted.value.refreshToken))
  {
    var h := hash(rq.refreshToken);
    var i := LiveRow(w.s.t, w.owner, f, h);
    RevokeAllFrame(w.s.t, between);
    var t2 := RevokeAll(w.s.t, between);
    RevokeAllKeeps(w.s.t, w.owner, between);
    var n := FreshOf(hash, now, d);
    var was := w.s.t.rows[i];
    LiveRefresh(hash, w.s, rq, now, d, between, i);
    Forgotten(w.s.cache, now, rq.requestId, Entry(h, rq.deviceId, PairOf(was, now, d), now + CACHE_SECONDS), d.victim);
    hide Refresh, RevokeAll, Purge, Remember, LiveIn, RefreshIndex;
    var o := Refresh(hash, w.s, rq, now, d, between);
    if o.granted.None? {
      hide *;
      SameRowsLive(w.s.t, t2, f, h);
    } else {
      assert DistinctRows(t2.rows) by { hide DistinctRows; }
      hide TableInv;
      RotatedRow(t2, was, i, h, n);
      hide Rotate;
    }
  }

  lemma Forgotten(cache: map<string, Entry>, now: int, id: string, e: Entry, victim: string)
    requires id !in cache
    ensures var cache' := Remember(Purge(cache, now), id, e, victim);
            id !in Purge(cache, now) && id in cache' && cache'[id] == e
  {
  }

  /** The branches of a refresh whose hash is live and whose request is not remembered. */
  lemma LiveRefresh(hash: Hasher, s: State, rq: Request, now: int, d: Draw, between: seq<Target>, i: nat)
    requires i == RefreshIndex(s.t.rows, hash(rq.refreshToken)) < |s.t.rows|
    requires UsedIndex(s.t.history, hash(rq.refreshToken)) == |s.t.history| && rq.requestId !in Purge(s.cache, now)
    ensures var o := Refresh(hash, s, rq, now, d, between);
            var h, was, t2 := hash(rq.refreshToken), s.t.rows[i], RevokeAll(s.t, between);
            && o.revokedUser == 0
            && if o.granted.None? then
                 (o.next.t == s.t || o.next.t == t2) && (o.next.cache == s.cache || o.next.cache == Purge(s.cache, now))
               else
                 && rq.refreshToken != "" && rq.deviceId != "" && rq.requestId != ""
                 && o.granted.value == PairOf(was, now, d)
                 && Rotate(t2, was, h, FreshOf(hash, now, d)) == Some(o.next.t)
                 && o.next.cache == Remember(Purge(s.cache, now), rq.requestId,
                                             Entry(h, rq.deviceId, o.granted.value, now + CACHE_SECONDS), d.victim)
  {
    hide Purge, Remember, RevokeAll, Rotate;
    RevokeAllFrame(s.t, between);
  }

  lemma RotatedRow(t: Tables, was: Row, i: nat, h: Hash, n: Fresh)
    requires Rotate(t, was, h, n).Some? && i < |t.rows| && t.rows[i].refreshHash == h
    requires t.rows[i].sessionId == was.sessionId && t.rows[i].familyId == was.familyId
    requires DistinctRows(t.rows)
    ensures var t' := Rotate(t, was, h, n).value;
            && |t'.rows| == |t.rows| && LiveIn(t', was.familyId, n.refreshHash)
            && forall j :: 0 <= j < |t.rows| ==> t'.rows[j].revoked == t.rows[j].revoked
  {
    var t' := Rotate(t, was, h, n).value;
    var k := SessionIndex(t.rows, was.sessionId);
    assert k == i;
    assert t'.rows[i] in t'.rows;
  }

  /** While the answer is remembered, asking again gets the same pair and changes no table. */
  lemma Resend(hash: Hasher, p: Play, e: Entry, ev: Event)
    requires Waiting(hash, p, e) && ev.Attempt? && Retained(p, ev.now, ev.draw)
    ensures var o := Refresh(hash, p.w.s, RequestOf(p.c, ev.id), ev.now, ev.draw, ev.between);
            && o.granted == Some(e.pair) && o.next.t == p.w.s.t && o.revokedUser == 0
            && p.c.pending.value in o.next.cache && o.next.cache[p.c.pending.value] == e
  {
    hide LiveIn, RefreshIndex, RevokeAll, Rotate, Reused;
  }

  /** Every step keeps: the token is live, or its exchange is remembered under the pending id. */
  lemma HonestNext(hash: Hasher, p: Play, ev: Event)
    requires Inv(p.w) && Honest(hash, p) && Fair(hash, p, ev)
    ensures Inv(Next(hash, p, ev).w) && Honest(hash, Next(hash, p, ev))
  {
    var p' := Next(hash, p, ev);
    if ev.Other? {
      StepKeeps(hash, p.w, ev.action);
      if p.c.active {
        if Holding(hash, p) {
          HoldingNext(hash, p, ev.action);
        } else {
          var e :| Waiting(hash, p, e);
          WaitingNext(hash, p, e, ev.action);
        }
      }
      hide Inv, Step, Admissible, LiveIn;
    } else if p.c.active {
      if ev.arrives {
        StepKeeps(hash, p.w, AskOf(p.c, ev));
        if Holding(hash, p) {
          HoldingAttempt(hash, p, ev);
        } else {
          var e :| Waiting(hash, p, e);
          WaitingAttempt(hash, p, e, ev);
        }
        hide Inv, Next, Holding, Waiting;
      }
    }
  }

  lemma HoldingNext(hash: Hasher, p: Play, a: Action)
    requires Inv(p.w) && Holding(hash, p) && Fair(hash, p, Other(a))
    ensures Holding(hash, p.(w := Step(hash, p.w, a)))
  {
    var i := LiveRow(p.w.s.t, p.w.owner, p.c.pair.familyId, hash(p.c.pair.refreshToken));
    LiveStays(hash, p.w, a, p.c.pair.familyId, hash(p.c.pair.refreshToken));
    if p.c.pending.Some? {
      CacheStays(hash, p.w, a, p.c.pending.value);
    }
    hide Inv, Step, Admissible, LiveIn;
  }

  lemma WaitingNext(hash: Hasher, p: Play, e: Entry, a: Action)
    requires Inv(p.w) && Waiting(hash, p, e) && Fair(hash, p, Other(a))
    ensures Waiting(hash, p.(w := Step(hash, p.w, a)), e)
  {
    var i := LiveRow(p.w.s.t, p.w.owner, e.pair.familyId, hash(e.pair.refreshToken));
    LiveStays(hash, p.w, a, e.pair.familyId, hash(e.pair.refreshToken));
    CacheStays(hash, p.w, a, p.c.pending.value);
    hide Inv, Step, Admissible, LiveIn;
  }

  lemma HoldingAttempt(hash: Hasher, p: Play, ev: Event)
    requires Inv(p.w) && p.c.active && Holding(hash, p) && ev.Attempt? && ev.arrives && Fair(hash, p, ev)
    ensures Honest(hash, Next(hash, p, ev))
  {
    var rq := RequestOf(p.c, ev.id);
    FirstAnswer(hash, p.w, rq, ev.now, ev.draw, ev.between, p.c.pair.familyId);
    var o := Refresh(hash, p.w.s, rq, ev.now, ev.draw, ev.between);
    var p' := Next(hash, p, ev);
    hide Refresh, LiveIn, Inv, Admissible;
    assert p'.w.s == o.next;
    hide Step;
    if o.granted.Some? && !ev.answered {
      assert Waiting(hash, p', o.next.cache[rq.requestId]);
    }
  }

  lemma WaitingAttempt(hash: Hasher, p: Play, e: Entry, ev: Event)
    requires Inv(p.w) && p.c.active && Waiting(hash, p, e) && ev.Attempt? && ev.arrives && Fair(hash, p, ev)
    ensures Honest(hash, Next(hash, p, ev))
    ensures !ev.answered ==> Waiting(hash, Next(hash, p, ev), e)
  {
    Resend(hash, p, e, ev);
    hide Refresh, LiveIn, Inv, Admissible;
    var p' := Next(hash, p, ev);
    var o := Refresh(hash, p.w.s, RequestOf(p.c, ev.id), ev.now, ev.draw, ev.between);
    assert p'.w.s == o.next;
    hide Step;
    if ev.answered {
      assert p'.c == Answered(p.c, o.granted) && p'.c.pair == e.pair;
      assert Holding(hash, p');
    } else {
      assert p'.c == p.c;
      assert Waiting(hash, p', e);
    }
    hide Waiting, Holding, Next;
  }

  lemma {:induction false} HonestRun(hash: Hasher, p: Play, events: seq<Event>)
    requires Inv(p.w) && Honest(hash, p) && FairRun(hash, p, events)
    ensures Inv(Played(hash, p, events).w) && Honest(hash, Played(hash, p, events))
  {
    if |events| > 0 {
      HonestRun(hash, p, events[..|events| - 1]);
      HonestNext(hash, Played(hash, p, events[..|events| - 1]), events[|events| - 1]);
    }
  }

  /** A client that has just been given its first pair is honest. */
  lemma LoginIsHonest(hash: Hasher, w: World, r: Row, c: Client)
    requires Inv(w) && Admissible(hash, w, Issue(r))
    requires c.pending.None? && r.familyId == c.pair.familyId && r.refreshHash == hash(c.pair.refreshToken)
    ensures var w' := Step(hash, w, Issue(r)); Inv(w') && Honest(hash, Play(w', c))
  {
    StepKeeps(hash, w, Issue(r));
    CreateKeeps(w.s.t, w.owner, r);
    hide TableInv;
    assert r.(generation := 1, revoked := false) in Step(hash, w, Issue(r)).s.t.rows;
  }

  /** Whichever requests and answers are lost, no attempt of an honest client ever revokes
      its own or any other family: what is revoked afterwards was revoked before, or by
      somebody else meanwhile. */
  lemma HonestNeverRevokes(hash: Hasher, p: Play, events: seq<Event>, ev: Event)
    requires Inv(p.w) && Honest(hash, p) && FairRun(hash, p, events + [ev])
    requires ev.Attempt? && Played(hash, p, events).c.active
    ensures var q := Played(hash, p, events);
            var o := Refresh(hash, q.w.s, RequestOf(q.c, ev.id), ev.now, ev.draw, ev.between);
            && o.revokedUser == 0
            && |o.next.t.rows| == |q.w.s.t.rows|
            && (forall i :: 0 <= i < |q.w.s.t.rows| && o.next.t.rows[i].revoked ==>
                  q.w.s.t.rows[i].revoked || NamedBy(ev.between, q.w.s.t.rows[i]))
  {
    assert (events + [ev])[..|events|] == events;
    HonestRun(hash, p, events);
    var q := Played(hash, p, events);
    if Holding(hash, q) {
      FirstAnswerRevokesNothing(hash, q.w, RequestOf(q.c, ev.id), ev.now, ev.draw, ev.between, q.c.pair.familyId);
    } else {
      var e :| Waiting(hash, q, e);
      Resend(hash, q, e, ev);
    }
    hide Inv, Refresh, Played, NamedBy, Admissible;
  }

  ghost predicate Unanswered(ev: Event) { ev.Attempt? ==> !(ev.arrives && ev.answered) }

  lemma {:induction false} StillWaiting(hash: Hasher, p: Play, e: Entry, events: seq<Event>)
    requires Inv(p.w) && p.c.active && Waiting(hash, p, e) && FairRun(hash, p, events)
    requires forall ev :: ev in events ==> Unanswered(ev)
    ensures var q := Played(hash, p, events);
            Inv(q.w) && q.c.active && q.c.pair == p.c.pair && q.c.deviceId == p.c.deviceId && Waiting(hash, q, e)
  {
    if |events| > 0 {
      var before, ev := events[..|events| - 1], events[|events| - 1];
      StillWaiting(hash, p, e, before);
      var q := Played(hash, p, before);
      assert Played(hash, p, events) == Next(hash, q, ev);
      assert Fair(hash, q, ev) && Unanswered(ev);
      hide Played, FairRun;
      StayWaiting(hash, q, e, ev);
    }
  }

  lemma StayWaiting(hash: Hasher, q: Play, e: Entry, ev: Event)
    requires Inv(q.w) && q.c.active && Waiting(hash, q, e) && Fair(hash, q, ev) && Unanswered(ev)
    ensures var r := Next(hash, q, ev);
            Inv(r.w) && r.c.active && r.c.pair == q.c.pair && r.c.deviceId == q.c.deviceId && Waiting(hash, r, e)
  {
    if ev.Other? {
      StepKeeps(hash, q.w, ev.action);
      WaitingNext(hash, q, e, ev.action);
    } else if ev.arrives {
      StepKeeps(hash, q.w, AskOf(q.c, ev));
      WaitingAttempt(hash, q, e, ev);
    }
    hide Inv, Step, LiveIn, Refresh, Admissible;
  }

  /** Once the server has exchanged the token, every further attempt of the client, however
      many requests or answers are lost before it, is answered with the identical pair and
      changes no table. */
  lemma RetryGetsTheSamePair(hash: Hasher, p: Play, e: Entry, events: seq<Event>, ev: Event)
    requires Inv(p.w) && p.c.active && Waiting(hash, p, e) && FairRun(hash, p, events + [ev])
    requires forall x :: x in events ==> Unanswered(x)
    requires ev.Attempt?
    ensures var q := Played(hash, p, events);
            var o := Refresh(hash, q.w.s, RequestOf(q.c, ev.id), ev.now, ev.draw, ev.between);
            o.granted == Some(e.pair) && o.next.t == q.w.s.t && o.revokedUser == 0
  {
    assert (events + [ev])[..|events|] == events;
    StillWaiting(hash, p, e, events);
    Resend(hash, Played(hash, p, events), e, ev);
  }

  /** What the 120 seconds and the cap decide: a token that was exchanged is answered again
      exactly if its request is still remembered; otherwise the client loses its family, unless
      the revocation itself fails. */
  lemma ResendAnswered(hash: Hasher, w: World, rq: Request, now: int, d: Draw, between: seq<Target>, u: Used)
    requires Inv(w) && rq.refreshToken != "" && rq.deviceId != "" && rq.requestId != ""
    requires u in w.s.t.history && u.tokenHash == hash(rq.refreshToken)
    ensures var o := Refresh(hash, w.s, rq, now, d, between);
            var cache := Purge(w.s.cache, now);
            && (o.granted.Some? <==> rq.requestId in cache && cache[rq.requestId].refreshHash == u.tokenHash
                                     && cache[rq.requestId].deviceId == rq.deviceId)
            && (rq.requestId in cache ==> o.next.t == w.s.t)
            && (rq.requestId !in cache ==>
                  (Dead(o.next.t, u.familyId) <==> d.revocation.Done? || Dead(w.s.t, u.familyId)))
  {
    LiveIsNotUsed(w.s.t, w.owner, hash(rq.refreshToken), u);
    RevokedIsRefused(hash, w.s, rq, now, d, between);
    if rq.requestId !in Purge(w.s.cache, now) {
      ReplayRevokes(hash, w, rq, now, d, between, u);
    }
    hide Inv, Purge, Dead, Reused, Rotate, RevokeAll, Remember;
  }

  // A run that meets the assumptions of the theorems: a login, an exchange whose answer is
  // lost, and then the same request again, or the old token under another request.

  const R1 := Row("s", "f", 7, "phone", "a1", 300, "r1", 172800, 1, false)
  const C1 := Client("phone", Pair("s", "f", "a1", "r1", 300, 172800), None, true)
  const Lost := Attempt("q1", 400, Draw("a2", "r2", "", true, Update.Done), [], true, false)
  const Again := Attempt("q9", 500, Draw("a3", "r3", "", true, Update.Done), [], true, true)
  const P2 := Pair("s", "f", "a2", "r2", 1300, 2592400)
  const E2 := Entry("r1", "phone", P2, 520)
  const T2 := Tables([R1.(accessHash := "a2", accessExpiresAt := 1300, refreshHash := "r2",
                          refreshExpiresAt := 2592400, generation := 2)], [Used("f", "r1", 1)])

  function Plain(s: string): Hash { s }

  lemma LoggedIn()
    ensures Admissible(Plain, Begin, Issue(R1)) && Inv(Begin) && CacheOwned(Plain, Begin.s.cache, Begin.owner)
    ensures Step(Plain, Begin, Issue(R1)) == W1
  {
  }

  lemma Exchanged()
    ensures Refresh(Plain, State(Tables([R1], []), map[]), Request("r1", "phone", "q1"), 400,
            Draw("a2", "r2", "", true, Update.Done), [])
            == Outcome(State(T2, map["q1" := E2]), Some(P2), 0)
  {
    var t := Tables([R1], []);
    assert RefreshIndex([R1], "r1") == 0 && SessionIndex([R1], "s") == 0;
    assert R1.accessHash != "a2" && R1.refreshHash != "r2";
    assert [R1][1..] == [];
    assert AccessIndex([R1], "a2") == 1 && RefreshIndex([R1], "r2") == 1;
    assert Purge(map[], 400) == map[];
    assert Renewed(R1, Fresh("a2", 1300, "r2", 2592400)) == T2.rows[0];
    assert [R1][0 := T2.rows[0]] == T2.rows && [] + T2.history == T2.history;
    assert UsedIndex(t.history, "r1") == 0 == |t.history|;
    assert Rotate(t, R1, "r1", Fresh("a2", 1300, "r2", 2592400)) == Some(T2);
    assert Remember(map[], "q1", E2, "") == map["q1" := E2];
  }

  const W1 := World(State(Tables([R1], []), map[]), map["a1" := "f", "r1" := "f"])
  const W2 := World(State(T2, map["q1" := E2]), map["a1" := "f", "r1" := "f", "a2" := "f", "r2" := "f"])

  lemma AfterLost()
    ensures Played(Plain, Play(W1, C1), [Lost]) == Play(W2, C1.(pending := Some("q1")))
    ensures Step(Plain, W1, AskOf(C1, Lost)) == W2
  {
    OneEvent(Plain, Play(W1, C1), Lost);
    Exchanged();
    hide Refresh;
    assert T2.history[|T2.history| - 1].familyId == "f";
    assert W1.owner["a2" := "f"]["r2" := "f"] == W2.owner;
  }

  lemma LostIsFair()
    ensures FairRun(Plain, Play(W1, C1), [Lost]) && Admissible(Plain, W1, AskOf(C1, Lost))
  {
    OneEvent(Plain, Play(W1, C1), Lost);
    assert Purge(map[], 400) == map[];
    assert Admissible(Plain, W1, AskOf(C1, Lost));
  }

  lemma AgainIsFair(rq: Request)
    ensures FairRun(Plain, Play(W2, C1.(pending := Some("q1"))), [Again])
    ensures Admissible(Plain, W2, Ask(rq, 500, Draw("a3", "r3", "", true, Update.Done), []))
  {
    OneEvent(Plain, Play(W2, C1.(pending := Some("q1"))), Again);
    assert Purge(map["q1" := E2], 500) == map["q1" := E2];
    assert Admissible(Plain, W2, Ask(rq, 500, Draw("a3", "r3", "", true, Update.Done), []));
  }

  /** The theorems about honest clients and about replays are not empty. */
  lemma LostAnswerHappens()
    ensures var p, q := Play(W1, C1), Play(W2, C1.(pending := Some("q1")));
            && Step(Plain, Begin, Issue(R1)) == W1 && Played(Plain, p, [Lost]) == q
            && Inv(W1) && Honest(Plain, p) && FairRun(Plain, p, [Lost])
            && Inv(W2) && Waiting(Plain, q, E2) && FairRun(Plain, q, [Again])
    ensures CacheOwned(Plain, W2.s.cache, W2.owner) && Used("f", "r1", 1) in W2.s.t.history
    ensures "q2" !in Purge(W2.s.cache, 500)
            && Admissible(Plain, W2, Ask(Request("r1", "phone", "q2"), 500, Draw("a3", "r3", "", true, Update.Done),
                []))
  {
    LoggedIn();
    hide Inv, CacheOwned, Admissible, FairRun, Step, Played, Honest, Refresh;
    LoginIsHonest(Plain, Begin, R1, C1);
    CacheStep(Plain, Begin, Issue(R1));
    LostIsFair();
    AfterLost();
    StepKeeps(Plain, W1, AskOf(C1, Lost));
    CacheStep(Plain, W1, AskOf(C1, Lost));
    AgainIsFair(Request("r1", "phone", "q2"));
    assert T2.rows[0] in T2.rows;
    assert Used("f", "r1", 1) == T2.history[0];
  }

  /** The failing input: the very same request, 119 seconds after its first success, gets the
      pair again; after 120 seconds it revokes the honest client's family and kicks its user. */
  lemma TooLateLosesTheFamily(d: Draw)
    requires d.revocation.Done?
    ensures var rq := Request("r1", "phone", "q1");
            var (early, late) := (Refresh(Plain, W2.s, rq, 519, d, []), Refresh(Plain, W2.s, rq, 520, d, []));
            && early.granted == Some(P2) && early.next.t == T2 && !Dead(T2, "f")
            && late.granted.None? && Dead(late.next.t, "f") && late.revokedUser == 7
  {
    LostAnswerHappens();
    var rq, u := Request("r1", "phone", "q1"), Used("f", "r1", 1);
    hide Inv, Refresh;
    assert T2.rows[0] in T2.rows && !T2.rows[0].revoked;
    ResendAnswered(Plain, W2, rq, 519, d, [], u);
    ResendAnswered(Plain, W2, rq, 520, d, [], u);
    ReplayRevokes(Plain, W2, rq, 520, d, [], u);
    Early(d);
  }

  lemma Early(d: Draw)
    ensures Refresh(Plain, W2.s, Request("r1", "phone", "q1"), 519, d, []).granted == Some(P2)
  {
    assert Purge(map["q1" := E2], 519) == map["q1" := E2];
  }

  lemma OneEvent(hash: Hasher, p: Play, ev: Event)
    ensures Played(hash, p, [ev]) == Next(hash, p, ev)
    ensures FairRun(hash, p, [ev]) <==> Fair(hash, p, ev)
  {
    assert [ev][..0] == [];
    assert Played(hash, p, []) == p;
  }
}

/** The two classes: the auth part of Database, and TokenService over it. */
module TokenServer {
  import opened Options
  import opened AuthTables
  import opened TokenSpec

  class Database {
    var rows: seq<Row>
    var history: seq<Used>

    function Contents(): Tables reads this { Tables(rows, history) }

    constructor ()
      ensures Contents() == Tables([], [])
    {
      rows, history := [], [];
    }

    method FindByAccessHash(h: Hash) returns (out: Option<Row>)
      ensures var i := AccessIndex(rows, h); out == if i < |rows| then Some(rows[i]) else None
    {
      var i := 0;
      while i < |rows| && rows[i].accessHash != h
        invariant i <= AccessIndex(rows, h) <= |rows|
      {
        i := i + 1;
      }
      out := if i < |rows| then Some(rows[i]) else None;
    }

    method FindByRefreshHash(h: Hash) returns (out: Option<Row>)
      ensures var i := RefreshIndex(rows, h); out == if i < |rows| then Some(rows[i]) else None
    {
      var i := 0;
      while i < |rows| && rows[i].refreshHash != h
        invariant i <= RefreshIndex(rows, h) <= |rows|
      {
        i := i + 1;
      }
      out := if i < |rows| then Some(rows[i]) else None;
    }

    method WasRefreshTokenUsed(h: Hash) returns (familyId: Option<Id>)
      ensures var i := UsedIndex(history, h); familyId == if i < |history| then Some(history[i].familyId) else None
    {
      var i := 0;
      while i < |history| && history[i].tokenHash != h
        invariant i <= UsedIndex(history, h) <= |history|
      {
        i := i + 1;
      }
      familyId := if i < |history| then Some(history[i].familyId) else None;
    }

    /** `inserted` says whether the statement runs at all; the UNIQUE columns may still refuse. */
    method CreateAuthSession(r: Row, inserted: bool) returns (ok: bool)
      modifies this
      ensures ok <==> inserted && Create(old(Contents()), r).Some?
      ensures Contents() == if ok then Create(old(Contents()), r).value else old(Contents())
    {
      ok := false;
      if !inserted {
        return;
      }
      if SessionIndex(rows, r.sessionId) == |rows| && AccessIndex(rows, r.accessHash) == |rows|
         && RefreshIndex(rows, r.refreshHash) == |rows| {
        rows := rows + [r.(generation := 1, revoked := false)];
        ok := true;
      }
    }

    /** One transaction: the history row goes in first, and is taken out again unless the
        guarded update changes exactly one session. The flags say which statements succeed. */
    method RotateRefreshToken(was: Row, oldHash: Hash, n: Fresh, begun: bool, recorded: bool, renewed: bool,
        committed: bool)
      returns (ok: bool)
      modifies this
      ensures ok <==> begun && recorded && renewed && committed && Rotate(old(Contents()), was, oldHash, n).Some?
      ensures Contents() == if ok then Rotate(old(Contents()), was, oldHash, n).value else old(Contents())
    {
      if !begun {
        return false;
      }
      var rowsAtBegin, historyAtBegin := rows, history;
      if !recorded || UsedIndex(history, oldHash) < |history| {
        return false;
      }
      history := history + [Used(was.familyId, oldHash, was.generation)];
      var i := SessionIndex(rows, was.sessionId);
      if !renewed || i == |rows| || rows[i].refreshHash != oldHash || rows[i].generation != was.generation
          || rows[i].revoked
         || AccessIndex(rows, n.accessHash) !in {i, |rows|} || RefreshIndex(rows, n.refreshHash) !in {i, |rows|} {
        history := historyAtBegin;
        return false;
      }
      rows := rows[i := rows[i].(accessHash := n.accessHash, accessExpiresAt := n.accessExpiresAt,
                                 refreshHash := n.refreshHash, refreshExpiresAt := n.refreshExpiresAt,
                                 generation := rows[i].generation + 1)];
      if !committed {
        rows, history := rowsAtBegin, historyAtBegin;
        return false;
      }
      ok := true;
    }

    /** UPDATE auth_sessions SET revoked=1 WHERE ...; a failure goes unnoticed. */
    method Withdraw(g: Target, u: Update)
      modifies this
      ensures Contents() == Updated(old(Contents()), g, u)
    {
      if !u.Done? {
        return;
      }
      var i := 0;
      while i < |rows|
        invariant 0 <= i <= |rows| == |old(rows)| && history == old(history)
        invariant forall j :: 0 <= j < i ==> rows[j] == RevokeIf(old(rows)[j], g)
        invariant forall j :: i <= j < |rows| ==> rows[j] == old(rows)[j]
      {
        if Names(g, rows[i]) {
          rows := rows[i := rows[i].(revoked := true)];
        }
        i := i + 1;
      }
      assert rows == Revoke(old(Contents()), g).rows;
    }

    /** An update that cannot be prepared hides the user, one that fails later does not. */
    method RevokeTokenFamily(familyId: Id, u: Update) returns (userId: int)
      modifies this
      ensures Contents() == Updated(old(Contents()), Family(familyId), u)
      ensures userId == if u.NotPrepared? then 0 else FamilyUser(old(Contents()), familyId)
    {
      userId := 0;
      var i := FamilyIndex(rows, familyId);
      if i < |rows| {
        userId := rows[i].userId;
      }
      if u.NotPrepared? {
        return 0;
      }
      Withdraw(Family(familyId), u);
    }
  }

  class TokenService {
    const db: Database
    const hash: Hasher
    var refreshResults: map<string, Entry>

    function Contents(): State reads this, db { State(db.Contents(), refreshResults) }

    constructor (db: Database, hash: Hasher)
      ensures this.db == db && this.hash == hash && Contents() == State(db.Contents(), map[])
    {
      this.db, this.hash, refreshResults := db, hash, map[];
    }

    /** A login: a new family, whose access token lives five minutes and refresh token two days. */
    method IssuePair(userId: int, deviceId: string, now: int, sessionId: Id, familyId: Id, d: Draw, inserted: bool)
      returns (pair: Option<Pair>)
      modifies db
      ensures var was := old(db.Contents());
              var created := Create(was, Row(sessionId, familyId, userId, deviceId, hash(d.accessToken), now + 300,
                                             hash(d.refreshToken), now + 172800, 1, false));
              && db.Contents() == (if inserted && created.Some? then created.value else was)
              && pair == if !inserted || created.None? then None
                         else Some(Pair(sessionId, familyId, d.accessToken, d.refreshToken, now + 300, now + 172800))
    {
      var row := Row(sessionId, familyId, userId, deviceId, hash(d.accessToken), now + 5 * 60,
                     hash(d.refreshToken), now + 2 * 24 * 60 * 60, 1, false);
      var saved := db.CreateAuthSession(row, inserted);
      pair := None;
      if saved {
        pair := Some(Pair(sessionId, familyId, d.accessToken, d.refreshToken, row.accessExpiresAt,
            row.refreshExpiresAt));
      }
    }

    method ValidateAccess(token: string, sessionId: Id, deviceId: string, now: int) returns (out: Option<Access>)
      ensures out == Validate(hash, db.Contents(), token, sessionId, deviceId, now)
    {
      if token == "" || deviceId == "" {
        return None;
      }
      var record := db.FindByAccessHash(hash(token));
      if record.None? {
        return None;
      }
      var r := record.value;
      if r.revoked || r.accessExpiresAt <= now || r.deviceId != deviceId
          || (sessionId != "" && r.sessionId != sessionId) {
        return None;
      }
      out := Some(Access(r.userId, r.sessionId, r.accessExpiresAt));
    }

    method PurgeResults(now: int)
      modifies this`refreshResults
      ensures refreshResults == Purge(old(refreshResults), now)
    {
      var todo := refreshResults.Keys;
      while todo != {}
        invariant forall k :: k in refreshResults <==>
                  k in old(refreshResults) && (k in todo || old(refreshResults)[k].expiresAt > now)
        invariant forall k :: k in refreshResults ==> refreshResults[k] == old(refreshResults)[k]
        invariant todo <= refreshResults.Keys
        decreases |todo|
      {
        var k :| k in todo;
        if refreshResults[k].expiresAt <= now {
          refreshResults := refreshResults - {k};
        }
        todo := todo - {k};
      }
    }

    /** What a refresh does when the presented hash is not, or no longer, a live one. */
    method RevokeIfUsed(h: Hash, u: Update) returns (revokedUser: int)
      modifies db
      ensures var o := Reused(old(Contents()), h, u);
              State(db.Contents(), refreshResults) == o.next && revokedUser == o.revokedUser && o.granted.None?
    {
      revokedUser := 0;
      var familyId := db.WasRefreshTokenUsed(h);
      if familyId.Some? && familyId.value != "" {
        var uid := db.RevokeTokenFamily(familyId.value, u);
        if uid > 0 {
          revokedUser := uid;
        }
      }
    }

    /** Other connections' revocations, carried out by the write queue in the meantime. */
    method Meanwhile(between: seq<Target>)
      modifies db
      ensures db.Contents() == RevokeAll(old(db.Contents()), between)
    {
      var i := 0;
      while i < |between|
        invariant 0 <= i <= |between|
        invariant RevokeAll(db.Contents(), between[i..]) == RevokeAll(old(db.Contents()), between)
      {
        db.Withdraw(between[i], Update.Done);
        i := i + 1;
      }
    }

    method RotateRefresh(rq: Request, now: int, accessToken: string, refreshToken: string, between: seq<Target>,
                         commits: bool, revocation: Update)
      returns (granted: Option<Pair>, revokedUser: int, victim: string)
      modifies this, db
      ensures var o := Refresh(hash, old(Contents()), rq, now,
              Draw(accessToken, refreshToken, victim, commits, revocation), between);
              Contents() == o.next && granted == o.granted && revokedUser == o.revokedUser
      ensures var kept := Purge(old(refreshResults), now);
              granted.Some? && rq.requestId !in kept && |kept| >= CACHE_CAP ==> victim in kept
    {
      hide Purge, Revoke, RevokeAll, Rotate, Reused;
      granted, revokedUser, victim := None, 0, "";
      if rq.refreshToken == "" || rq.deviceId == "" || rq.requestId == "" {
        return;
      }
      var h := hash(rq.refreshToken);
      PurgeResults(now);
      if rq.requestId in refreshResults {
        var e := refreshResults[rq.requestId];
        if e.refreshHash == h && e.deviceId == rq.deviceId {
          granted := Some(e.pair);
        }
        return;
      }
      var found := db.FindByRefreshHash(h);
      if found.None? {
        revokedUser := RevokeIfUsed(h, revocation);
        return;
      }
      var was := found.value;
      if was.revoked || was.refreshExpiresAt <= now || was.deviceId != rq.deviceId {
        return;
      }
      Meanwhile(between);
      var next := Pair(was.sessionId, was.familyId, accessToken, refreshToken, now + 15 * 60, now + 30 * 24 * 60 * 60);
      var renewal := Fresh(hash(accessToken), next.accessExpiresAt, hash(refreshToken), next.refreshExpiresAt);
      var written := db.RotateRefreshToken(was, h, renewal, true, true, true, commits);
      if !written {
        revokedUser := RevokeIfUsed(h, revocation);
        return;
      }
      if |refreshResults| >= 1024 {
        victim :| victim in refreshResults;
        refreshResults := refreshResults - {victim};
      }
      refreshResults := refreshResults[rq.requestId := Entry(h, rq.deviceId, next, now + 120)];
      granted := Some(next);
    }

    method RevokeSession(sessionId: Id, u: Update)
      modifies db
      ensures db.Contents() == if sessionId != "" then Updated(old(db.Contents()), Session(sessionId), u)
              else old(db.Contents())
    {
      if sessionId != "" {
        db.Withdraw(Session(sessionId), u);
      }
    }

    method RevokeAllForUser(userId: int, u: Update)
      modifies db
      ensures db.Contents() == if userId > 0 then Updated(old(db.Contents()), User(userId), u) else old(db.Contents())
    {
      if userId > 0 {
        db.Withdraw(User(userId), u);
      }
    }
  }
}
