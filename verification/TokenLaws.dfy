// Exactly when a token is exchanged, exactly when one validates, and what a revocation ends:
// TokenService.cpp as its callers see it, in terms of the rows of the auth tables.

module TokenLaws {
  import opened Options
  import opened AuthTables
  import opened TokenSpec

  /** One of these revocations names the row, by its family, its session or its user. */
  predicate Hit(gs: seq<Target>, r: Row) {
    Family(r.familyId) in gs || Session(r.sessionId) in gs || User(r.userId) in gs
  }

  /** The row of a session after an exchange at `now`, with hashes g and h. */
  function Exchanged(r: Row, g: Hash, h: Hash, now: int): Row {
    r.(accessHash := g, accessExpiresAt := now + 900, refreshHash := h, refreshExpiresAt := now + 2592000,
       generation := r.generation + 1)
  }

  function Flagged(r: Row, between: seq<Target>): Row { r.(revoked := r.revoked || Hit(between, r)) }

  /** Revocations flag exactly the rows they name. */
  lemma {:induction false} RevokesExactly(t: Tables, gs: seq<Target>)
    ensures |RevokeAll(t, gs).rows| == |t.rows| && RevokeAll(t, gs).history == t.history
    ensures forall i :: 0 <= i < |t.rows| ==> RevokeAll(t, gs).rows[i] == Flagged(t.rows[i], gs)
    decreases |gs|
  {
    if |gs| > 0 {
      RevokeFrame(t, gs[0]);
      RevokesExactly(Revoke(t, gs[0]), gs[1..]);
      forall r: Row, g | g in {Family(r.familyId), Session(r.sessionId), User(r.userId)}
        ensures g in gs <==> g == gs[0] || g in gs[1..]
      {
        assert gs == [gs[0]] + gs[1..];
      }
    }
  }

  /** No other row holds either of the drawn hashes. */
  ghost predicate Unclaimed(rows: seq<Row>, r: Row, accessHash: Hash, refreshHash: Hash) {
    forall q :: q in rows && q != r ==> q.accessHash != accessHash && q.refreshHash != refreshHash
  }

  lemma RowAt(rows: seq<Row>, r: Row) returns (i: nat)
    requires r in rows
    ensures i < |rows| && rows[i] == r
  {
    i :| 0 <= i < |rows| && rows[i] == r;
  }

  /** When the guarded update of a live hash goes through, and what it leaves. */
  lemma RotatesExactlyWhen(t: Tables, owner: map<Hash, Id>, i: nat, was: Row, g: Hash, h: Hash, now: int)
    requires TableInv(t, owner) && i < |t.rows| && was == t.rows[i].(revoked := was.revoked)
    ensures var o := Rotate(t, was, was.refreshHash, Fresh(g, now + 900, h, now + 2592000));
            && (o.Some? <==> !t.rows[i].revoked && Unclaimed(t.rows, t.rows[i], g, h))
            && (o.Some? ==>
                  && o.value.history == t.history + [Used(was.familyId, was.refreshHash, was.generation)]
                  && o.value.rows == t.rows[i := Exchanged(t.rows[i], g, h, now)])
  {
    hide Counted, Owned, Populated, Separate, DistinctHistory;
    assert t.rows[i] in t.rows;
    forall k | 0 <= k < |t.history| ensures t.history[k].tokenHash != was.refreshHash {
      assert t.history[k] in t.history;
    }
    hide Disjoint;
    OneSession(t.rows, SessionIndex(t.rows, was.sessionId), i);
    FreeHashes(t.rows, i, g, h);
    hide DistinctRows, Unclaimed;
  }

  lemma FreeHashes(rows: seq<Row>, i: nat, g: Hash, h: Hash)
    requires DistinctRows(rows) && i < |rows|
    ensures AccessIndex(rows, g) in {i, |rows|} && RefreshIndex(rows, h) in {i, |rows|}
            <==> Unclaimed(rows, rows[i], g, h)
  {
    var a, b := AccessIndex(rows, g), RefreshIndex(rows, h);
    if a in {i, |rows|} && b in {i, |rows|} {
      forall q | q in rows && q != rows[i] ensures q.accessHash != g && q.refreshHash != h {
        var j := RowAt(rows, q);
      }
    } else {
      if a !in {i, |rows|} {
        assert rows[a] in rows && rows[a] != rows[i];
      } else {
        assert rows[b] in rows && rows[b] != rows[i];
      }
    }
  }

  /** The guarded update in general: the token has not been rotated before, and the session read
      earlier still holds it at the same generation, is not revoked, and the hashes are free. */
  lemma RotateExactlyWhen(t: Tables, owner: map<Hash, Id>, was: Row, oldHash: Hash, n: Fresh)
    requires TableInv(t, owner)
    ensures Rotate(t, was, oldHash, n).Some? <==>
              && (forall u :: u in t.history ==> u.tokenHash != oldHash)
              && exists r :: r in t.rows && r.sessionId == was.sessionId && r.refreshHash == oldHash
                   && r.generation == was.generation && !r.revoked
                   && Unclaimed(t.rows, r, n.accessHash, n.refreshHash)
  {
    hide Counted, Owned, Populated, Separate, DistinctHistory, Disjoint;
    var i, k := SessionIndex(t.rows, was.sessionId), UsedIndex(t.history, oldHash);
    assert k < |t.history| ==> t.history[k] in t.history;
    if i < |t.rows| {
      assert t.rows[i] in t.rows;
      FreeHashes(t.rows, i, n.accessHash, n.refreshHash);
      forall r | r in t.rows && r.sessionId == was.sessionId ensures r == t.rows[i] {
        var j := RowAt(t.rows, r);
        OneSession(t.rows, i, j);
      }
    }
    hide DistinctRows, Unclaimed, SessionIndex, UsedIndex;
  }

  /** A login is refused exactly if its session id or one of its hashes is taken. */
  lemma CreatedExactlyWhen(t: Tables, r: Row)
    ensures var o := Create(t, r);
            && (o.Some? <==> forall q :: q in t.rows ==>
                  q.sessionId != r.sessionId && q.accessHash != r.accessHash && q.refreshHash != r.refreshHash)
            && (o.Some? ==> o.value.history == t.history && |o.value.rows| == |t.rows| + 1
                            && o.value.rows[..|t.rows|] == t.rows
                            && o.value.rows[|t.rows|] == r.(generation := 1, revoked := false))
  {
    var i, j, k := SessionIndex(t.rows, r.sessionId), AccessIndex(t.rows, r.accessHash),
      RefreshIndex(t.rows, r.refreshHash);
    assert i < |t.rows| ==> t.rows[i] in t.rows;
    assert j < |t.rows| ==> t.rows[j] in t.rows;
    assert k < |t.rows| ==> t.rows[k] in t.rows;
  }

  /** The session a refresh finds: of this hash and device, alive now and not revoked meanwhile. */
  ghost predicate Exchanges(t: Tables, r: Row, h: Hash, deviceId: string, now: int, between: seq<Target>) {
    r in t.rows && r.refreshHash == h && r.deviceId == deviceId && now < r.refreshExpiresAt
    && !r.revoked && !Hit(between, r)
  }

  ghost predicate Remembered(s: State, rq: Request, now: int) {
    rq.requestId in s.cache && now < s.cache[rq.requestId].expiresAt
  }

  lemma LiveIndex(t: Tables, owner: map<Hash, Id>, r: Row) returns (i: nat)
    requires TableInv(t, owner) && r in t.rows
    ensures i == RefreshIndex(t.rows, r.refreshHash) < |t.rows| && t.rows[i] == r
  {
    hide Counted, Owned, Populated, Separate, DistinctHistory, Disjoint, RefreshIndex;
    var j := RowAt(t.rows, r);
    i := RefreshIndex(t.rows, r.refreshHash);
    assert t.rows[i] == r by { SameRefresh(t.rows, i, j); }
  }

  lemma SameRefresh(rows: seq<Row>, i: nat, j: nat)
    requires DistinctRows(rows) && i < |rows| && j < |rows| && rows[i].refreshHash == rows[j].refreshHash
    ensures i == j
  {
  }

  /** A refresh that is not answered from the cache, by the row that holds its hash. */
  lemma ExchangeOf(hash: Hasher, w: World, rq: Request, now: int, d: Draw, between: seq<Target>, r: Row)
    requires Inv(w) && rq.refreshToken != "" && rq.deviceId != "" && rq.requestId != ""
    requires !Remembered(w.s, rq, now) && r in w.s.t.rows && r.refreshHash == hash(rq.refreshToken)
    ensures var o := Refresh(hash, w.s, rq, now, d, between);
            var (g, h) := (hash(d.accessToken), hash(d.refreshToken));
            && (o.granted.Some? <==>
                  && Exchanges(w.s.t, r, hash(rq.refreshToken), rq.deviceId, now, between)
                  && d.commits && Unclaimed(w.s.t.rows, r, g, h))
            && (o.granted.Some? ==>
                  && o.granted.value == Pair(r.sessionId, r.familyId, d.accessToken, d.refreshToken,
                                             now + 900, now + 2592000)
                  && |o.next.t.rows| == |w.s.t.rows|
                  && (forall i :: 0 <= i < |w.s.t.rows| ==>
                        o.next.t.rows[i] == if w.s.t.rows[i] == r then Exchanged(r, g, h, now)
                                            else Flagged(w.s.t.rows[i], between))
                  && o.next.t.history == w.s.t.history + [Used(r.familyId, r.refreshHash, r.generation)])
  {
    hide *;
    var t := w.s.t;
    assert TableInv(t, w.owner) by { InvTables(w); }
    var i := LiveIndex(t, w.owner, r);
    RevokeAllKeeps(t, w.owner, between);
    Unfolded(hash, w.s, rq, now, d, between, i);
    RotationOf(t, w.owner, i, hash(d.accessToken), hash(d.refreshToken), now, between);
    ExchangeMeans(t, r, hash(rq.refreshToken), rq.deviceId, now, between);
    OnlyRowAt(t, w.owner, i);
  }

  lemma InvTables(w: World)
    requires Inv(w)
    ensures TableInv(w.s.t, w.owner)
  {
  }

  lemma ExchangeMeans(t: Tables, r: Row, h: Hash, deviceId: string, now: int, between: seq<Target>)
    ensures Exchanges(t, r, h, deviceId, now, between)
            <==> r in t.rows && r.refreshHash == h && r.deviceId == deviceId && now < r.refreshExpiresAt
                 && !r.revoked && !Hit(between, r)
  {
  }

  lemma Unfolded(hash: Hasher, s: State, rq: Request, now: int, d: Draw, between: seq<Target>, i: nat)
    requires rq.refreshToken != "" && rq.deviceId != "" && rq.requestId != "" && !Remembered(s, rq, now)
    requires i == RefreshIndex(s.t.rows, hash(rq.refreshToken)) < |s.t.rows|
    ensures var o := Refresh(hash, s, rq, now, d, between);
            var was := s.t.rows[i];
            var n := Fresh(hash(d.accessToken), now + 900, hash(d.refreshToken), now + 2592000);
            var written := Rotate(RevokeAll(s.t, between), was, hash(rq.refreshToken), n);
            && (o.granted.Some? <==>
                  && !was.revoked && now < was.refreshExpiresAt && was.deviceId == rq.deviceId
                  && d.commits && written.Some?)
            && (o.granted.Some? ==>
                  && o.granted.value == Pair(was.sessionId, was.familyId, d.accessToken, d.refreshToken,
                                             now + 900, now + 2592000)
                  && o.next.t == written.value)
  {
    hide RevokeAll, Rotate, Remember, RefreshIndex;
  }

  /** The rotation behind an exchange, in terms of the rows before the revocations. */
  lemma RotationOf(t: Tables, owner: map<Hash, Id>, i: nat, g: Hash, h: Hash, now: int, between: seq<Target>)
    requires TableInv(t, owner) && TableInv(RevokeAll(t, between), owner) && i < |t.rows|
    ensures var r := t.rows[i];
            var o := Rotate(RevokeAll(t, between), r, r.refreshHash, Fresh(g, now + 900, h, now + 2592000));
            && (o.Some? <==> !r.revoked && !Hit(between, r) && Unclaimed(t.rows, r, g, h))
            && (o.Some? ==>
                  && o.value.history == t.history + [Used(r.familyId, r.refreshHash, r.generation)]
                  && |o.value.rows| == |t.rows|
                  && (forall j :: 0 <= j < |t.rows| && j != i ==> o.value.rows[j] == Flagged(t.rows[j], between))
                  && o.value.rows[i] == Exchanged(r, g, h, now))
  {
    hide *;
    RevokesExactly(t, between);
    var t2 := RevokeAll(t, between);
    OnlyUnrevoked(t.rows[i], between);
    RotatesExactlyWhen(t2, owner, i, t.rows[i], g, h, now);
    RowsApart(t, owner);
    SameClaims(t.rows, t2.rows, i, between, g, h);
  }

  lemma OnlyUnrevoked(r: Row, between: seq<Target>)
    ensures r == Flagged(r, between).(revoked := r.revoked)
    ensures !Flagged(r, between).revoked <==> !r.revoked && !Hit(between, r)
    ensures !Flagged(r, between).revoked ==> Flagged(r, between) == r
  {
  }

  lemma RowsApart(t: Tables, owner: map<Hash, Id>)
    requires TableInv(t, owner)
    ensures DistinctRows(t.rows)
  {
    hide DistinctRows;
  }

  lemma OnlyRowAt(t: Tables, owner: map<Hash, Id>, i: nat)
    requires TableInv(t, owner) && i < |t.rows|
    ensures forall j :: 0 <= j < |t.rows| && t.rows[j] == t.rows[i] ==> j == i
  {
    hide Counted, Owned, Populated, Separate, DistinctHistory, Disjoint;
  }

  lemma SameClaims(rows: seq<Row>, rows': seq<Row>, i: nat, between: seq<Target>, g: Hash, h: Hash)
    requires DistinctRows(rows) && |rows'| == |rows| && i < |rows|
    requires forall j :: 0 <= j < |rows| ==> rows'[j] == Flagged(rows[j], between)
    ensures Unclaimed(rows', rows'[i], g, h) <==> Unclaimed(rows, rows[i], g, h)
  {
    hide Hit;
    if Unclaimed(rows, rows[i], g, h) {
      forall q | q in rows' && q != rows'[i] ensures q.accessHash != g && q.refreshHash != h {
        var j := RowAt(rows', q);
        assert rows[j] in rows;
      }
    }
    if Unclaimed(rows', rows'[i], g, h) {
      forall q | q in rows && q != rows[i] ensures q.accessHash != g && q.refreshHash != h {
        var j := RowAt(rows, q);
        assert rows'[j] in rows';
      }
    }
  }

  lemma NothingYet()
    ensures Inv(Begin)
  {
  }

  lemma Reachable(hash: Hasher, actions: seq<Action>)
    requires AdmissibleRun(hash, Begin, actions)
    ensures Inv(Run(hash, Begin, actions))
  {
    hide *;
    NothingYet();
    RunKeeps(hash, Begin, actions);
  }

  /** Exactly when a refresh is granted, in every reachable state: the request names a token, a
      device and itself, and either its answer is remembered for this token and device, or it
      finds a session of this token and device that is neither expired nor revoked, before or
      meanwhile, the drawn hashes are free and the transaction commits. */
  lemma GrantedExactlyWhen(hash: Hasher, actions: seq<Action>, rq: Request, now: int, d: Draw, between: seq<Target>)
    requires AdmissibleRun(hash, Begin, actions)
    ensures var s := Run(hash, Begin, actions).s;
            Refresh(hash, s, rq, now, d, between).granted.Some? <==>
              && rq.refreshToken != "" && rq.deviceId != "" && rq.requestId != ""
              && if rq.requestId in s.cache && now < s.cache[rq.requestId].expiresAt then
                   && s.cache[rq.requestId].refreshHash == hash(rq.refreshToken)
                   && s.cache[rq.requestId].deviceId == rq.deviceId
                 else
                   && d.commits
                   && exists r ::
                        && r in s.t.rows && r.refreshHash == hash(rq.refreshToken) && r.deviceId == rq.deviceId
                        && now < r.refreshExpiresAt && !r.revoked
                        && Family(r.familyId) !in between && Session(r.sessionId) !in between
                        && User(r.userId) !in between
                        && Unclaimed(s.t.rows, r, hash(d.accessToken), hash(d.refreshToken))
  {
    Reachable(hash, actions);
    var w := Run(hash, Begin, actions);
    hide Run, AdmissibleRun;
    GrantedWhen(hash, w, rq, now, d, between);
    hide Inv, Refresh, Unclaimed;
  }

  ghost predicate Grantable(hash: Hasher, t: Tables, rq: Request, now: int, d: Draw, between: seq<Target>) {
    d.commits && exists r :: Exchanges(t, r, hash(rq.refreshToken), rq.deviceId, now, between)
                             && Unclaimed(t.rows, r, hash(d.accessToken), hash(d.refreshToken))
  }

  lemma GrantedWhen(hash: Hasher, w: World, rq: Request, now: int, d: Draw, between: seq<Target>)
    requires Inv(w)
    ensures Refresh(hash, w.s, rq, now, d, between).granted.Some? <==>
              && rq.refreshToken != "" && rq.deviceId != "" && rq.requestId != ""
              && if Remembered(w.s, rq, now) then
                   && w.s.cache[rq.requestId].refreshHash == hash(rq.refreshToken)
                   && w.s.cache[rq.requestId].deviceId == rq.deviceId
                 else Grantable(hash, w.s.t, rq, now, d, between)
  {
    var h := hash(rq.refreshToken);
    if rq.refreshToken != "" && rq.deviceId != "" && rq.requestId != "" && !Remembered(w.s, rq, now) {
      var i := RefreshIndex(w.s.t.rows, h);
      if i < |w.s.t.rows| {
        var r := w.s.t.rows[i];
        ExchangeOf(hash, w, rq, now, d, between, r);
        forall q | q in w.s.t.rows && q.refreshHash == h ensures q == r {
          var j := LiveIndex(w.s.t, w.owner, q);
        }
      } else {
        NotLive(hash, w.s, rq, now, d, between);
      }
      hide Refresh, Inv, Unclaimed, RefreshIndex;
    } else {
      hide RevokeAll, Reused, Rotate, RefreshIndex, Inv, Grantable;
    }
  }

  lemma NotLive(hash: Hasher, s: State, rq: Request, now: int, d: Draw, between: seq<Target>)
    requires rq.refreshToken != "" && rq.deviceId != "" && rq.requestId != "" && !Remembered(s, rq, now)
    requires RefreshIndex(s.t.rows, hash(rq.refreshToken)) == |s.t.rows|
    ensures Refresh(hash, s, rq, now, d, between).granted.None?
    ensures forall r :: r in s.t.rows ==> r.refreshHash != hash(rq.refreshToken)
  {
    hide RevokeAll, Rotate;
  }

  /** What a grant that is not answered from the cache does, in every reachable state: the one
      session of the token gets the new hashes, fifteen minutes for the access token, thirty
      days for the refresh token and the next generation; the old hash goes to the history; all
      other sessions stay, but for what others revoke meanwhile. */
  lemma GrantChangesOneSession(hash: Hasher, actions: seq<Action>, rq: Request, now: int, d: Draw,
                               between: seq<Target>, r: Row)
    requires AdmissibleRun(hash, Begin, actions)
    requires var s := Run(hash, Begin, actions).s;
             && !Remembered(s, rq, now) && r in s.t.rows && r.refreshHash == hash(rq.refreshToken)
             && Refresh(hash, s, rq, now, d, between).granted.Some?
    ensures var s := Run(hash, Begin, actions).s;
            var o := Refresh(hash, s, rq, now, d, between);
            && o.granted.value == Pair(r.sessionId, r.familyId, d.accessToken, d.refreshToken, now + 900, now + 2592000)
            && |o.next.t.rows| == |s.t.rows|
            && (forall i :: 0 <= i < |s.t.rows| ==>
                  o.next.t.rows[i] == if s.t.rows[i] == r
                                      then Exchanged(r, hash(d.accessToken), hash(d.refreshToken), now)
                                      else Flagged(s.t.rows[i], between))
            && o.next.t.history == s.t.history + [Used(r.familyId, r.refreshHash, r.generation)]
  {
    hide *;
    Reachable(hash, actions);
    var w := Run(hash, Begin, actions);
    GrantedWhen(hash, w, rq, now, d, between);
    ExchangeOf(hash, w, rq, now, d, between, r);
  }

  /** Exactly when an access token validates, in every reachable state, and what for: a session
      holds it, unexpired, unrevoked, on this device and, if one is named, of this id. */
  lemma ValidExactlyWhen(hash: Hasher, w: World, token: string, sessionId: Id, deviceId: string, now: int, a: Access)
    requires Inv(w)
    ensures Validate(hash, w.s.t, token, sessionId, deviceId, now) == Some(a) <==>
              && token != "" && deviceId != ""
              && exists r :: r in w.s.t.rows && r.accessHash == hash(token) && r.deviceId == deviceId
                   && now < r.accessExpiresAt && !r.revoked && (sessionId == "" || sessionId == r.sessionId)
                   && a == Access(r.userId, r.sessionId, r.accessExpiresAt)
  {
    var i := AccessIndex(w.s.t.rows, hash(token));
    if i < |w.s.t.rows| {
      assert w.s.t.rows[i] in w.s.t.rows;
      forall q | q in w.s.t.rows && q.accessHash == hash(token) ensures q == w.s.t.rows[i] {
        OneHolder(w.s.t, w.owner, i, q);
      }
    }
    hide Inv, AccessIndex;
  }

  lemma OneHolder(t: Tables, owner: map<Hash, Id>, i: nat, q: Row)
    requires TableInv(t, owner) && i < |t.rows| && q in t.rows && q.accessHash == t.rows[i].accessHash
    ensures q == t.rows[i]
  {
    var j := RowAt(t.rows, q);
  }

  /** A pair just granted works: on its device, for its session, and until fifteen minutes later. */
  lemma GrantedPairWorks(hash: Hasher, w: World, rq: Request, now: int, d: Draw, between: seq<Target>, r: Row,
                         sessionId: Id, deviceId: string, later: int)
    requires Inv(w) && Admissible(hash, w, Ask(rq, now, d, between))
    requires !Remembered(w.s, rq, now) && r in w.s.t.rows && r.refreshHash == hash(rq.refreshToken)
    requires Refresh(hash, w.s, rq, now, d, between).granted.Some?
    ensures var o := Refresh(hash, w.s, rq, now, d, between);
            Validate(hash, o.next.t, o.granted.value.accessToken, sessionId, deviceId, later)
            == if o.granted.value.accessToken != "" && deviceId == rq.deviceId && later < now + 900
                  && (sessionId == "" || sessionId == r.sessionId)
               then Some(Access(r.userId, r.sessionId, now + 900)) else None
  {
    GrantedWhen(hash, w, rq, now, d, between);
    ExchangeOf(hash, w, rq, now, d, between, r);
    StepKeeps(hash, w, Ask(rq, now, d, between));
    var w' := Step(hash, w, Ask(rq, now, d, between));
    assert w'.s == Refresh(hash, w.s, rq, now, d, between).next by { hide Refresh; }
    var i := RowAt(w.s.t.rows, r);
    hide Refresh, Step, Inv, Admissible, Unclaimed, Validate;
    assert w'.s.t.rows[i] == Exchanged(r, hash(d.accessToken), hash(d.refreshToken), now);
    HolderValidates(hash, w', i, d.accessToken, sessionId, deviceId, later);
  }

  /** What a session's own access token is good for. */
  lemma HolderValidates(hash: Hasher, w: World, i: nat, token: string, sessionId: Id, deviceId: string, now: int)
    requires Inv(w) && i < |w.s.t.rows| && w.s.t.rows[i].accessHash == hash(token)
    ensures var r := w.s.t.rows[i];
            Validate(hash, w.s.t, token, sessionId, deviceId, now)
            == if token != "" && deviceId != "" && deviceId == r.deviceId && now < r.accessExpiresAt && !r.revoked
                  && (sessionId == "" || sessionId == r.sessionId)
               then Some(Access(r.userId, r.sessionId, r.accessExpiresAt)) else None
  {
    InvTables(w);
    var j := AccessIndex(w.s.t.rows, hash(token));
    OneHolder(w.s.t, w.owner, i, w.s.t.rows[j]);
    hide Inv, AccessIndex, TableInv;
  }

  /** Revoking a session, a user or a family ends every session it names for good, and leaves
      all others as they are. */
  lemma WithdrawIsFinal(hash: Hasher, w: World, g: Target, r: Row, actions: seq<Action>, token: string,
                        sessionId: Id, deviceId: string, now: int)
    requires Inv(w) && r in w.s.t.rows
    requires AdmissibleRun(hash, Step(hash, w, Withdraw(g)), actions)
    ensures var w1 := Step(hash, w, Withdraw(g));
            var w' := Run(hash, w1, actions);
            if g == Family(r.familyId) || g == Session(r.sessionId) || g == User(r.userId) then
              && Dead(w'.s.t, r.familyId)
              && (hash(token) in w'.owner && w'.owner[hash(token)] == r.familyId ==>
                    Validate(hash, w'.s.t, token, sessionId, deviceId, now).None?)
            else r in w1.s.t.rows
  {
    var w1 := Step(hash, w, Withdraw(g));
    Named(hash, w, g, r);
    hide *;
    if g == Family(r.familyId) || g == Session(r.sessionId) || g == User(r.userId) {
      DeadForever(hash, w1, actions, r.familyId);
      RunKeeps(hash, w1, actions);
      var w' := Run(hash, w1, actions);
      if hash(token) in w'.owner && w'.owner[hash(token)] == r.familyId {
        DeadDoesNotValidate(hash, w', r.familyId, token, sessionId, deviceId, now);
      }
    }
  }

  lemma Named(hash: Hasher, w: World, g: Target, r: Row)
    requires Inv(w) && r in w.s.t.rows
    ensures var w1 := Step(hash, w, Withdraw(g));
            && Inv(w1)
            && if g == Family(r.familyId) || g == Session(r.sessionId) || g == User(r.userId)
               then Dead(w1.s.t, r.familyId) else r in w1.s.t.rows
  {
    hide Inv, TableInv, Revoke, Refresh, Create, Admissible;
    var w1 := Step(hash, w, Withdraw(g));
    RevokeFrame(w.s.t, g);
    assert Admissible(hash, w, Withdraw(g)) by { MayWithdraw(hash, w, g); }
    StepKeeps(hash, w, Withdraw(g));
    InvTables(w1);
    var i := RowAt(w.s.t.rows, r);
    assert w1.s.t.rows[i] in w1.s.t.rows;
    if g == Family(r.familyId) || g == Session(r.sessionId) || g == User(r.userId) {
      forall q | q in w1.s.t.rows && q.familyId == r.familyId ensures q.revoked {
        OneRowPerFamily(w1.s.t, w1.owner, q, w1.s.t.rows[i]);
      }
    }
  }

  lemma MayWithdraw(hash: Hasher, w: World, g: Target)
    ensures Admissible(hash, w, Withdraw(g))
  {
  }
}
