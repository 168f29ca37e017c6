// The AI request limiter and the handler around it: AiRequestLimiter.cpp and AiHandler.cpp.
// Times are nanoseconds of a clock that never goes back.

module AiLimiter {

  const SECOND: int := 1_000_000_000
  const MINUTE: int := 60 * SECOND

  datatype Result = Accepted | Busy | RateLimited | Duplicate | QueueFull

  datatype Config = Config(perMinute: int, maxPending: int, replayWindow: int)

  function Max(a: int, b: int): int { if a < b then b else a }

  /** The constructor's clamping; the window is in seconds. */
  function Configure(perMinute: int, maxPending: int, replaySeconds: int): (c: Config)
    ensures c.perMinute >= 1 && c.maxPending >= 1 && c.replayWindow >= SECOND
  {
    Config(Max(perMinute, 1), Max(maxPending, 1), Max(replaySeconds, 1) * SECOND)
  }

  datatype Limiter = Limiter(inFlight: set<int>, recent: map<int, seq<int>>, seen: map<int, map<string, int>>)

  const Idle := Limiter({}, map[], map[])

  function RecentOf(l: Limiter, user: int): seq<int> { if user in l.recent then l.recent[user] else [] }

  function SeenOf(l: Limiter, user: int): map<string, int> { if user in l.seen then l.seen[user] else map[] }

  function Purge(seen: map<string, int>, cutoff: int): map<string, int> {
    map id | id in seen && seen[id] >= cutoff :: seen[id]
  }

  function DropOld(recent: seq<int>, cutoff: int): seq<int> {
    if |recent| > 0 && recent[0] < cutoff then DropOld(recent[1..], cutoff) else recent
  }

  function TryAcquire(c: Config, l: Limiter, user: int, id: string, now: int): (Limiter, Result) {
    var seen := Purge(SeenOf(l, user), now - c.replayWindow);
    var l1 := l.(seen := l.seen[user := seen]);
    if id in seen then (l1, Duplicate)
    else if user in l.inFlight then (l1, Busy)
    else if |l.inFlight| >= c.maxPending then (l1, QueueFull)
    else
      var recent := DropOld(RecentOf(l, user), now - MINUTE);
      if |recent| >= c.perMinute then (l1.(recent := l.recent[user := recent]), RateLimited)
      else (Limiter(l.inFlight + {user}, l.recent[user := recent + [now]], l.seen[user := seen[id := now]]), Accepted)
  }

  function Release(l: Limiter, user: int): Limiter { l.(inFlight := l.inFlight - {user}) }

  // ------------------------------------------------------------------ whole runs

  /** An acceptance. */
  datatype Grant = Grant(user: int, id: string, at: int)

  /** The limiter, the last time it was asked, and every acceptance so far. */
  datatype World = World(l: Limiter, last: int, grants: seq<Grant>)

  datatype Event = Ask(user: int, id: string, now: int) | Free(user: int)

  function Step(c: Config, w: World, e: Event): World {
    match e
    case Ask(user, id, now) =>
      var r := TryAcquire(c, w.l, user, id, now);
      World(r.0, now, if r.1.Accepted? then w.grants + [Grant(user, id, now)] else w.grants)
    case Free(user) => w.(l := Release(w.l, user))
  }

  function Run(c: Config, start: int, events: seq<Event>): World {
    if |events| == 0 then World(Idle, start, [])
    else Step(c, Run(c, start, events[..|events| - 1]), events[|events| - 1])
  }

  /** The clock never goes back. */
  ghost predicate Monotonic(c: Config, start: int, events: seq<Event>) {
    |events| == 0
    || (var before, e := events[..|events| - 1], events[|events| - 1];
        Monotonic(c, start, before) && (e.Ask? ==> Run(c, start, before).last <= e.now))
  }

  /** When one user was accepted, in order. */
  function TimesOf(grants: seq<Grant>, user: int): (times: seq<int>)
    ensures |times| <= |grants|
  {
    if |grants| == 0 then []
    else
      var before := TimesOf(grants[..|grants| - 1], user);
      if grants[|grants| - 1].user == user then before + [grants[|grants| - 1].at] else before
  }

  lemma TimesAppend(grants: seq<Grant>, g: Grant, user: int)
    ensures TimesOf(grants + [g], user) == TimesOf(grants, user) + if g.user == user then [g.at] else []
  {
    assert (grants + [g])[..|grants|] == grants;
  }

  ghost predicate Ascending(times: seq<int>) { forall i, j :: 0 <= i < j < |times| ==> times[i] <= times[j] }

  /** Acceptance number i + n comes more than a minute after acceptance number i. */
  ghost predicate Spaced(times: seq<int>, n: nat) {
    forall i :: 0 <= i && i + n < |times| ==> times[i + n] > times[i] + MINUTE
  }

  /** The limiter remembers the latest acceptances; those it has dropped are over a minute old. */
  ghost predicate Remembers(recent: seq<int>, times: seq<int>, last: int) {
    && |recent| <= |times|
    && recent == times[|times| - |recent|..]
    && (forall i :: 0 <= i < |times| - |recent| ==> times[i] < last - MINUTE)
    && (forall i :: 0 <= i < |times| ==> times[i] <= last)
  }

  ghost predicate WindowInv(c: Config, w: World, user: int) {
    var times := TimesOf(w.grants, user);
    c.perMinute >= 1 && Ascending(times) && Spaced(times, c.perMinute) && Remembers(RecentOf(w.l, user), times, w.last)
  }

  lemma {:induction false} DropOldDrops(recent: seq<int>, cutoff: int)
    requires Ascending(recent)
    ensures var kept := DropOld(recent, cutoff);
            && |kept| <= |recent| && kept == recent[|recent| - |kept|..]
            && (forall i :: 0 <= i < |recent| - |kept| ==> recent[i] < cutoff)
            && (forall i :: 0 <= i < |kept| ==> kept[i] >= cutoff)
  {
    if |recent| > 0 && recent[0] < cutoff {
      DropOldDrops(recent[1..], cutoff);
    }
  }

  lemma {:induction false} Pruned(c: Config, recent: seq<int>, times: seq<int>, last: int, now: int)
    requires Ascending(times) && Remembers(recent, times, last) && last <= now
    ensures Remembers(DropOld(recent, now - MINUTE), times, now)
  {
    DropOldDrops(recent, now - MINUTE);
    var kept := DropOld(recent, now - MINUTE);
    var k := |times| - |recent|;
    forall i | 0 <= i < |times| - |kept| ensures times[i] < now - MINUTE {
      if i >= k {
        assert recent[i - k] == times[i];
      }
    }
  }

  lemma GrantKeepsWindow(c: Config, recent: seq<int>, times: seq<int>, now: int)
    requires c.perMinute >= 1 && |recent| < c.perMinute
    requires Ascending(times) && Spaced(times, c.perMinute) && Remembers(recent, times, now)
    ensures Ascending(times + [now]) && Spaced(times + [now], c.perMinute)
            && Remembers(recent + [now], times + [now], now)
  {
  }

  lemma StepKeepsWindow(c: Config, w: World, e: Event, user: int)
    requires c.perMinute >= 1 && WindowInv(c, w, user) && (e.Ask? ==> w.last <= e.now)
    ensures WindowInv(c, Step(c, w, e), user)
  {
    hide Ascending, Spaced, Remembers, TryAcquire, TimesOf, DropOld, RecentOf;
    if e.Ask? {
      var times, recent := TimesOf(w.grants, user), RecentOf(w.l, user);
      Later(recent, times, w.last, e.now);
      AskRecent(c, w.l, e.user, e.id, e.now, user);
      TimesAppend(w.grants, Grant(e.user, e.id, e.now), user);
      assert times + [] == times;
      if e.user == user {
        Pruned(c, recent, times, w.last, e.now);
        var kept := DropOld(recent, e.now - MINUTE);
        var w' := Step(c, w, e);
        var r := TryAcquire(c, w.l, e.user, e.id, e.now);
        if r.1.Accepted? {
          GrantKeepsWindow(c, kept, times, e.now);
          assert TimesOf(w'.grants, user) == times + [e.now];
        } else {
          assert TimesOf(w'.grants, user) == times;
        }
        assert w'.last == e.now && RecentOf(w'.l, user) in {recent, kept, kept + [e.now]};
      }
    } else {
      assert RecentOf(Step(c, w, e).l, user) == RecentOf(w.l, user) by { FreeRecent(w.l, e.user, user); }
    }
  }

  lemma FreeRecent(l: Limiter, freed: int, user: int)
    ensures RecentOf(Release(l, freed), user) == RecentOf(l, user)
  {
  }

  lemma AskRecent(c: Config, l: Limiter, asking: int, id: string, now: int, user: int)
    ensures var r := TryAcquire(c, l, asking, id, now);
            var kept := DropOld(RecentOf(l, user), now - MINUTE);
            && (r.1.Accepted? && asking == user ==> |kept| < c.perMinute)
            && RecentOf(r.0, user) == if asking != user || r.1 in {Duplicate, Busy, QueueFull} then RecentOf(l, user)
                                      else if r.1.RateLimited? then kept
                                      else kept + [now]
  {
    hide DropOld, Purge;
  }

  lemma Later(recent: seq<int>, times: seq<int>, last: int, now: int)
    requires Remembers(recent, times, last) && last <= now
    ensures Remembers(recent, times, now)
  {
  }

  lemma {:induction false} RunKeepsWindow(c: Config, start: int, events: seq<Event>, user: int)
    requires c.perMinute >= 1 && Monotonic(c, start, events)
    ensures WindowInv(c, Run(c, start, events), user)
  {
    if |events| > 0 {
      RunKeepsWindow(c, start, events[..|events| - 1], user);
      StepKeepsWindow(c, Run(c, start, events[..|events| - 1]), events[|events| - 1], user);
    }
  }

  /** How many acceptances fall into the closed minute that begins at x. */
  function InMinute(times: seq<int>, x: int): nat {
    if |times| == 0 then 0
    else InMinute(times[..|times| - 1], x) + if x <= times[|times| - 1] <= x + MINUTE then 1 else 0
  }

  /** Of ascending times those of one minute are neighbours: here is where they start. */
  lemma {:induction false} MinuteIsRange(times: seq<int>, x: int) returns (i: nat)
    requires Ascending(times)
    ensures var k := InMinute(times, x);
            k > 0 ==> i + k <= |times| && x <= times[i] && times[i + k - 1] <= x + MINUTE
  {
    i := 0;
    if |times| > 0 {
      var n := |times| - 1;
      i := MinuteIsRange(times[..n], x);
      var k := InMinute(times[..n], x);
      if x <= times[n] <= x + MINUTE {
        assert k > 0 ==> times[i] <= times[n - k];
        i := n - k;
      }
    }
  }

  /** No closed minute, wherever it begins, holds more than perMinute acceptances of a user. */
  lemma AtMostPerMinute(c: Config, start: int, events: seq<Event>, user: int, x: int)
    requires c.perMinute >= 1 && Monotonic(c, start, events)
    ensures InMinute(TimesOf(Run(c, start, events).grants, user), x) <= c.perMinute
  {
    RunKeepsWindow(c, start, events, user);
    hide Run, Monotonic, TimesOf, Ascending, Spaced, Remembers, InMinute;
    Uncrowded(TimesOf(Run(c, start, events).grants, user), c.perMinute, x);
  }

  lemma Uncrowded(times: seq<int>, n: nat, x: int)
    requires n >= 1 && Ascending(times) && Spaced(times, n)
    ensures InMinute(times, x) <= n
  {
    hide InMinute;
    var i := MinuteIsRange(times, x);
    FarApart(times, n, i, InMinute(times, x));
  }

  lemma FarApart(times: seq<int>, n: nat, i: nat, k: nat)
    requires Ascending(times) && Spaced(times, n)
    ensures n < k && i + k <= |times| ==> times[i + k - 1] > times[i] + MINUTE
  {
    if n < k && i + k <= |times| {
      assert times[i + n] > times[i] + MINUTE;
      assert i + n < i + k - 1 ==> times[i + n] <= times[i + k - 1];
    }
  }

  // ------------------------------------------------------------------ replays

  /** Every acceptance is remembered under its id, or is older than the replay window. */
  ghost predicate SeenInv(c: Config, w: World) {
    forall g :: g in w.grants ==>
      && g.at <= w.last
      && (g.at < w.last - c.replayWindow || (g.id in SeenOf(w.l, g.user) && SeenOf(w.l, g.user)[g.id] >= g.at))
  }

  ghost predicate Apart(c: Config, grants: seq<Grant>) {
    forall i, j :: 0 <= i < j < |grants| && grants[i].user == grants[j].user && grants[i].id == grants[j].id ==>
      grants[j].at > grants[i].at + c.replayWindow
  }

  lemma StepKeepsSeen(c: Config, w: World, e: Event)
    requires c.replayWindow >= 0 && SeenInv(c, w) && Apart(c, w.grants) && (e.Ask? ==> w.last <= e.now)
    ensures SeenInv(c, Step(c, w, e)) && Apart(c, Step(c, w, e).grants)
  {
    if e.Ask? {
      AskSeen(c, w.l, e.user, e.id, e.now);
      hide TryAcquire, SeenOf;
      forall i | 0 <= i < |w.grants| && w.grants[i].user == e.user && w.grants[i].id == e.id
                 && TryAcquire(c, w.l, e.user, e.id, e.now).1.Accepted?
        ensures e.now > w.grants[i].at + c.replayWindow
      {
        assert w.grants[i] in w.grants;
      }
    }
  }

  /** What a decision does to the remembered ids: only the asking user's old ones go, and an
      accepted id, which was not remembered any more, is added. */
  lemma AskSeen(c: Config, l: Limiter, user: int, id: string, now: int)
    ensures var r := TryAcquire(c, l, user, id, now);
            var was := SeenOf(l, user);
            && (forall other :: other != user ==> SeenOf(r.0, other) == SeenOf(l, other))
            && (r.1.Accepted? ==> id !in was || was[id] < now - c.replayWindow)
            && (forall k :: k in was && was[k] >= now - c.replayWindow ==>
                k in SeenOf(r.0, user) && SeenOf(r.0, user)[k] == was[k])
            && (r.1.Accepted? ==> id in SeenOf(r.0, user) && SeenOf(r.0, user)[id] == now)
  {
    hide DropOld;
  }

  lemma {:induction false} RunKeepsSeen(c: Config, start: int, events: seq<Event>)
    requires c.replayWindow >= 0 && Monotonic(c, start, events)
    ensures SeenInv(c, Run(c, start, events)) && Apart(c, Run(c, start, events).grants)
  {
    if |events| > 0 {
      RunKeepsSeen(c, start, events[..|events| - 1]);
      StepKeepsSeen(c, Run(c, start, events[..|events| - 1]), events[|events| - 1]);
    }
  }

  /** Two acceptances of one id by one user are more than the replay window apart. */
  lemma NoReplay(c: Config, start: int, events: seq<Event>, i: nat, j: nat)
    requires c.replayWindow >= 0 && Monotonic(c, start, events) && i < j < |Run(c, start, events).grants|
    requires var grants := Run(c, start, events).grants;
             grants[i].user == grants[j].user && grants[i].id == grants[j].id
    ensures var grants := Run(c, start, events).grants; grants[j].at - grants[i].at > c.replayWindow
  {
    RunKeepsSeen(c, start, events);
  }

  /** Exactly when an id is refused as a replay: while its last acceptance is within the window. */
  lemma DuplicateWhen(c: Config, start: int, events: seq<Event>, user: int, id: string, now: int)
    requires c.replayWindow >= 0 && Monotonic(c, start, events) && Run(c, start, events).last <= now
    ensures var w := Run(c, start, events);
            TryAcquire(c, w.l, user, id, now).1.Duplicate? <==>
              exists g :: g in w.grants && g.user == user && g.id == id && g.at >= now - c.replayWindow
  {
    RunKeepsSeen(c, start, events);
    SeenIsGranted(c, start, events);
    var w := Run(c, start, events);
    hide Run, Monotonic, DropOld;
    if TryAcquire(c, w.l, user, id, now).1.Duplicate? {
      assert id in SeenOf(w.l, user);
      assert Grant(user, id, SeenOf(w.l, user)[id]) in w.grants;
    }
  }

  /** What is remembered was accepted. */
  ghost predicate SeenGranted(w: World) {
    forall user, id :: id in SeenOf(w.l, user) ==> Grant(user, id, SeenOf(w.l, user)[id]) in w.grants
  }

  lemma StepKeepsSeenGranted(c: Config, w: World, e: Event)
    requires SeenGranted(w)
    ensures SeenGranted(Step(c, w, e))
  {
    var w' := Step(c, w, e);
    hide DropOld;
    forall user, id | id in SeenOf(w'.l, user) ensures Grant(user, id, SeenOf(w'.l, user)[id]) in w'.grants {
      if id in SeenOf(w.l, user) && SeenOf(w.l, user)[id] == SeenOf(w'.l, user)[id] {
        assert Grant(user, id, SeenOf(w.l, user)[id]) in w.grants;
      } else {
        assert e.Ask? && w'.grants == w.grants + [Grant(e.user, e.id, e.now)];
        assert w'.grants[|w.grants|] == Grant(user, id, SeenOf(w'.l, user)[id]);
      }
    }
  }

  lemma {:induction false} SeenIsGranted(c: Config, start: int, events: seq<Event>)
    ensures SeenGranted(Run(c, start, events))
  {
    if |events| > 0 {
      SeenIsGranted(c, start, events[..|events| - 1]);
      StepKeepsSeenGranted(c, Run(c, start, events[..|events| - 1]), events[|events| - 1]);
    }
  }

  /** Never more users in flight than the queue is allowed to hold. */
  lemma {:induction false} PendingIsBounded(c: Config, start: int, events: seq<Event>)
    requires c.maxPending >= 1
    ensures |Run(c, start, events).l.inFlight| <= c.maxPending
  {
    if |events| > 0 {
      PendingIsBounded(c, start, events[..|events| - 1]);
      var l, e := Run(c, start, events[..|events| - 1]).l, events[|events| - 1];
      if e.Free? {
        Fewer(l.inFlight, e.user);
      }
    }
  }

  // ------------------------------------------------------------------ exact decisions

  /** Event number k is an accepted request of the user. */
  ghost predicate Accepts(c: Config, start: int, events: seq<Event>, k: nat, user: int) {
    && k < |events| && events[k].Ask? && events[k].user == user
    && TryAcquire(c, Run(c, start, events[..k]).l, user, events[k].id, events[k].now).1.Accepted?
  }

  /** That acceptance still stands: the user has not been released since. */
  ghost predicate Stands(c: Config, start: int, events: seq<Event>, k: nat, user: int) {
    Accepts(c, start, events, k, user) && Free(user) !in events[k + 1..]
  }

  ghost predicate Unreleased(c: Config, start: int, events: seq<Event>, user: int) {
    exists k: nat :: Stands(c, start, events, k, user)
  }

  lemma StandsPrefix(c: Config, start: int, events: seq<Event>, k: nat, user: int)
    requires k + 1 < |events|
    ensures Stands(c, start, events, k, user)
            <==> Stands(c, start, events[..|events| - 1], k, user) && events[|events| - 1] != Free(user)
  {
    hide Run, TryAcquire;
    var n := |events| - 1;
    assert events[..n][..k] == events[..k];
    assert events[k + 1..] == events[..n][k + 1..] + [events[n]];
  }

  lemma StandsLast(c: Config, start: int, events: seq<Event>, k: nat, user: int)
    requires k + 1 >= |events| > 0
    ensures Stands(c, start, events, k, user)
            <==> var (n, e) := (|events| - 1, events[|events| - 1]);
                 && k == n && e.Ask? && e.user == user
                 && TryAcquire(c, Run(c, start, events[..n]).l, user, e.id, e.now).1.Accepted?
  {
    hide Run, TryAcquire;
    assert events[|events|..] == [];
  }

  lemma FlightStep(c: Config, l: Limiter, user: int, id: string, now: int)
    ensures var r := TryAcquire(c, l, user, id, now);
            && r.0.inFlight == (if r.1.Accepted? then l.inFlight + {user} else l.inFlight)
            && (r.1.Accepted? ==> user !in l.inFlight)
  {
    hide Purge, DropOld;
  }

  /** Who is in flight: exactly those who have been accepted and not been released since. */
  lemma {:induction false} InFlightExactlyWhen(c: Config, start: int, events: seq<Event>, user: int)
    ensures user in Run(c, start, events).l.inFlight <==> Unreleased(c, start, events, user)
  {
    if |events| > 0 {
      var n := |events| - 1;
      var e, w := events[n], Run(c, start, events[..n]);
      InFlightExactlyWhen(c, start, events[..n], user);
      if e.Ask? {
        FlightStep(c, w.l, e.user, e.id, e.now);
      }
      assert Run(c, start, events) == Step(c, w, e);
      StandsLast(c, start, events, n, user);
      hide TryAcquire, Run, Stands;
      if k: nat :| Stands(c, start, events[..n], k, user) {
        InRange(c, start, events[..n], k, user);
        StandsPrefix(c, start, events, k, user);
      }
      if k: nat :| Stands(c, start, events, k, user) && k < n {
        StandsPrefix(c, start, events, k, user);
      }
      if k: nat :| Stands(c, start, events, k, user) && k >= n {
        StandsLast(c, start, events, k, user);
      }
    }
  }

  lemma InRange(c: Config, start: int, events: seq<Event>, k: nat, user: int)
    requires Stands(c, start, events, k, user)
    ensures k < |events|
  {
  }

  /** What is left after pruning counts the acceptances of the last minute. */
  lemma {:induction false} CountOfMinute(times: seq<int>, kept: nat, x: int)
    requires kept <= |times| && forall i :: 0 <= i < |times| ==> times[i] <= x + MINUTE
    requires forall i :: 0 <= i < |times| - kept ==> times[i] < x
    requires forall i :: |times| - kept <= i < |times| ==> times[i] >= x
    ensures InMinute(times, x) == kept
  {
    if |times| > 0 {
      CountOfMinute(times[..|times| - 1], if kept > 0 then kept - 1 else 0, x);
    }
  }

  lemma RecentIsCount(c: Config, recent: seq<int>, times: seq<int>, last: int, now: int)
    requires Ascending(times) && Remembers(recent, times, last) && last <= now
    ensures |DropOld(recent, now - MINUTE)| == InMinute(times, now - MINUTE)
  {
    Pruned(c, recent, times, last, now);
    DropOldDrops(recent, now - MINUTE);
    var kept := DropOld(recent, now - MINUTE);
    forall i | |times| - |kept| <= i < |times| ensures times[i] >= now - MINUTE {
      assert times[i] == kept[i - (|times| - |kept|)];
    }
    CountOfMinute(times, |kept|, now - MINUTE);
  }

  /** Every decision, from the history of acceptances and releases alone: a replay if this id was
      accepted within the window; else busy if the user is in flight; else full if as many users
      as allowed are; else too many if the last minute already holds perMinute acceptances of
      the user; else accepted. */
  lemma DecidesExactly(c: Config, start: int, events: seq<Event>, user: int, id: string, now: int)
    requires c.perMinute >= 1 && c.replayWindow >= 0
    requires Monotonic(c, start, events) && Run(c, start, events).last <= now
    ensures var w := Run(c, start, events);
            TryAcquire(c, w.l, user, id, now).1
            == if exists g :: g in w.grants && g.user == user && g.id == id && g.at >= now - c.replayWindow
               then Duplicate
               else if Unreleased(c, start, events, user) then Busy
               else if |w.l.inFlight| >= c.maxPending then QueueFull
               else if InMinute(TimesOf(w.grants, user), now - MINUTE) >= c.perMinute then RateLimited
               else Accepted
  {
    var w := Run(c, start, events);
    DuplicateWhen(c, start, events, user, id, now);
    InFlightExactlyWhen(c, start, events, user);
    RunKeepsWindow(c, start, events, user);
    RecentIsCount(c, RecentOf(w.l, user), TimesOf(w.grants, user), w.last, now);
    hide Run, Monotonic, Unreleased, DropOld, Purge, TimesOf, InMinute, Ascending, Spaced, Remembers;
  }

  lemma Fewer(s: set<int>, x: int)
    ensures |s - {x}| <= |s|
  {
    if x !in s {
      assert s - {x} == s;
    }
  }

  lemma Overwritten<V>(m: map<int, V>, k: int, v: V, w: V)
    ensures m[k := v][k := w] == m[k := w]
  {
  }

  /** The limiter object. */
  class AiRequestLimiter {
    const config: Config
    var inFlightUsers: set<int>
    var recentRequests: map<int, seq<int>>
    var seenIds: map<int, map<string, int>>

    function Contents(): Limiter reads this { Limiter(inFlightUsers, recentRequests, seenIds) }

    constructor (perMinute: int, maxPending: int, replayWindowSeconds: int)
      ensures Contents() == Idle && config == Configure(perMinute, maxPending, replayWindowSeconds)
    {
      config := Config(if perMinute < 1 then 1 else perMinute, if maxPending < 1 then 1 else maxPending,
                       (if replayWindowSeconds < 1 then 1 else replayWindowSeconds) * SECOND);
      inFlightUsers, recentRequests, seenIds := {}, map[], map[];
    }

    method PurgeSeen(seen: map<string, int>, cutoff: int) returns (kept: map<string, int>)
      ensures kept == Purge(seen, cutoff)
    {
      kept := seen;
      var todo := seen.Keys;
      while todo != {}
        invariant todo <= seen.Keys
        invariant forall id :: id in kept <==> id in seen && (id in todo || seen[id] >= cutoff)
        invariant forall id :: id in kept ==> kept[id] == seen[id]
        decreases |todo|
      {
        var id :| id in todo;
        if seen[id] < cutoff {
          kept := kept - {id};
        }
        todo := todo - {id};
      }
    }

    method Prune(recent: seq<int>, cutoff: int) returns (kept: seq<int>)
      ensures kept == DropOld(recent, cutoff)
    {
      kept := recent;
      while |kept| > 0 && kept[0] < cutoff
        invariant DropOld(kept, cutoff) == DropOld(recent, cutoff)
        decreases |kept|
      {
        kept := kept[1..];
      }
    }

    method Acquire(userId: int, requestId: string, now: int) returns (result: Result)
      modifies this
      ensures (Contents(), result) == TryAcquire(config, old(Contents()), userId, requestId, now)
    {
      hide Purge, DropOld, RecentOf, SeenOf;
      var remembered := RecentOf(Contents(), userId);
      var rateCutoff, replayCutoff := now - MINUTE, now - config.replayWindow;
      var seen := PurgeSeen(SeenOf(Contents(), userId), replayCutoff);
      seenIds := seenIds[userId := seen];
      if requestId in seen {
        return Duplicate;
      }
      if userId in inFlightUsers {
        return Busy;
      }
      if |inFlightUsers| >= config.maxPending {
        return QueueFull;
      }
      var recent := Prune(remembered, rateCutoff);
      recentRequests := recentRequests[userId := recent];
      if |recent| >= config.perMinute {
        return RateLimited;
      }
      recentRequests := recentRequests[userId := recent + [now]];
      seenIds := seenIds[userId := seen[requestId := now]];
      inFlightUsers := inFlightUsers + {userId};
      Overwritten(old(seenIds), userId, seen, seen[requestId := now]);
      Overwritten(old(recentRequests), userId, recent, recent + [now]);
      result := Accepted;
    }

    method ReleaseUser(userId: int)
      modifies this
      ensures Contents() == Release(old(Contents()), userId)
    {
      inFlightUsers := inFlightUsers - {userId};
    }
  }
}
