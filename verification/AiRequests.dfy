// The active and cancelled sets of AiHandler.cpp around the limiter.

/** Every interleaving of the handler's atomic actions. */
module AiRequests {
  import opened AiLimiter

  /** A request the limiter accepted; `h` numbers it. */
  datatype Phase = Acquired | Active | Erased

  datatype Job = Job(user: int, id: string, phase: Phase)

  datatype State = State(l: Limiter, jobs: map<nat, Job>, active: set<string>, cancelled: set<string>)

  const Begin := State(Idle, map[], {}, {})

  /** std::to_string of a number that is not negative. */
  function Digits(n: nat): (s: string)
    ensures |s| > 0 && ':' !in s
  {
    var digit := ('0' as int + n % 10) as char;
    if n < 10 then [digit] else Digits(n / 10) + [digit]
  }

  /** requestKey. */
  function KeyOf(user: int, id: string): string
    requires user >= 0
  {
    Digits(user) + ":" + id
  }

  lemma {:induction false} DigitsInjective(m: nat, n: nat)
    requires Digits(m) == Digits(n)
    ensures m == n
  {
    var s := Digits(m);
    assert s[|s| - 1] == ('0' as int + m % 10) as char == ('0' as int + n % 10) as char;
    assert m % 10 == n % 10;
    if m >= 10 && n >= 10 {
      assert s[..|s| - 1] == Digits(m / 10) == Digits(n / 10);
      DigitsInjective(m / 10, n / 10);
    }
  }

  /** The key names one user and one request. */
  lemma KeyInjective(u: nat, a: string, v: nat, b: string)
    requires KeyOf(u, a) == KeyOf(v, b)
    ensures u == v && a == b
  {
    var s, m, n := KeyOf(u, a), |Digits(u)|, |Digits(v)|;
    assert s[m] == ':' && s[n] == ':';
    assert forall i :: 0 <= i < m ==> s[i] == Digits(u)[i];
    assert forall i :: 0 <= i < n ==> s[i] == Digits(v)[i];
    assert m == n;
    assert Digits(u) == s[..m] == Digits(v);
    assert a == s[m + 1..] == b;
    DigitsInjective(u, v);
  }

  datatype Event =
    | Reply(h: nat, user: int, id: string, now: int)
    | Activate(h: nat)
    | Cancel(user: int, id: string)
    | Erase(h: nat)
    | LetGo(h: nat)

  function Next(c: Config, s: State, e: Event): State {
    match e
    case Reply(h, user, id, now) =>
      if h in s.jobs || user <= 0 then s
      else
        var r := TryAcquire(c, s.l, user, id, now);
        s.(l := r.0, jobs := if r.1.Accepted? then s.jobs[h := Job(user, id, Acquired)] else s.jobs)
    case Activate(h) =>
      if h !in s.jobs || !s.jobs[h].phase.Acquired? || s.jobs[h].user < 0 then s
      else s.(active := s.active + {KeyOf(s.jobs[h].user, s.jobs[h].id)},
              jobs := s.jobs[h := s.jobs[h].(phase := Active)])
    case Cancel(user, id) =>
      if user <= 0 || KeyOf(user, id) !in s.active then s else s.(cancelled := s.cancelled + {KeyOf(user, id)})
    case Erase(h) =>
      if h !in s.jobs || !s.jobs[h].phase.Active? || s.jobs[h].user < 0 then s
      else
        var key := KeyOf(s.jobs[h].user, s.jobs[h].id);
        s.(active := s.active - {key}, cancelled := s.cancelled - {key},
           jobs := s.jobs[h := s.jobs[h].(phase := Erased)])
    case LetGo(h) =>
      if h !in s.jobs || !s.jobs[h].phase.Erased? then s
      else s.(l := Release(s.l, s.jobs[h].user), jobs := s.jobs - {h})
  }

  function RunFrom(c: Config, s: State, events: seq<Event>): State {
    if |events| == 0 then s else Next(c, RunFrom(c, s, events[..|events| - 1]), events[|events| - 1])
  }

  /** In-flight users and unfinished jobs are the same, one to one. */
  ghost predicate OneJobEach(l: Limiter, jobs: map<nat, Job>) {
    && (forall h :: h in jobs ==> jobs[h].user in l.inFlight && jobs[h].user > 0)
    && (forall u :: u in l.inFlight ==> exists h :: h in jobs && jobs[h].user == u)
    && (forall g, h :: g in jobs && h in jobs && jobs[g].user == jobs[h].user ==> g == h)
  }

  ghost predicate ActiveKey(jobs: map<nat, Job>, key: string) {
    exists h :: h in jobs && jobs[h].phase.Active? && jobs[h].user > 0 && KeyOf(jobs[h].user, jobs[h].id) == key
  }

  /** The active keys are those of the active jobs, and only these can be cancelled. */
  ghost predicate Keys(jobs: map<nat, Job>, active: set<string>, cancelled: set<string>) {
    && (forall key :: key in active <==> ActiveKey(jobs, key))
    && cancelled <= active
  }

  ghost predicate Inv(c: Config, s: State) {
    && OneJobEach(s.l, s.jobs) && Keys(s.jobs, s.active, s.cancelled)
    && |s.l.inFlight| <= c.maxPending
  }

  /** No two jobs share a key. */
  lemma OwnKey(l: Limiter, jobs: map<nat, Job>, g: nat, h: nat)
    requires OneJobEach(l, jobs) && g in jobs && h in jobs && g != h
    ensures jobs[g].user > 0 && jobs[h].user > 0
    ensures KeyOf(jobs[g].user, jobs[g].id) != KeyOf(jobs[h].user, jobs[h].id)
  {
    if KeyOf(jobs[g].user, jobs[g].id) == KeyOf(jobs[h].user, jobs[h].id) {
      KeyInjective(jobs[g].user, jobs[g].id, jobs[h].user, jobs[h].id);
    }
  }

  lemma ReplyKeeps(c: Config, s: State, h: nat, user: int, id: string, now: int)
    requires Inv(c, s) && h !in s.jobs && user > 0
    ensures Inv(c, Next(c, s, Reply(h, user, id, now)))
  {
    Accepting(c, s.l, user, id, now);
    hide TryAcquire, KeyOf, OneJobEach, ActiveKey;
    var r := TryAcquire(c, s.l, user, id, now);
    var job := Job(user, id, Acquired);
    if r.1.Accepted? {
      Joined(s.l, s.jobs, r.0, h, job);
      SameKeySet(s.jobs, s.jobs[h := job]);
    } else {
      SameFlight(s.l, s.jobs, r.0);
    }
  }

  lemma Joined(l: Limiter, jobs: map<nat, Job>, l': Limiter, h: nat, job: Job)
    requires OneJobEach(l, jobs) && h !in jobs && job.user !in l.inFlight && job.user > 0
    requires l'.inFlight == l.inFlight + {job.user}
    ensures OneJobEach(l', jobs[h := job])
  {
    var jobs' := jobs[h := job];
    forall u | u in l'.inFlight ensures exists k :: k in jobs' && jobs'[k].user == u {
      if u == job.user {
        assert jobs'[h].user == u;
      } else {
        var k :| k in jobs && jobs[k].user == u;
        assert jobs'[k].user == u;
      }
    }
  }

  lemma SameFlight(l: Limiter, jobs: map<nat, Job>, l': Limiter)
    requires OneJobEach(l, jobs) && l'.inFlight == l.inFlight
    ensures OneJobEach(l', jobs)
  {
  }

  lemma SameKeySet(jobs: map<nat, Job>, jobs': map<nat, Job>)
    requires forall h :: h in jobs && jobs[h].phase.Active? ==> h in jobs' && jobs'[h] == jobs[h]
    requires forall h :: h in jobs' && jobs'[h].phase.Active? ==> h in jobs && jobs[h] == jobs'[h]
    ensures forall key :: ActiveKey(jobs, key) <==> ActiveKey(jobs', key)
  {
    forall key ensures ActiveKey(jobs, key) <==> ActiveKey(jobs', key) {
      SameKeys(jobs, jobs', key);
      SameKeys(jobs', jobs, key);
    }
  }

  lemma SameKeys(jobs: map<nat, Job>, jobs': map<nat, Job>, key: string)
    requires forall h :: h in jobs && jobs[h].phase.Active? ==> h in jobs' && jobs'[h] == jobs[h]
    ensures ActiveKey(jobs, key) ==> ActiveKey(jobs', key)
  {
    hide KeyOf;
    if ActiveKey(jobs, key) {
      var h :| h in jobs && jobs[h].phase.Active? && jobs[h].user > 0 && KeyOf(jobs[h].user, jobs[h].id) == key;
      assert h in jobs';
    }
  }

  /** An acceptance adds a user who was not in flight, and there was room for one more. */
  lemma Accepting(c: Config, l: Limiter, user: int, id: string, now: int)
    ensures var r := TryAcquire(c, l, user, id, now);
            if r.1.Accepted?
            then user !in l.inFlight && |l.inFlight| < c.maxPending && r.0.inFlight == l.inFlight + {user}
            else r.0.inFlight == l.inFlight
  {
    hide DropOld, Purge;
  }

  lemma ActivateKeeps(c: Config, s: State, h: nat)
    requires Inv(c, s) && h in s.jobs && s.jobs[h].phase.Acquired?
    ensures Inv(c, Next(c, s, Activate(h)))
    ensures KeyOf(s.jobs[h].user, s.jobs[h].id) !in s.active
  {
    hide KeyOf, OneJobEach, ActiveKey;
    UserOf(s.l, s.jobs, h);
    var jobs' := s.jobs[h := s.jobs[h].(phase := Active)];
    SameUsers(s.l, s.jobs, jobs');
    ActivatedKeys(s.l, s.jobs, h);
    var s' := Next(c, s, Activate(h));
    assert s'.jobs == jobs' && s'.l == s.l;
    forall key ensures key in s'.active <==> ActiveKey(s'.jobs, key) {
      assert ActiveKey(jobs', key) <==> ActiveKey(s.jobs, key) || key == KeyOf(s.jobs[h].user, s.jobs[h].id);
      assert ActiveKey(s.jobs, key) <==> key in s.active;
    }
  }

  /** A job that becomes active adds its own key, which no other job had. */
  lemma ActivatedKeys(l: Limiter, jobs: map<nat, Job>, h: nat)
    requires OneJobEach(l, jobs) && h in jobs && jobs[h].phase.Acquired? && jobs[h].user > 0
    ensures !ActiveKey(jobs, KeyOf(jobs[h].user, jobs[h].id))
    ensures forall key :: ActiveKey(jobs[h := jobs[h].(phase := Active)], key)
                          <==> ActiveKey(jobs, key) || key == KeyOf(jobs[h].user, jobs[h].id)
  {
    hide KeyOf, OneJobEach;
    var mine, jobs' := KeyOf(jobs[h].user, jobs[h].id), jobs[h := jobs[h].(phase := Active)];
    if ActiveKey(jobs, mine) {
      var g :| g in jobs && jobs[g].phase.Active? && jobs[g].user > 0 && KeyOf(jobs[g].user, jobs[g].id) == mine;
      OwnKey(l, jobs, g, h);
    }
    ActiveJobKey(jobs', h);
    forall key ensures ActiveKey(jobs', key) <==> ActiveKey(jobs, key) || key == mine {
      SameKeys(jobs, jobs', key);
      if ActiveKey(jobs', key) && key != mine {
        var g :| g in jobs' && jobs'[g].phase.Active? && jobs'[g].user > 0 && KeyOf(jobs'[g].user, jobs'[g].id) == key;
        assert g != h && jobs[g] == jobs'[g];
      }
    }
  }

  lemma SameUsers(l: Limiter, jobs: map<nat, Job>, jobs': map<nat, Job>)
    requires OneJobEach(l, jobs) && jobs'.Keys == jobs.Keys
    requires forall h :: h in jobs ==> jobs'[h].user == jobs[h].user
    ensures OneJobEach(l, jobs')
  {
    forall h | h in jobs' ensures jobs'[h].user in l.inFlight && jobs'[h].user > 0 {
      assert h in jobs.Keys;
    }
    forall u | u in l.inFlight ensures exists h :: h in jobs' && jobs'[h].user == u {
      var h :| h in jobs && jobs[h].user == u;
      assert h in jobs'.Keys;
    }
    forall g, h | g in jobs' && h in jobs' && jobs'[g].user == jobs'[h].user ensures g == h {
      assert g in jobs.Keys && h in jobs.Keys;
    }
  }

  lemma EraseKeeps(c: Config, s: State, h: nat)
    requires Inv(c, s) && h in s.jobs && s.jobs[h].phase.Active?
    ensures Inv(c, Next(c, s, Erase(h)))
  {
    hide KeyOf, OneJobEach, ActiveKey;
    var jobs' := s.jobs[h := s.jobs[h].(phase := Erased)];
    assert s.jobs[h].user > 0 by { UserOf(s.l, s.jobs, h); }
    SameUsers(s.l, s.jobs, jobs');
    ErasedKeys(s.l, s.jobs, h);
    var s' := Next(c, s, Erase(h));
    assert s'.jobs == jobs' && s'.l == s.l;
    forall key ensures key in s'.active <==> ActiveKey(s'.jobs, key) {
      assert ActiveKey(jobs', key) <==> ActiveKey(s.jobs, key) && key != KeyOf(s.jobs[h].user, s.jobs[h].id);
      assert ActiveKey(s.jobs, key) <==> key in s.active;
    }
  }

  lemma UserOf(l: Limiter, jobs: map<nat, Job>, h: nat)
    requires OneJobEach(l, jobs) && h in jobs
    ensures jobs[h].user > 0
  {
  }

  lemma ErasedKeys(l: Limiter, jobs: map<nat, Job>, h: nat)
    requires OneJobEach(l, jobs) && h in jobs && jobs[h].phase.Active? && jobs[h].user > 0
    ensures forall key :: ActiveKey(jobs[h := jobs[h].(phase := Erased)], key)
                          <==> ActiveKey(jobs, key) && key != KeyOf(jobs[h].user, jobs[h].id)
  {
    hide KeyOf, OneJobEach;
    var mine, jobs' := KeyOf(jobs[h].user, jobs[h].id), jobs[h := jobs[h].(phase := Erased)];
    forall key ensures ActiveKey(jobs', key) <==> ActiveKey(jobs, key) && key != mine {
      SameKeys(jobs', jobs, key);
      if ActiveKey(jobs', key) {
        var g :| g in jobs' && jobs'[g].phase.Active? && jobs'[g].user > 0 && KeyOf(jobs'[g].user, jobs'[g].id) == key;
        assert g != h;
        OwnKey(l, jobs, g, h);
      }
      if ActiveKey(jobs, key) && key != mine {
        var g :| g in jobs && jobs[g].phase.Active? && jobs[g].user > 0 && KeyOf(jobs[g].user, jobs[g].id) == key;
        assert g != h && jobs'[g] == jobs[g];
      }
    }
  }

  lemma FreeKeeps(c: Config, s: State, h: nat)
    requires Inv(c, s) && h in s.jobs && s.jobs[h].phase.Erased?
    ensures Inv(c, Next(c, s, LetGo(h)))
  {
    hide KeyOf;
    var s' := Next(c, s, LetGo(h));
    Fewer(s.l.inFlight, s.jobs[h].user);
    forall u | u in s'.l.inFlight ensures exists k :: k in s'.jobs && s'.jobs[k].user == u {
      var k :| k in s.jobs && s.jobs[k].user == u;
      assert k != h && s'.jobs[k].user == u;
    }
    forall key ensures ActiveKey(s'.jobs, key) <==> ActiveKey(s.jobs, key) {
      SameKeys(s.jobs, s'.jobs, key);
      SameKeys(s'.jobs, s.jobs, key);
    }
  }

  lemma StepKeeps(c: Config, s: State, e: Event)
    requires Inv(c, s)
    ensures Inv(c, Next(c, s, e))
  {
    hide OneJobEach, ActiveKey, TryAcquire, KeyOf;
    match e
    case Reply(h, user, id, now) =>
      if h !in s.jobs && user > 0 {
        ReplyKeeps(c, s, h, user, id, now);
      }
    case Activate(h) =>
      if h in s.jobs && s.jobs[h].phase.Acquired? {
        ActivateKeeps(c, s, h);
      }
    case Cancel(user, id) =>
    case Erase(h) =>
      if h in s.jobs && s.jobs[h].phase.Active? {
        EraseKeeps(c, s, h);
      }
    case LetGo(h) =>
      if h in s.jobs && s.jobs[h].phase.Erased? {
        FreeKeeps(c, s, h);
      }
  }

  lemma {:induction false} RunKeeps(c: Config, s: State, events: seq<Event>)
    requires Inv(c, s)
    ensures Inv(c, RunFrom(c, s, events))
  {
    if |events| > 0 {
      RunKeeps(c, s, events[..|events| - 1]);
      StepKeeps(c, RunFrom(c, s, events[..|events| - 1]), events[|events| - 1]);
    }
  }

  /** In every interleaving: active and cancelled keys belong to requests of in-flight users,
      a user has at most one unfinished request, and their number is within the limit. */
  lemma KeysBelongToInFlight(c: Config, events: seq<Event>, key: string)
    requires c.maxPending >= 1
    ensures var s := RunFrom(c, Begin, events);
            && |s.l.inFlight| <= c.maxPending
            && (key in s.active || key in s.cancelled ==>
                  exists h :: h in s.jobs && s.jobs[h].user > 0 && s.jobs[h].user in s.l.inFlight
                              && KeyOf(s.jobs[h].user, s.jobs[h].id) == key)
            && (forall g, h :: g in s.jobs && h in s.jobs && s.jobs[g].user == s.jobs[h].user ==> g == h)
  {
    assert Inv(c, Begin) by { assert Begin.active == {}; }
    RunKeeps(c, Begin, events);
    var s := RunFrom(c, Begin, events);
    hide RunFrom, KeyOf;
    if key in s.active || key in s.cancelled {
      assert ActiveKey(s.jobs, key);
      var h :| h in s.jobs && s.jobs[h].phase.Active? && s.jobs[h].user > 0
          && KeyOf(s.jobs[h].user, s.jobs[h].id) == key;
    }
  }

  /** While a request is active it counts as cancelled exactly if its own user has cancelled
      that very request since it became active. */
  lemma {:induction false} CancelledIff(c: Config, s: State, h: nat, events: seq<Event>)
    requires Inv(c, s) && h in s.jobs && s.jobs[h].phase.Active?
    requires KeyOf(s.jobs[h].user, s.jobs[h].id) !in s.cancelled && Erase(h) !in events
    ensures var s' := RunFrom(c, s, events);
            && Inv(c, s') && h in s'.jobs && s'.jobs[h] == s.jobs[h]
            && (KeyOf(s.jobs[h].user, s.jobs[h].id) in s'.cancelled <==> Cancel(s.jobs[h].user, s.jobs[h].id) in events)
  {
    if |events| > 0 {
      var before, e := events[..|events| - 1], events[|events| - 1];
      CancelledIff(c, s, h, before);
      var t := RunFrom(c, s, before);
      assert events == before + [e] && e in events;
      hide RunFrom;
      CancelStep(c, t, h, e);
    }
  }

  lemma ActiveJobKey(jobs: map<nat, Job>, h: nat)
    requires h in jobs && jobs[h].phase.Active? && jobs[h].user > 0
    ensures ActiveKey(jobs, KeyOf(jobs[h].user, jobs[h].id))
  {
    hide KeyOf;
  }

  lemma CancelStep(c: Config, s: State, h: nat, e: Event)
    requires Inv(c, s) && h in s.jobs && s.jobs[h].phase.Active? && s.jobs[h].user > 0 && e != Erase(h)
    ensures var s' := Next(c, s, e);
            var key := KeyOf(s.jobs[h].user, s.jobs[h].id);
            && Inv(c, s') && h in s'.jobs && s'.jobs[h] == s.jobs[h]
            && (key in s'.cancelled <==> key in s.cancelled || e == Cancel(s.jobs[h].user, s.jobs[h].id))
  {
    hide *;
    StepKeeps(c, s, e);
    JobStays(c, s, h, e);
    CancelledBy(c, s, h, e);
  }

  lemma JobStays(c: Config, s: State, h: nat, e: Event)
    requires h in s.jobs && s.jobs[h].phase.Active? && e != Erase(h)
    ensures h in Next(c, s, e).jobs && Next(c, s, e).jobs[h] == s.jobs[h]
  {
    hide KeyOf, TryAcquire;
  }

  lemma CancelledBy(c: Config, s: State, h: nat, e: Event)
    requires Inv(c, s) && h in s.jobs && s.jobs[h].phase.Active? && s.jobs[h].user > 0 && e != Erase(h)
    ensures var key := KeyOf(s.jobs[h].user, s.jobs[h].id);
            key in Next(c, s, e).cancelled <==> key in s.cancelled || e == Cancel(s.jobs[h].user, s.jobs[h].id)
  {
    hide KeyOf, TryAcquire, OneJobEach, ActiveKey;
    var key := KeyOf(s.jobs[h].user, s.jobs[h].id);
    if e.Erase? {
      if e.h in s.jobs && s.jobs[e.h].phase.Active? {
        OwnKey(s.l, s.jobs, e.h, h);
      }
    } else if e.Cancel? {
      ActiveJobKey(s.jobs, h);
      if e.user > 0 && KeyOf(e.user, e.id) == key {
        KeyInjective(e.user, e.id, s.jobs[h].user, s.jobs[h].id);
      }
    } else {
      assert Next(c, s, e).cancelled == s.cancelled;
    }
  }

  /** A cancellation never carries over: whatever happened before, a request that becomes
      active is not cancelled, even under an id that was cancelled earlier. */
  lemma CancelDoesNotCarryOver(c: Config, events: seq<Event>, h: nat)
    requires c.maxPending >= 1
    requires var s := RunFrom(c, Begin, events); h in s.jobs && s.jobs[h].phase.Acquired?
    ensures var s := RunFrom(c, Begin, events);
            var s' := Next(c, s, Activate(h));
            && s.jobs[h].user > 0 && s'.jobs[h].phase.Active?
            && KeyOf(s.jobs[h].user, s.jobs[h].id) in s'.active
            && KeyOf(s.jobs[h].user, s.jobs[h].id) !in s'.cancelled
  {
    assert Inv(c, Begin) by { assert Begin.active == {}; }
    RunKeeps(c, Begin, events);
    ActivateKeeps(c, RunFrom(c, Begin, events), h);
  }

  // ------------------------------------------------------------------ the handler object

  datatype Status =
    Started | Unauthorized | InvalidRequest | NotConfigured | NotFriend | Replay | TooMany | AtWork | Crowded

  datatype Settings = Settings(featureEnabled: bool, rolloutPercent: nat, configured: bool)

  /** Which hundredth of the users one belongs to, in 32-bit arithmetic. */
  function Bucket(user: int): int { (user * 2654435761 % 0x1_0000_0000) % 100 }

  /** Nobody is in a rollout of 0 percent, everybody in one of 100; user 1 is in from 62 percent on. */
  lemma Rollout(user: int)
    ensures 0 <= Bucket(user) < 100
    ensures Bucket(1) == 61
  {
  }

  class AiHandler {
    const settings: Settings
    const limiter: AiRequestLimiter
    var activeRequests: set<string>
    var cancelledRequests: set<string>
    var accepted: nat
    var rejected: nat
    var cancelled: nat
    ghost var jobs: map<nat, Job>

    ghost function Contents(): State
      reads this, limiter
    {
      State(limiter.Contents(), jobs, activeRequests, cancelledRequests)
    }

    constructor (settings: Settings, limiter: AiRequestLimiter)
      requires limiter.Contents() == Idle
      ensures this.settings == settings && this.limiter == limiter && Contents() == Begin
      ensures accepted == rejected == cancelled == 0
    {
      this.settings, this.limiter := settings, limiter;
      activeRequests, cancelledRequests, jobs, accepted, rejected, cancelled := {}, {}, map[], 0, 0, 0;
    }

    /** onReply up to the point where the work is posted. */
    method OnReply(ghost h: nat, userId: int, requestId: string, peerId: int, toneSize: nat, maxSuggestions: int,
                   friend: bool, now: int) returns (status: Status)
      requires h !in jobs
      modifies this, limiter
      ensures var valid := 0 < |requestId| <= 64 && peerId > 0 && peerId != userId && toneSize <= 32
              && 0 <= maxSuggestions <= 3;
              var open := settings.featureEnabled && Bucket(userId) < settings.rolloutPercent;
              var asked := userId > 0 && valid && open && friend && settings.configured;
              var result := TryAcquire(limiter.config, old(Contents()).l, userId, requestId, now).1;
              && (status == Unauthorized <==> userId <= 0)
              && (status == InvalidRequest <==> userId > 0 && !valid)
              && (status == NotFriend <==> userId > 0 && valid && open && !friend)
              && (status == NotConfigured <==> userId > 0 && valid && (!open || (friend && !settings.configured)))
              && (status == Started <==> asked && result.Accepted?)
              && (status == Replay <==> asked && result.Duplicate?)
              && (status == AtWork <==> asked && result.Busy?)
              && (status == Crowded <==> asked && result.QueueFull?)
              && (status == TooMany <==> asked && result.RateLimited?)
              && Contents() == (if !asked then old(Contents())
                                else Next(limiter.config,
                                          Next(limiter.config, old(Contents()), Reply(h, userId, requestId, now)),
                                          Activate(h)))
      ensures accepted + rejected == old(accepted) + old(rejected) + 1
              && accepted == old(accepted) + (if status == Started then 1 else 0)
    {
      hide TryAcquire, KeyOf;
      if userId <= 0 {
        rejected := rejected + 1;
        return Unauthorized;
      }
      if |requestId| == 0 || |requestId| > 64 || peerId <= 0 || peerId == userId || toneSize > 32
         || maxSuggestions < 0 || maxSuggestions > 3 {
        rejected := rejected + 1;
        return InvalidRequest;
      }
      if !settings.featureEnabled || Bucket(userId) >= settings.rolloutPercent {
        rejected := rejected + 1;
        return NotConfigured;
      }
      if !friend {
        rejected := rejected + 1;
        return NotFriend;
      }
      if !settings.configured {
        rejected := rejected + 1;
        return NotConfigured;
      }
      var start := limiter.Acquire(userId, requestId, now);
      if !start.Accepted? {
        rejected := rejected + 1;
        status := match start
          case Duplicate => Replay
          case RateLimited => TooMany
          case QueueFull => Crowded
          case _ => AtWork;
        return;
      }
      accepted := accepted + 1;
      jobs := jobs[h := Job(userId, requestId, Acquired)];
      activeRequests := activeRequests + {KeyOf(userId, requestId)};
      jobs := jobs[h := Job(userId, requestId, Active)];
      status := Started;
    }

    method OnCancel(userId: int, requestId: string)
      modifies this
      ensures Contents() == if 0 < |requestId| <= 64
              then Next(limiter.config, old(Contents()), Cancel(userId, requestId)) else old(Contents())
      ensures cancelled == old(cancelled) + if userId > 0 && 0 < |requestId| <= 64
              && KeyOf(userId, requestId) in activeRequests then 1 else 0
    {
      if userId <= 0 || |requestId| == 0 || |requestId| > 64 {
        return;
      }
      var key := KeyOf(userId, requestId);
      if key in activeRequests {
        cancelledRequests := cancelledRequests + {key};
        cancelled := cancelled + 1;
      }
    }

    /** What the guard does when the work ends in whatever way. */
    method FinishRequest(ghost h: nat, userId: int, requestId: string)
      requires userId > 0 && h in jobs && jobs[h] == Job(userId, requestId, Active)
      modifies this, limiter
      ensures Contents() == Next(limiter.config, Next(limiter.config, old(Contents()), Erase(h)), LetGo(h))
    {
      hide KeyOf;
      var key := KeyOf(userId, requestId);
      activeRequests := activeRequests - {key};
      cancelledRequests := cancelledRequests - {key};
      jobs := jobs[h := Job(userId, requestId, Erased)];
      limiter.ReleaseUser(userId);
      jobs := jobs - {h};
    }
  }
}
