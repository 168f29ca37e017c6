// DbWriteQueue.h and DbWriteQueue.cpp: one worker thread carries out every write.

module DbWriteQueue {
  import opened Options

  type Thread = nat

  /** What the caller's future yields: the task's result, or the exception it threw. */
  datatype Outcome<+R> = Returned(value: R) | Thrown(error: string)

  /** A task and the promise it will fulfil, numbered in order of acceptance. */
  datatype Ticket<+T> = Ticket(id: nat, task: T)

  /** `accepted` is every task ever put in the queue, `answers` the fulfilled promises. */
  datatype Queue<D, T, R> = Queue(running: bool, started: bool, worker: Option<Thread>, exited: bool,
                                  waiting: seq<Ticket<T>>, current: Option<Ticket<T>>,
                                  db: D, answers: map<nat, Outcome<R>>, accepted: seq<T>)

  datatype Event<T> = Open | Begin(thread: Thread) | Submit(caller: Thread, task: T) | Take | Finish | Stop | Exit

  function Closed<D, T, R>(db: D): Queue<D, T, R> {
    Queue(false, false, None, false, [], None, db, map[], [])
  }

  /** Whether submit throws instead of queueing: not running, or called from a task. */
  predicate Refuses<D, T, R>(q: Queue<D, T, R>, caller: Thread) {
    !q.running || q.worker == Some(caller)
  }

  function Step<D, T, R>(exec: (D, T) -> (D, Outcome<R>), q: Queue<D, T, R>, e: Event<T>): Queue<D, T, R> {
    match e
    case Open => if q.running || q.started then q else q.(running := true, started := true)
    case Begin(th) => if q.started && q.worker.None? && !q.exited then q.(worker := Some(th)) else q
    case Submit(caller, task) =>
      if Refuses(q, caller) then q
      else q.(waiting := q.waiting + [Ticket(|q.accepted|, task)], accepted := q.accepted + [task])
    case Take =>
      if q.worker.None? || q.current.Some? || |q.waiting| == 0 then q
      else q.(current := Some(q.waiting[0]), waiting := q.waiting[1..])
    case Finish =>
      if q.current.None? then q
      else
        var r := exec(q.db, q.current.value.task);
        q.(current := None, db := r.0, answers := q.answers[q.current.value.id := r.1])
    case Stop => q.(running := false)
    case Exit =>
      if q.worker.Some? && q.current.None? && !q.running && |q.waiting| == 0
      then q.(worker := None, exited := true) else q
  }

  function Run<D, T, R>(exec: (D, T) -> (D, Outcome<R>), db: D, events: seq<Event<T>>): Queue<D, T, R> {
    if |events| == 0 then Closed(db) else Step(exec, Run(exec, db, events[..|events| - 1]), events[|events| - 1])
  }

  /** The tasks carried out one after the other by a single caller. */
  function Sequential<D, T, R>(exec: (D, T) -> (D, Outcome<R>), db: D, tasks: seq<T>): D {
    if |tasks| == 0 then db else exec(Sequential(exec, db, tasks[..|tasks| - 1]), tasks[|tasks| - 1]).0
  }

  /** What the i-th of them would have returned or thrown. */
  function AnswerOf<D, T, R>(exec: (D, T) -> (D, Outcome<R>), db: D, tasks: seq<T>, i: nat): Outcome<R>
    requires i < |tasks|
  {
    exec(Sequential(exec, db, tasks[..i]), tasks[i]).1
  }

  /** How many accepted tasks have been carried out. */
  function Done<D, T, R>(q: Queue<D, T, R>): int { |q.accepted| - |q.waiting| - (if q.current.Some? then 1 else 0) }

  ghost predicate Inv<D, T, R>(exec: (D, T) -> (D, Outcome<R>), db: D, q: Queue<D, T, R>) {
    && 0 <= Done(q)
    && (forall i :: 0 <= i < |q.waiting| ==>
          q.waiting[i] == Ticket(|q.accepted| - |q.waiting| + i, q.accepted[|q.accepted| - |q.waiting| + i]))
    && (q.current.Some? ==> q.current.value == Ticket(Done(q), q.accepted[Done(q)]))
    && q.db == Sequential(exec, db, q.accepted[..Done(q)])
    && (forall i :: i in q.answers <==> 0 <= i < Done(q))
    && (forall i :: 0 <= i < Done(q) ==> q.answers[i] == AnswerOf(exec, db, q.accepted, i))
    && (q.exited ==> !q.running && |q.waiting| == 0 && q.current.None? && q.worker.None?)
    && (q.running || q.worker.Some? || q.exited || |q.accepted| > 0 ==> q.started)
    && (q.worker.None? && !q.exited ==> Done(q) == 0 && q.current.None?)
  }

  lemma SubmitKeeps<D, T, R>(exec: (D, T) -> (D, Outcome<R>), db: D, q: Queue<D, T, R>, caller: Thread, task: T)
    requires Inv(exec, db, q)
    ensures Inv(exec, db, Step(exec, q, Submit(caller, task)))
  {
    var q' := Step(exec, q, Submit(caller, task));
    hide Sequential;
    assert q'.accepted[..Done(q)] == q.accepted[..Done(q)];
    forall i | 0 <= i < Done(q) ensures AnswerOf(exec, db, q'.accepted, i) == AnswerOf(exec, db, q.accepted, i) {
      assert q'.accepted[..i] == q.accepted[..i];
    }
  }

  lemma FinishKeeps<D, T, R>(exec: (D, T) -> (D, Outcome<R>), db: D, q: Queue<D, T, R>)
    requires Inv(exec, db, q) && q.current.Some?
    ensures Inv(exec, db, Step(exec, q, Finish))
  {
    var k := Done(q);
    assert q.accepted[..k + 1][..k] == q.accepted[..k] && q.accepted[..k + 1][k] == q.accepted[k];
  }

  lemma StepKeeps<D, T, R>(exec: (D, T) -> (D, Outcome<R>), db: D, q: Queue<D, T, R>, e: Event<T>)
    requires Inv(exec, db, q)
    ensures Inv(exec, db, Step(exec, q, e))
  {
    if e.Submit? {
      SubmitKeeps(exec, db, q, e.caller, e.task);
    } else if e.Finish? && q.current.Some? {
      FinishKeeps(exec, db, q);
    } else {
      hide Sequential, AnswerOf;
    }
  }

  lemma {:induction false} RunKeeps<D, T, R>(exec: (D, T) -> (D, Outcome<R>), db: D, events: seq<Event<T>>)
    ensures Inv(exec, db, Run(exec, db, events))
  {
    if |events| > 0 {
      RunKeeps(exec, db, events[..|events| - 1]);
      StepKeeps(exec, db, Run(exec, db, events[..|events| - 1]), events[|events| - 1]);
    }
  }

  /** Every interleaving of submitters, worker and destructor equals a sequential run of the
      accepted tasks in their order of acceptance: the database is what the first `Done` of
      them make of it, exactly these are answered, each with its own result or exception, and
      the rest are still queued in order. */
  lemma Linearizes<D, T, R>(exec: (D, T) -> (D, Outcome<R>), db: D, events: seq<Event<T>>)
    ensures var q := Run(exec, db, events);
            && 0 <= Done(q) <= |q.accepted|
            && q.db == Sequential(exec, db, q.accepted[..Done(q)])
            && (forall i :: i in q.answers <==> 0 <= i < Done(q))
            && (forall i :: i in q.answers ==> q.answers[i] == AnswerOf(exec, db, q.accepted, i))
            && |q.waiting| <= |q.accepted|
            && (forall i :: 0 <= i < |q.waiting| ==> q.waiting[i].task == q.accepted[|q.accepted| - |q.waiting| + i])
  {
    RunKeeps(exec, db, events);
  }

  /** When the worker has left its loop nothing is queued: all accepted tasks were carried
      out and answered, and nothing is accepted any more. */
  lemma ExitLeavesNothing<D, T, R>(exec: (D, T) -> (D, Outcome<R>), db: D, events: seq<Event<T>>, caller: Thread)
    requires Run(exec, db, events).exited
    ensures var q := Run(exec, db, events);
            && |q.waiting| == 0 && q.current.None?
            && q.db == Sequential(exec, db, q.accepted)
            && (forall i :: 0 <= i < |q.accepted| ==>
                i in q.answers && q.answers[i] == AnswerOf(exec, db, q.accepted, i))
            && Refuses(q, caller)
  {
    RunKeeps(exec, db, events);
    var q := Run(exec, db, events);
    assert q.accepted[..|q.accepted|] == q.accepted;
  }

  /** Event number k opened the queue, and nothing has stopped it since. */
  ghost predicate OpenedAt<T>(events: seq<Event<T>>, k: nat) {
    k < |events| && events[k] == Open && Open !in events[..k] && Stop !in events[k + 1..]
  }

  lemma OpenedPrefix<T>(events: seq<Event<T>>, k: nat)
    requires k + 1 < |events|
    ensures OpenedAt(events, k) <==> OpenedAt(events[..|events| - 1], k) && events[|events| - 1] != Stop
  {
    var n := |events| - 1;
    assert events[..n][..k] == events[..k];
    assert events[k + 1..] == events[..n][k + 1..] + [events[n]];
  }

  lemma OpenedLast<T>(events: seq<Event<T>>, k: nat)
    requires k + 1 >= |events| > 0
    ensures OpenedAt(events, k)
            <==> k == |events| - 1 && events[|events| - 1] == Open && Open !in events[..|events| - 1]
  {
    assert events[|events|..] == [];
  }

  /** The queue runs exactly from its first opening to the next stop. */
  lemma {:induction false} RunsExactlyWhen<D, T, R>(exec: (D, T) -> (D, Outcome<R>), db: D, events: seq<Event<T>>)
    ensures Run(exec, db, events).running <==> exists k: nat :: OpenedAt(events, k)
    ensures Run(exec, db, events).started <==> Open in events
  {
    if |events| > 0 {
      var n := |events| - 1;
      RunsExactlyWhen(exec, db, events[..n]);
      OpenedOnce(exec, db, events[..n]);
      assert events == events[..n] + [events[n]];
      assert Run(exec, db, events) == Step(exec, Run(exec, db, events[..n]), events[n]);
      OpenedLast(events, n);
      hide Run, OpenedAt;
      if k: nat :| OpenedAt(events[..n], k) {
        Within(events[..n], k);
        OpenedPrefix(events, k);
      }
      if k: nat :| OpenedAt(events, k) && k < n {
        OpenedPrefix(events, k);
      }
      if k: nat :| OpenedAt(events, k) && k >= n {
        OpenedLast(events, k);
      }
    }
  }

  lemma Within<T>(events: seq<Event<T>>, k: nat)
    requires OpenedAt(events, k)
    ensures k < |events|
  {
  }

  lemma {:induction false} OpenedOnce<D, T, R>(exec: (D, T) -> (D, Outcome<R>), db: D, events: seq<Event<T>>)
    ensures Run(exec, db, events).running ==> Run(exec, db, events).started
  {
    if |events| > 0 {
      OpenedOnce(exec, db, events[..|events| - 1]);
    }
  }

  /** Only a thread that has begun the loop is ever its worker. */
  lemma {:induction false} WorkerHasBegun<D, T, R>(exec: (D, T) -> (D, Outcome<R>), db: D, events: seq<Event<T>>)
    ensures var q := Run(exec, db, events); q.worker.Some? ==> Begin(q.worker.value) in events
  {
    if |events| > 0 {
      WorkerHasBegun(exec, db, events[..|events| - 1]);
      assert events == events[..|events| - 1] + [events[|events| - 1]];
    }
  }

  /** Exactly when a submission is accepted: the queue has been opened and not stopped since, and
      the caller is not the worker, as nobody is who has not begun its loop. What is accepted is
      queued behind everything else; what is refused changes nothing. */
  lemma AcceptedExactlyWhen<D, T, R>(exec: (D, T) -> (D, Outcome<R>), db: D, events: seq<Event<T>>,
                                           caller: Thread, task: T)
    ensures var q, q' := Run(exec, db, events), Run(exec, db, events + [Submit(caller, task)]);
            var taken := (exists k: nat :: OpenedAt(events, k)) && q.worker != Some(caller);
            && (Begin(caller) !in events ==> q.worker != Some(caller))
            && (taken ==> q'.accepted == q.accepted + [task]
                          && q'.waiting == q.waiting + [Ticket(|q.accepted|, task)])
            && (!taken ==> q' == q)
  {
    RunsExactlyWhen(exec, db, events);
    WorkerHasBegun(exec, db, events);
    assert (events + [Submit(caller, task)])[..|events|] == events;
  }

  /** n rounds of the worker's loop. */
  function Rounds<T>(n: nat): seq<Event<T>> { if n == 0 then [] else Rounds(n - 1) + [Take, Finish] }

  lemma RunMore<D, T, R>(exec: (D, T) -> (D, Outcome<R>), db: D, events: seq<Event<T>>, e: Event<T>, f: Event<T>)
    ensures Run(exec, db, events + [e, f]) == Step(exec, Step(exec, Run(exec, db, events), e), f)
  {
    assert (events + [e, f])[..|events| + 1] == events + [e];
    assert (events + [e])[..|events|] == events;
  }

  lemma {:induction false} RoundsDrain<D, T, R>(exec: (D, T) -> (D, Outcome<R>), db: D, events: seq<Event<T>>, n: nat)
    requires var q := Run(exec, db, events); q.worker.Some? && q.current.None? && n <= |q.waiting|
    ensures var q, q' := Run(exec, db, events), Run(exec, db, events + Rounds(n));
            && q'.worker == q.worker && q'.running == q.running && q'.accepted == q.accepted && q'.current.None?
            && q'.waiting == q.waiting[n..]
  {
    if n == 0 {
      assert events + Rounds(0) == events;
    } else {
      RoundsDrain(exec, db, events, n - 1);
      assert events + Rounds(n) == (events + Rounds(n - 1)) + [Take, Finish];
      RunMore(exec, db, events + Rounds(n - 1), Take, Finish);
      hide Run;
    }
  }

  /** No caller waits for ever: as many rounds as there are tasks answer all of them, and
      after a stop the worker then leaves. */
  lemma DrainAnswersAll<D, T, R>(exec: (D, T) -> (D, Outcome<R>), db: D, events: seq<Event<T>>)
    requires Run(exec, db, events).worker.Some?
    ensures var q := Run(exec, db, events);
            var q' := Run(exec, db, events + [Finish] + Rounds(|q.waiting|));
            && q'.accepted == q.accepted && |q'.waiting| == 0 && q'.current.None?
            && (forall i :: 0 <= i < |q.accepted| ==> i in q'.answers)
            && (!q.running ==> Step(exec, q', Exit).exited)
  {
    var q := Run(exec, db, events);
    assert (events + [Finish])[..|events|] == events;
    var q1 := Run(exec, db, events + [Finish]);
    assert q1 == Step(exec, q, Finish);
    RoundsDrain(exec, db, events + [Finish], |q.waiting|);
    RunKeeps(exec, db, events + [Finish] + Rounds(|q.waiting|));
  }

  /** The queue object. The worker thread's loop is `TakeAndRun`, repeated. */
  class WriteQueue<D, T, R> {
    const exec: (D, T) -> (D, Outcome<R>)
    var running: bool
    var started: bool
    var workerId: Option<Thread>
    var exited: bool
    var queue: seq<Ticket<T>>
    var db: D
    var answers: map<nat, Outcome<R>>
    ghost var accepted: seq<T>
    var count: nat

    ghost function Contents(): Queue<D, T, R>
      reads this
    {
      Queue(running, started, workerId, exited, queue, None, db, answers, accepted)
    }

    ghost predicate Valid() reads this { count == |accepted| }

    constructor (db: D, exec: (D, T) -> (D, Outcome<R>))
      ensures Valid() && Contents() == Closed(db) && this.exec == exec
    {
      this.db, this.exec := db, exec;
      running, started, workerId, exited := false, false, None, false;
      queue, answers, accepted, count := [], map[], [], 0;
    }

    /** `opens` says whether the connection opens and takes its pragmas, `spawned` whether the
        thread starts; after either failure the queue is as it was. A stopped queue is being
        destroyed and not opened again. */
    method OpenQueue(opens: bool, spawned: bool) returns (r: Outcome<bool>)
      requires Valid() && (started ==> running)
      modifies this
      ensures Valid()
      ensures r == if old(running) then Returned(true) else if !opens then Returned(false)
                   else if !spawned then Thrown("thread") else Returned(true)
      ensures Contents() == if r == Returned(true) then Step(exec, old(Contents()), Open) else old(Contents())
    {
      if running {
        return Returned(true);
      }
      if !opens {
        return Returned(false);
      }
      running := true;
      if !spawned {
        running := false;
        return Thrown("thread");
      }
      started := true;
      r := Returned(true);
    }

    method BeginRun(self: Thread)
      requires Valid() && started && workerId.None? && !exited
      modifies this
      ensures Valid() && Contents() == Step(exec, old(Contents()), Begin(self))
    {
      workerId := Some(self);
    }

    method SubmitTask(caller: Thread, task: T) returns (ticket: Outcome<nat>)
      requires Valid()
      modifies this
      ensures Valid() && Contents() == Step(exec, old(Contents()), Submit(caller, task))
      ensures ticket.Returned? <==> !Refuses(old(Contents()), caller)
      ensures ticket.Returned? ==> ticket.value == |old(accepted)|
    {
      if !running {
        return Thrown("DbWriteQueue not running");
      }
      if workerId == Some(caller) {
        return Thrown("DbWriteQueue::submit cannot be called from its worker thread");
      }
      ticket := Returned(count);
      queue := queue + [Ticket(count, task)];
      accepted := accepted + [task];
      count := count + 1;
    }

    /** One turn of the worker's loop with a task in the queue. */
    method TakeAndRun()
      requires Valid() && workerId.Some? && |queue| > 0
      modifies this
      ensures Valid() && Contents() == Step(exec, Step(exec, old(Contents()), Take), Finish)
    {
      var ticket := queue[0];
      queue := queue[1..];
      var r := exec(db, ticket.task);
      db, answers := r.0, answers[ticket.id := r.1];
    }

    /** The worker's loop from the moment the destructor has stopped the queue until it returns. */
    method DrainAndExit(ghost db0: D)
      requires Valid() && workerId.Some? && !running && Inv(exec, db0, Contents())
      modifies this
      ensures Valid() && exited && queue == [] && accepted == old(accepted)
      ensures db == Sequential(exec, db0, accepted)
      ensures forall i :: 0 <= i < |accepted| ==> i in answers && answers[i] == AnswerOf(exec, db0, accepted, i)
    {
      while |queue| > 0
        invariant Valid() && workerId.Some? && !running && accepted == old(accepted)
        invariant Inv(exec, db0, Contents())
      {
        StepKeeps(exec, db0, Contents(), Take);
        StepKeeps(exec, db0, Step(exec, Contents(), Take), Finish);
        TakeAndRun();
      }
      assert accepted[..|accepted|] == accepted;
      workerId, exited := None, true;
    }
  }
}
