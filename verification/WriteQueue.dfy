// The outgoing side of a connection: Session.cpp (closeAfterWrite) and TcpTransport.cpp
// (close), each as a step function over its handlers and as the class that performs them.

/** The write queue of Session.cpp; every handler runs on the connection's strand. */
module SessionWriteQueue {
  import opened Bytes
  import opened Framing

  /** `wire` is what completed writes have put on the socket, `inFlight` the number of
      writes handed to the socket and not completed. */
  datatype Writer = Writer(queue: seq<bytes>, wire: bytes, inFlight: nat,
                           closeAfterWrite: bool, closePosted: bool, open: bool)

  const Fresh := Writer([], [], 0, false, false, true)

  datatype Event = Enqueue(frame: bytes) | WriteDone | CloseAfterWrite | PostedClose

  function Step(w: Writer, e: Event): Writer {
    match e
    case Enqueue(frame) =>
      var q := w.queue + [frame];
      w.(queue := q, inFlight := if |q| == 1 then w.inFlight + 1 else w.inFlight)
    case WriteDone =>
      if !w.open || |w.queue| == 0 || w.inFlight == 0 then w
      else
        var q := w.queue[1..];
        w.(queue := q, wire := w.wire + w.queue[0],
           inFlight := if |q| > 0 then w.inFlight else w.inFlight - 1,
           closePosted := w.closePosted || (|q| == 0 && w.closeAfterWrite))
    case CloseAfterWrite =>
      w.(closeAfterWrite := true, closePosted := w.closePosted || |w.queue| == 0)
    case PostedClose =>
      if w.closePosted then w.(open := false) else w
  }

  function Run(events: seq<Event>): Writer {
    if |events| == 0 then Fresh else Step(Run(events[..|events| - 1]), events[|events| - 1])
  }

  function Enqueued(events: seq<Event>): seq<bytes> {
    if |events| == 0 then []
    else
      var before := Enqueued(events[..|events| - 1]);
      var e := events[|events| - 1];
      if e.Enqueue? then before + [e.frame] else before
  }

  /** What the whole run keeps: the wire and the queue are the enqueued frames in order. */
  ghost predicate Inv(w: Writer, all: seq<bytes>) {
    && |w.queue| <= |all|
    && w.queue == all[|all| - |w.queue|..]
    && w.wire == Concat(all[..|all| - |w.queue|])
    && w.inFlight == (if |w.queue| == 0 then 0 else 1)
  }

  lemma StepKeepsInv(w: Writer, all: seq<bytes>, e: Event)
    requires Inv(w, all)
    ensures Inv(Step(w, e), if e.Enqueue? then all + [e.frame] else all)
  {
    hide Concat;
    if e.Enqueue? {
      var all' := all + [e.frame];
      assert all'[..|all'| - |w.queue| - 1] == all[..|all| - |w.queue|];
    } else if e.WriteDone? && w.open && |w.queue| > 0 {
      var done := |all| - |w.queue|;
      assert w.queue[0] == all[done];
      assert all[..done + 1] == all[..done] + [all[done]];
      ConcatAppend(all[..done], all[done]);
    }
  }

  lemma {:induction false} RunKeepsInv(events: seq<Event>)
    ensures Inv(Run(events), Enqueued(events))
  {
    if |events| > 0 {
      RunKeepsInv(events[..|events| - 1]);
      StepKeepsInv(Run(events[..|events| - 1]), Enqueued(events[..|events| - 1]), events[|events| - 1]);
    } else {
      assert Concat([]) == [];
    }
  }

  /** In every run the bytes written, followed by those still queued, are the concatenation
      of the enqueued frames in order, and at most one write is in flight. */
  lemma WireIsInOrder(events: seq<Event>)
    ensures Run(events).wire + Concat(Run(events).queue) == Concat(Enqueued(events))
    ensures Run(events).inFlight <= 1
  {
    RunKeepsInv(events);
    var w, all := Run(events), Enqueued(events);
    var n := |all| - |w.queue|;
    ConcatSum(all[..n], all[n..]);
    assert all == all[..n] + all[n..];
  }

  /** The frames asked for before the first closeAfterWrite; empty promise if it never ran. */
  function Promised(events: seq<Event>): seq<bytes> {
    if |events| == 0 then []
    else if CloseAfterWrite in events[..|events| - 1] then Promised(events[..|events| - 1])
    else if events[|events| - 1].CloseAfterWrite? then Enqueued(events)
    else []
  }

  ghost predicate DrainInv(w: Writer, total: nat, promised: nat, asked: bool) {
    && w.closeAfterWrite == asked
    && promised <= total
    && |w.queue| <= total
    && w.inFlight == (if |w.queue| == 0 then 0 else 1)
    && (w.closePosted ==> asked && promised + |w.queue| <= total)
    && (!w.open ==> w.closePosted)
  }

  lemma DrainStepKeeps(w: Writer, total: nat, promised: nat, asked: bool, e: Event)
    requires DrainInv(w, total, promised, asked)
    ensures var total' := if e.Enqueue? then total + 1 else total;
            DrainInv(Step(w, e), total', if e.CloseAfterWrite? && !asked then total' else promised,
                     asked || e.CloseAfterWrite?)
  {
  }

  lemma {:induction false} RunKeepsDrainInv(events: seq<Event>)
    ensures Promised(events) <= Enqueued(events)
    ensures DrainInv(Run(events), |Enqueued(events)|, |Promised(events)|, CloseAfterWrite in events)
  {
    if |events| > 0 {
      var before, e := events[..|events| - 1], events[|events| - 1];
      RunKeepsDrainInv(before);
      PromisedNothing(before);
      DrainStepKeeps(Run(before), |Enqueued(before)|, |Promised(before)|, CloseAfterWrite in before, e);
      assert events == before + [e];
      hide Step, DrainInv;
    }
  }

  lemma {:induction false} PromisedNothing(events: seq<Event>)
    ensures CloseAfterWrite !in events ==> Promised(events) == []
  {
  }

  /** Drain before close: absent write errors and other closes, when the socket has been
      closed every frame enqueued before closeAfterWrite is on the wire, in order. */
  lemma DrainedBeforeClose(events: seq<Event>)
    requires !Run(events).open
    ensures CloseAfterWrite in events
    ensures Concat(Promised(events)) <= Run(events).wire
  {
    hide Step, Run, Enqueued, Promised;
    RunKeepsDrainInv(events);
    RunKeepsInv(events);
    var w, all, p := Run(events), Enqueued(events), |Promised(events)|;
    var done := all[..|all| - |w.queue|];
    ConcatSum(done[..p], done[p..]);
    assert done == done[..p] + done[p..] && done[..p] == Promised(events);
  }

  /** Once a close was asked for, an empty queue means that the close has been posted. */
  ghost predicate CloseIsDue(w: Writer) { w.closeAfterWrite && |w.queue| == 0 ==> w.closePosted }

  lemma {:induction false} RunKeepsDue(events: seq<Event>)
    ensures CloseIsDue(Run(events))
  {
    if |events| > 0 {
      RunKeepsDue(events[..|events| - 1]);
    }
  }

  function Drain(w: Writer, n: nat): Writer
    decreases n
  {
    if n == 0 then w else Drain(Step(w, WriteDone), n - 1)
  }

  lemma {:induction false} DrainPosts(w: Writer, all: seq<bytes>)
    requires Inv(w, all) && w.open && w.closeAfterWrite && CloseIsDue(w)
    ensures Drain(w, |w.queue|).queue == [] && Drain(w, |w.queue|).closePosted
    decreases |w.queue|
  {
    if |w.queue| > 0 {
      StepKeepsInv(w, all, WriteDone);
      DrainPosts(Step(w, WriteDone), all);
    }
  }

  /** Liveness: in every run in which closeAfterWrite has been called, completing the queued
      writes and running the posted close shuts the socket. */
  lemma DrainCloses(events: seq<Event>)
    requires CloseAfterWrite in events && Run(events).open
    ensures var w := Run(events); !Step(Drain(w, |w.queue|), PostedClose).open
  {
    RunKeepsInv(events);
    RunKeepsDue(events);
    RunKeepsDrainInv(events);
    DrainPosts(Run(events), Enqueued(events));
  }

  /** What the peer reads: the frames enqueued before closeAfterWrite come first. */
  lemma PeerReadsPromised(events: seq<Event>, frames: seq<Frame>)
    requires !Run(events).open
    requires forall f :: f in frames ==> f.kind < TWO32 && 4 + |f.payload| <= MAX_PACK_LEN
    requires Promised(events) == EncodeFrames(frames)
    ensures frames <= ReadFrames(Run(events).wire).items
  {
    DrainedBeforeClose(events);
    FrameStream(frames);
    var sent := Concat(EncodeFrames(frames));
    ReadingIsMonotone(sent, Run(events).wire[|sent|..]);
    assert Run(events).wire == sent + Run(events).wire[|sent|..];
  }

  class Session {
    var queue: seq<bytes>
    var wire: bytes
    var inFlight: nat
    var closeAfterWrite: bool
    var closePosted: bool
    var open: bool

    ghost function View(): Writer
      reads this
    {
      Writer(queue, wire, inFlight, closeAfterWrite, closePosted, open)
    }

    constructor ()
      ensures View() == Fresh
    {
      queue, wire, inFlight := [], [], 0;
      closeAfterWrite, closePosted, open := false, false, true;
    }

    method EnqueueRawFrame(kind: nat, payload: bytes)
      modifies this
      ensures View() == Step(old(View()), Enqueue(Encode(Frame(kind, payload))))
    {
      var buf := BigEndian32(4 + |payload|) + LittleEndian32(kind) + payload;
      assert buf == Encode(Frame(kind, payload));
      queue := queue + [buf];
      if |queue| == 1 {
        DoWrite();
      }
    }

    method DoWrite()
      modifies this`inFlight, this`closePosted
      ensures |queue| > 0 ==> inFlight == old(inFlight) + 1 && closePosted == old(closePosted)
      ensures |queue| == 0 ==> inFlight == old(inFlight) && closePosted == (old(closePosted) || closeAfterWrite)
    {
      if |queue| == 0 {
        if closeAfterWrite {
          Close();
        }
        return;
      }
      inFlight := inFlight + 1;
    }

    /** The completion handler of async_write without an error. */
    method OnWritten()
      requires open && |queue| > 0 && inFlight > 0
      modifies this
      ensures View() == Step(old(View()), WriteDone)
    {
      wire := wire + queue[0];
      inFlight := inFlight - 1;
      queue := queue[1..];
      if |queue| > 0 {
        DoWrite();
      } else if closeAfterWrite {
        Close();
      }
    }

    method Close()
      modifies this`closePosted
      ensures closePosted
    {
      closePosted := true;
    }

    method CloseAfterWriteTask()
      modifies this
      ensures View() == Step(old(View()), CloseAfterWrite)
    {
      closeAfterWrite := true;
      if |queue| == 0 {
        Close();
      }
    }

    method CloseTask()
      requires closePosted
      modifies this
      ensures View() == Step(old(View()), PostedClose)
    {
      open := false;
    }
  }
}

/** The client's transport: callers post tasks to the I/O thread, which runs them in order. */
module TcpTransport {
  import opened Bytes
  import opened Framing

  datatype Task = Send(buf: bytes) | Close

  datatype Transport = Transport(mailbox: seq<Task>, queue: seq<bytes>, wire: bytes, inFlight: nat,
                                 accepting: bool, closing: bool, socketOpen: bool)

  const Fresh := Transport([], [], [], 0, true, false, true)

  /** A send posts after its check of m_open, so it may land after a close was posted. */
  datatype Event = PostSend(data: bytes) | CallClose | RunTask | WriteDone

  predicate Sendable(data: bytes) { 0 < |data| <= MAX_PACK_LEN }

  function Step(t: Transport, e: Event): Transport {
    match e
    case PostSend(data) =>
      if Sendable(data) then t.(mailbox := t.mailbox + [Send(EncodeBody(data))]) else t
    case CallClose =>
      if t.accepting then t.(accepting := false, mailbox := t.mailbox + [Close]) else t
    case RunTask =>
      if |t.mailbox| == 0 then t else RunFirst(t.(mailbox := t.mailbox[1..]), t.mailbox[0])
    case WriteDone =>
      if !t.socketOpen || |t.queue| == 0 || t.inFlight == 0 then t
      else
        var q := t.queue[1..];
        t.(queue := q, wire := t.wire + t.queue[0],
           inFlight := if |q| > 0 then t.inFlight else t.inFlight - 1,
           socketOpen := !(|q| == 0 && t.closing))
  }

  function RunFirst(t: Transport, task: Task): Transport {
    match task
    case Send(buf) =>
      t.(queue := t.queue + [buf], inFlight := if |t.queue| == 0 then t.inFlight + 1 else t.inFlight)
    case Close =>
      if |t.queue| > 0 then t.(closing := true) else t.(socketOpen := false)
  }

  function Run(events: seq<Event>): Transport {
    if |events| == 0 then Fresh else Step(Run(events[..|events| - 1]), events[|events| - 1])
  }

  function NewPosted(posted: seq<bytes>, e: Event): seq<bytes> {
    if e.PostSend? && Sendable(e.data) then posted + [EncodeBody(e.data)] else posted
  }

  /** The bodies posted so far, in posting order. */
  function Posted(events: seq<Event>): seq<bytes> {
    if |events| == 0 then [] else NewPosted(Posted(events[..|events| - 1]), events[|events| - 1])
  }

  /** Those posted before close was called. */
  function PostedBeforeClose(events: seq<Event>): seq<bytes> {
    if |events| == 0 then []
    else if CallClose in events[..|events| - 1] then PostedBeforeClose(events[..|events| - 1])
    else Posted(events)
  }

  function Sends(mailbox: seq<Task>): seq<bytes> {
    if |mailbox| == 0 then []
    else if mailbox[0].Send? then [mailbox[0].buf] + Sends(mailbox[1..]) else Sends(mailbox[1..])
  }

  lemma {:induction false} SendsAppend(mailbox: seq<Task>, task: Task)
    ensures Sends(mailbox + [task]) == Sends(mailbox) + (if task.Send? then [task.buf] else [])
  {
    if |mailbox| == 0 {
      assert mailbox + [task] == [task];
    } else {
      assert (mailbox + [task])[1..] == mailbox[1..] + [task];
      SendsAppend(mailbox[1..], task);
    }
  }

  /** The sends still waiting ahead of the posted close, or all of them if none is posted. */
  function Ahead(mailbox: seq<Task>): seq<bytes> {
    if |mailbox| == 0 || mailbox[0].Close? then []
    else [mailbox[0].buf] + Ahead(mailbox[1..])
  }

  lemma {:induction false} AheadAppend(mailbox: seq<Task>, task: Task)
    ensures Close in mailbox ==> Ahead(mailbox + [task]) == Ahead(mailbox)
    ensures Close !in mailbox ==> Ahead(mailbox + [task]) == Sends(mailbox) + (if task.Send? then [task.buf] else [])
    ensures Close !in mailbox ==> Ahead(mailbox) == Sends(mailbox)
  {
    if |mailbox| > 0 {
      assert (mailbox + [task])[1..] == mailbox[1..] + [task];
      AheadAppend(mailbox[1..], task);
    } else {
      assert mailbox + [task] == [task];
    }
  }

  ghost predicate OrderInv(t: Transport, posted: seq<bytes>, written: seq<bytes>) {
    && written + t.queue + Sends(t.mailbox) == posted
    && t.wire == Concat(written)
    && t.inFlight == (if |t.queue| == 0 then 0 else 1)
  }

  function NewWritten(t: Transport, written: seq<bytes>, e: Event): seq<bytes> {
    if e.WriteDone? && t.socketOpen && |t.queue| > 0 && t.inFlight > 0 then written + [t.queue[0]] else written
  }

  function Written(events: seq<Event>): seq<bytes> {
    if |events| == 0 then []
    else NewWritten(Run(events[..|events| - 1]), Written(events[..|events| - 1]), events[|events| - 1])
  }

  lemma OrderTask(t: Transport, posted: seq<bytes>, written: seq<bytes>)
    requires OrderInv(t, posted, written)
    ensures OrderInv(Step(t, RunTask), posted, written)
  {
    hide Concat;
    if |t.mailbox| > 0 && t.mailbox[0].Send? {
      assert written + (t.queue + [t.mailbox[0].buf]) + Sends(t.mailbox[1..])
          == written + t.queue + ([t.mailbox[0].buf] + Sends(t.mailbox[1..]));
    }
  }

  lemma OrderWrite(t: Transport, posted: seq<bytes>, written: seq<bytes>)
    requires OrderInv(t, posted, written)
    ensures OrderInv(Step(t, WriteDone), posted, NewWritten(t, written, WriteDone))
  {
    hide Concat, Sends;
    if t.socketOpen && |t.queue| > 0 {
      ConcatAppend(written, t.queue[0]);
      assert t.queue == [t.queue[0]] + t.queue[1..];
      assert written + t.queue == (written + [t.queue[0]]) + t.queue[1..];
    }
  }

  lemma OrderStep(t: Transport, posted: seq<bytes>, written: seq<bytes>, e: Event)
    requires OrderInv(t, posted, written)
    ensures OrderInv(Step(t, e), NewPosted(posted, e), NewWritten(t, written, e))
  {
    hide Concat, Sends;
    match e
    case PostSend(data) => SendsAppend(t.mailbox, Send(EncodeBody(data)));
    case CallClose => SendsAppend(t.mailbox, Close);
    case RunTask => OrderTask(t, posted, written);
    case WriteDone => OrderWrite(t, posted, written);
  }

  lemma {:induction false} RunKeepsOrder(events: seq<Event>)
    ensures OrderInv(Run(events), Posted(events), Written(events))
  {
    if |events| == 0 {
      assert Concat([]) == [];
    } else {
      var before, e := events[..|events| - 1], events[|events| - 1];
      RunKeepsOrder(before);
      OrderStep(Run(before), Posted(before), Written(before), e);
    }
  }

  /** The bytes written, then those queued, then those posted are what was posted, in order. */
  lemma WireIsInOrder(events: seq<Event>)
    ensures var t := Run(events);
            t.wire + Concat(t.queue) + Concat(Sends(t.mailbox)) == Concat(Posted(events))
    ensures Run(events).inFlight <= 1
  {
    RunKeepsOrder(events);
    var t := Run(events);
    ConcatSum(Written(events), t.queue);
    ConcatSum(Written(events) + t.queue, Sends(t.mailbox));
  }

  /** The bodies that were sent, but for empty ones and those over ten megabytes, in order. */
  function Bodies(events: seq<Event>): seq<bytes> {
    if |events| == 0 then []
    else
      var e := events[|events| - 1];
      Bodies(events[..|events| - 1])
      + if e.PostSend? && 0 < |e.data| <= 10 * 1024 * 1024 then [e.data] else []
  }

  lemma {:induction false} PostedAreBodies(events: seq<Event>)
    ensures Posted(events) == EncodeBodies(Bodies(events))
    ensures forall b :: b in Bodies(events) ==> Legal(b, 1)
  {
    if |events| > 0 {
      PostedAreBodies(events[..|events| - 1]);
    }
  }

  /** The server, reading all that is written, queued and posted, gets exactly the bodies sent,
      each whole and in order. */
  lemma PeerReadsBodies(events: seq<Event>)
    ensures var t := Run(events);
            ReadBodies(t.wire + Concat(t.queue) + Concat(Sends(t.mailbox)), 1) == Reading(Bodies(events), [], false)
  {
    WireIsInOrder(events);
    PostedAreBodies(events);
    BodyStream(Bodies(events), 1);
    hide Run, Bodies, ReadBodies, Concat, Posted;
  }

  /** Where the posted close is, relative to what was posted before it. */
  ghost predicate CloseInv(t: Transport, asked: bool, due: seq<bytes>, posted: seq<bytes>, written: seq<bytes>) {
    var handed := written + t.queue;
    && t.accepting == !asked
    && AtMostOneClose(t.mailbox)
    && (t.accepting ==> Close !in t.mailbox && !t.closing && t.socketOpen && due == posted)
    && (Close in t.mailbox ==> !t.closing && t.socketOpen && handed + Ahead(t.mailbox) == due)
    && (t.closing || !t.socketOpen ==> Close !in t.mailbox && due <= handed)
    && (!t.accepting && Close !in t.mailbox ==> t.closing || !t.socketOpen)
    && (!t.socketOpen ==> due <= written)
    && (t.closing && t.socketOpen ==> |t.queue| > 0)
  }

  function NewDue(asked: bool, due: seq<bytes>, posted: seq<bytes>, e: Event): seq<bytes> {
    if asked then due else NewPosted(posted, e)
  }

  lemma PostStep(t: Transport, asked: bool, due: seq<bytes>, posted: seq<bytes>, written: seq<bytes>, e: Event)
    requires CloseInv(t, asked, due, posted, written) && OrderInv(t, posted, written)
    requires e.PostSend? || e.CallClose?
    ensures CloseInv(Step(t, e), asked || e.CallClose?, NewDue(asked, due, posted, e), NewPosted(posted, e), written)
  {
    AheadAppend(t.mailbox, if e.PostSend? then Send(EncodeBody(e.data)) else Close);
  }

  lemma TaskStep(t: Transport, asked: bool, due: seq<bytes>, posted: seq<bytes>, written: seq<bytes>)
    requires CloseInv(t, asked, due, posted, written) && OrderInv(t, posted, written)
    requires asked || due == posted
    ensures CloseInv(Step(t, RunTask), asked, due, posted, written)
  {
    if |t.mailbox| > 0 {
      var first, rest := t.mailbox[0], t.mailbox[1..];
      assert t.mailbox == [first] + rest;
      if first.Send? {
        assert written + (t.queue + [first.buf]) == written + t.queue + [first.buf];
        if Close in rest {
          assert written + (t.queue + [first.buf]) + Ahead(rest) == written + t.queue + Ahead(t.mailbox);
        }
      } else {
        assert Close !in rest;
        assert |t.queue| == 0 ==> written + t.queue == written;
      }
    }
  }

  lemma WriteStep(t: Transport, asked: bool, due: seq<bytes>, posted: seq<bytes>, written: seq<bytes>)
    requires CloseInv(t, asked, due, posted, written) && OrderInv(t, posted, written)
    ensures CloseInv(Step(t, WriteDone), asked, due, posted, NewWritten(t, written, WriteDone))
  {
    if t.socketOpen && |t.queue| > 0 {
      assert t.queue == [t.queue[0]] + t.queue[1..];
      assert written + t.queue == (written + [t.queue[0]]) + t.queue[1..];
      assert |t.queue| == 1 ==> written + t.queue == written + [t.queue[0]];
    }
  }

  lemma {:induction false} RunKeepsCloseInv(events: seq<Event>)
    ensures CloseInv(Run(events), CallClose in events, PostedBeforeClose(events), Posted(events), Written(events))
  {
    if |events| > 0 {
      var before, e := events[..|events| - 1], events[|events| - 1];
      RunKeepsCloseInv(before);
      RunKeepsOrder(before);
      assert events == before + [e];
      var t, asked, due, posted, written :=
        Run(before), CallClose in before, PostedBeforeClose(before), Posted(before), Written(before);
      match e
      case PostSend(_) => PostStep(t, asked, due, posted, written, e);
      case CallClose => PostStep(t, asked, due, posted, written, e);
      case RunTask => TaskStep(t, asked, due, posted, written);
      case WriteDone => WriteStep(t, asked, due, posted, written);
      assert PostedBeforeClose(events) == NewDue(asked, due, posted, e);
      hide Step, CloseInv, Run;
    }
  }

  predicate AtMostOneClose(mailbox: seq<Task>) {
    forall i, j :: 0 <= i < j < |mailbox| ==> !(mailbox[i].Close? && mailbox[j].Close?)
  }

  /** Drain before close: once the socket is closed, every body posted before close()
      was called is completely on the wire, in order. */
  lemma DrainedBeforeClose(events: seq<Event>)
    requires !Run(events).socketOpen
    ensures CallClose in events
    ensures Concat(PostedBeforeClose(events)) <= Run(events).wire
  {
    hide Step, Run, Posted, PostedBeforeClose, Written;
    RunKeepsCloseInv(events);
    RunKeepsOrder(events);
    var due, written := PostedBeforeClose(events), Written(events);
    ConcatSum(due, written[|due|..]);
    assert written == due + written[|due|..];
  }

  /** n times the same event. */
  function Repeat(e: Event, n: nat): seq<Event> { if n == 0 then [] else Repeat(e, n - 1) + [e] }

  lemma NoRepeat(e: Event)
    ensures Repeat(e, 0) == []
  {
  }

  lemma RepeatMore(events: seq<Event>, e: Event, n: nat)
    requires n > 0
    ensures Run(events + Repeat(e, n)) == Step(Run(events + Repeat(e, n - 1)), e)
  {
    assert events + Repeat(e, n) == (events + Repeat(e, n - 1)) + [e];
    assert ((events + Repeat(e, n - 1)) + [e])[..|events + Repeat(e, n - 1)|] == events + Repeat(e, n - 1);
  }

  lemma {:induction false} TasksRun(events: seq<Event>, n: nat)
    requires n <= |Run(events).mailbox|
    ensures var t, t' := Run(events), Run(events + Repeat(RunTask, n));
            t'.mailbox == t.mailbox[n..] && t'.accepting == t.accepting
  {
    if n == 0 {
      assert events + Repeat(RunTask, 0) == events;
    } else {
      TasksRun(events, n - 1);
      RepeatMore(events, RunTask, n);
      hide Run;
    }
  }

  lemma {:induction false} WritesClose(events: seq<Event>, n: nat)
    requires var t := Run(events); t.socketOpen && t.closing && n <= |t.queue| && |t.queue| > 0
    ensures var t, t' := Run(events), Run(events + Repeat(WriteDone, n));
            if n == |t.queue| then !t'.socketOpen else t'.socketOpen && t'.closing && t'.queue == t.queue[n..]
  {
    hide Run, Posted, Written, Repeat, Concat, Sends;
    if n == 0 {
      assert events + Repeat(WriteDone, 0) == events by { NoRepeat(WriteDone); }
    } else {
      WritesClose(events, n - 1);
      RepeatMore(events, WriteDone, n);
      RunKeepsOrder(events + Repeat(WriteDone, n - 1));
    }
  }

  /** Liveness: in every run in which close() has been called, running the posted tasks and
      completing the queued writes closes the socket. */
  lemma DrainCloses(events: seq<Event>)
    requires CallClose in events
    ensures var ran := events + Repeat(RunTask, |Run(events).mailbox|);
            !Run(ran + Repeat(WriteDone, |Run(ran).queue|)).socketOpen
  {
    var m := |Run(events).mailbox|;
    var ran := events + Repeat(RunTask, m);
    TasksRun(events, m);
    assert CallClose in ran;
    RunKeepsCloseInv(ran);
    var t := Run(ran);
    hide Run, Posted, PostedBeforeClose, Written;
    if t.socketOpen {
      WritesClose(ran, |t.queue|);
    } else {
      StaysClosed(ran, |t.queue|);
    }
  }

  lemma {:induction false} StaysClosed(events: seq<Event>, n: nat)
    requires !Run(events).socketOpen
    ensures !Run(events + Repeat(WriteDone, n)).socketOpen
  {
    if n == 0 {
      assert events + Repeat(WriteDone, 0) == events;
    } else {
      StaysClosed(events, n - 1);
      RepeatMore(events, WriteDone, n);
    }
  }

  class Client {
    var mailbox: seq<Task>
    var queue: seq<bytes>
    var wire: bytes
    var inFlight: nat
    var accepting: bool
    var closing: bool
    var socketOpen: bool

    ghost function View(): Transport
      reads this
    {
      Transport(mailbox, queue, wire, inFlight, accepting, closing, socketOpen)
    }

    constructor ()
      ensures View() == Fresh
    {
      mailbox, queue, wire, inFlight := [], [], [], 0;
      accepting, closing, socketOpen := true, false, true;
    }

    /** A closed transport, an empty body or one over the limit is dropped. */
    method SendBody(data: bytes)
      modifies this
      ensures View() == if old(accepting) then Step(old(View()), PostSend(data)) else old(View())
    {
      if !accepting || |data| == 0 || |data| > MAX_PACK_LEN {
        return;
      }
      var buf := BigEndian32(|data|) + data;
      mailbox := mailbox + [Send(buf)];
    }

    method CloseTransport()
      modifies this
      ensures View() == Step(old(View()), CallClose)
    {
      var wasOpen := accepting;
      accepting := false;
      if wasOpen {
        mailbox := mailbox + [Close];
      }
    }

    method RunOneTask()
      requires |mailbox| > 0
      modifies this
      ensures View() == Step(old(View()), RunTask)
    {
      var task := mailbox[0];
      mailbox := mailbox[1..];
      match task
      case Send(buf) =>
        var busy := |queue| > 0;
        queue := queue + [buf];
        if !busy {
          inFlight := inFlight + 1;
        }
      case Close =>
        if |queue| > 0 {
          closing := true;
          return;
        }
        socketOpen := false;
    }

    method OnWritten()
      requires socketOpen && |queue| > 0 && inFlight > 0
      modifies this
      ensures View() == Step(old(View()), WriteDone)
    {
      wire := wire + queue[0];
      inFlight := inFlight - 1;
      queue := queue[1..];
      if |queue| > 0 {
        inFlight := inFlight + 1;
      } else if closing {
        socketOpen := false;
      }
    }
  }
}
