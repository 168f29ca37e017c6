// One server connection over its whole life: Session.cpp as a step function over every
// event of the strand, and the class that performs them.

module SessionLife {
  import opened Options
  import opened Bytes
  import opened Framing
  import opened Channel
  import opened Handshake

  /** What a connection is run with: the ideal functions, the codecs and AES-GCM opening. */
  datatype Env = Env(c: Crypto, p: Codec, id: Identity, parseEnvelope: bytes -> Option<Envelope>, open: Opener)

  /** Deliver carries the ciphertext and tag AES-GCM gives if the frame is sealed. */
  datatype Event = TlsDone | Reads(frame: Frame, draw: Draw) | Deliver(frame: Frame, ciphertext: bytes, tag: bytes)
                 | Timeout | SocketClosed

  datatype Out = Nothing | Raw(frame: Frame) | Enciphered(sealing: Sealing) | HandedUp(frame: Frame)

  predicate IsHandshake(kind: nat) { APP_CLIENT_HELLO <= kind <= APP_SERVER_FINISHED }

  function WireOf(env: Env, f: Frame): Wire {
    if f.kind != APP_ENCRYPTED_FRAME then Clear(f.kind, f.payload)
    else
      match env.parseEnvelope(f.payload)
      case None => Garbled
      case Some(v) => Sealed(v)
  }

  /** onClosed: once; the counters and keys go, the prefixes and the session id stay. */
  function Wiped(st: ServerState): ServerState {
    if st.closedNotified then st
    else
      var k := st.secrets.keys;
      ServerState(Closed, Secrets(Keys(k.sessionId, [], [], k.clientPrefix, k.serverPrefix), [], [], []),
                  0, 0, st.tlsDone, true)
  }

  /** The TLS handler sets the state once, whatever happened before it. */
  function Step(env: Env, st: ServerState, ev: Event): (ServerState, Out)
    requires Sound(env.c)
  {
    match ev
    case TlsDone =>
      if st.tlsDone then (st, Nothing) else (st.(state := WaitClientHello, tlsDone := true), Nothing)
    case Reads(f, d) =>
      if st.state.Closed? then (st, Nothing)
      else if !st.state.Established? then
        var (st', reply) := OnHandshakeFrame(env.c, env.p, env.id, st, f, d);
        (st', if reply.Some? then Raw(reply.value) else Nothing)
      else
        var w := WireOf(env, f);
        var inner := Accept(ServerEnd(st), w, env.open);
        if inner.None? then (Fail(st), Nothing)
        else (st.(recvSeq := w.envelope.sequence), HandedUp(inner.value))
    case Deliver(f, c, t) =>
      if IsHandshake(f.kind) then (st, Raw(f))
      else if MaySeal(ServerEnd(st), f) then
        (st.(sendSeq := st.sendSeq + 1), Enciphered(SealingOf(ServerEnd(st), f, c, t)))
      else (Fail(st), Nothing)
    case Timeout => if st.state.Established? then (st, Nothing) else (Fail(st), Nothing)
    case SocketClosed => (Wiped(st), Nothing)
  }

  function Run(env: Env, events: seq<Event>): ServerState
    requires Sound(env.c)
  {
    if |events| == 0 then NewServer
    else Step(env, Run(env, events[..|events| - 1]), events[|events| - 1]).0
  }

  /** Everything enciphered so far, in order. */
  function Sealings(env: Env, events: seq<Event>): seq<Sealing>
    requires Sound(env.c)
  {
    if |events| == 0 then []
    else
      var out := Step(env, Run(env, events[..|events| - 1]), events[|events| - 1]).1;
      Sealings(env, events[..|events| - 1]) + (if out.Enciphered? then [out.sealing] else [])
  }

  /** The i-th sealing uses number i under one key and one prefix. */
  ghost predicate Numbered(out: seq<Sealing>, key: bytes, prefix: bytes) {
    forall i :: 0 <= i < |out| ==> out[i].key == key && out[i].nonce == Nonce(prefix, i + 1)
  }

  ghost predicate LifeInv(st: ServerState, out: seq<Sealing>) {
    && |out| < TWO64
    && (st.state.Established? ==>
          st.tlsDone && st.sendSeq == |out| && Numbered(out, st.secrets.keys.serverKey, st.secrets.keys.serverPrefix))
    && (!st.state.Established? && !st.state.Closed? ==> out == [] && st.sendSeq == 0)
    && (st.state.Closed? && (out != [] || st.sendSeq > 0) ==> st.tlsDone)
    && (st.state.Closed? ==> exists key, prefix :: Numbered(out, key, prefix))
    && (!st.state.Closed? ==> (st.tlsDone <==> !st.state.TlsHandshake?))
    && st.recvSeq < TWO64 && (st.recvSeq > 0 ==> st.tlsDone)
  }

  /** The server accepts only the number after the last, and only business types. */
  lemma AcceptedIsNext(env: Env, st: ServerState, f: Frame)
    requires st.recvSeq < TWO64
    ensures var w := WireOf(env, f);
            var inner := Accept(ServerEnd(st), w, env.open);
            inner.Some? ==> w.envelope.sequence == st.recvSeq + 1 < TWO64 && !IsControl(inner.value.kind)
  {
    hide Nonce, Aad, ReadLittleEndian32;
  }

  lemma StepKeeps(env: Env, st: ServerState, out: seq<Sealing>, ev: Event)
    requires Sound(env.c) && LifeInv(st, out)
    ensures var (st', o) := Step(env, st, ev);
            LifeInv(st', out + (if o.Enciphered? then [o.sealing] else []))
  {
    hide Nonce, Aad, Plain, Derive, FinishedInput, SigningTranscript, Accept;
    var (st', o) := Step(env, st, ev);
    var out' := out + (if o.Enciphered? then [o.sealing] else []);
    if st.state.Established? {
      if ev.Reads? {
        AcceptedIsNext(env, st, ev.frame);
      }
      assert Numbered(out, st.secrets.keys.serverKey, st.secrets.keys.serverPrefix);
      assert Numbered(out', st.secrets.keys.serverKey, st.secrets.keys.serverPrefix);
    } else {
      assert out' == out;
      assert out == [] ==> Numbered(out, [], []);
      assert out == [] ==> forall k, p :: Numbered(out, k, p);
    }
  }

  lemma {:induction false} RunKeeps(env: Env, events: seq<Event>)
    requires Sound(env.c)
    ensures LifeInv(Run(env, events), Sealings(env, events))
  {
    if |events| > 0 {
      RunKeeps(env, events[..|events| - 1]);
      StepKeeps(env, Run(env, events[..|events| - 1]), Sealings(env, events[..|events| - 1]), events[|events| - 1]);
    } else {
      assert Numbered([], [], []);
    }
  }

  /** Over a connection's whole life all sealing is under one key, and no nonce repeats. */
  lemma NoNonceTwice(env: Env, events: seq<Event>, i: nat, j: nat)
    requires Sound(env.c) && i < j < |Sealings(env, events)|
    ensures Sealings(env, events)[i].key == Sealings(env, events)[j].key
    ensures Sealings(env, events)[i].nonce != Sealings(env, events)[j].nonce
  {
    RunKeeps(env, events);
    NumberedApart(Run(env, events), Sealings(env, events), i, j);
  }

  lemma NumberedApart(st: ServerState, out: seq<Sealing>, i: nat, j: nat)
    requires LifeInv(st, out) && i < j < |out|
    ensures out[i].key == out[j].key && out[i].nonce != out[j].nonce
  {
    hide Nonce;
    assert exists key, prefix :: Numbered(out, key, prefix) by {
      if st.state.Established? {
        assert Numbered(out, st.secrets.keys.serverKey, st.secrets.keys.serverPrefix);
      }
    }
    var key, prefix :| Numbered(out, key, prefix);
    if out[i].nonce == out[j].nonce {
      NonceInjective(prefix, i + 1, prefix, j + 1);
    }
  }

  /** What leaves or is handed up, and in which states: nothing is enciphered or handed up
      unless the channel is established, each frame handed up moves the counter by one, and a
      reply in clear is the ServerHello or the ServerFinished, each from its own state. */
  lemma OutputsAreLicensed(env: Env, events: seq<Event>, ev: Event)
    requires Sound(env.c) && (ev.Deliver? ==> ev.frame.kind < TWO32)
    ensures var st := Run(env, events);
            var (st', o) := Step(env, st, ev);
            match o
            case Nothing => true
            case Raw(f) =>
              || (ev.Deliver? && f == ev.frame && IsHandshake(f.kind))
              || (ev.Reads? && st.state.WaitClientHello? && f.kind == APP_SERVER_HELLO && st'.state.WaitClientFinished?)
              || (ev.Reads? && st.state.WaitClientFinished? && f.kind == APP_SERVER_FINISHED && st'.state.Established?)
            case Enciphered(s) => st.state.Established? && !IsHandshake(ReadLittleEndian32(s.plaintext))
            case HandedUp(f) => st.state.Established? && !IsControl(f.kind) && st'.recvSeq == st.recvSeq + 1 < TWO64
  {
    RunKeeps(env, events);
    var st := Run(env, events);
    hide Nonce, Aad, Plain, Derive, FinishedInput, SigningTranscript, LittleEndian32, ReadLittleEndian32, Run, Sealings;
    hide Numbered, Accept, OnClientHello, OnClientFinished, WireOf, Wiped;
    if ev.Deliver? {
      PlainRoundTrip(ev.frame);
    } else if ev.Reads? && st.state.Established? {
      AcceptedIsNext(env, st, ev.frame);
    } else if ev.Reads? {
      RepliesInState(env, st, ev.frame, ev.draw);
    }
  }

  lemma RepliesInState(env: Env, st: ServerState, f: Frame, d: Draw)
    requires Sound(env.c)
    ensures var (st', reply) := OnHandshakeFrame(env.c, env.p, env.id, st, f, d);
            reply.Some? ==>
              || (st.state.WaitClientHello? && reply.value.kind == APP_SERVER_HELLO && st'.state.WaitClientFinished?)
              || (st.state.WaitClientFinished? && reply.value.kind == APP_SERVER_FINISHED && st'.state.Established?)
  {
    hide Derive, FinishedInput, SigningTranscript;
  }

  /** The counters fall only when the connection is over: the state is Closed for good. */
  lemma CounterResetsOnlyWhenClosed(env: Env, events: seq<Event>, ev: Event)
    requires Sound(env.c)
    ensures var (st, st') := (Run(env, events), Step(env, Run(env, events), ev).0);
            && (st'.sendSeq < st.sendSeq ==> st'.state.Closed? && st'.tlsDone)
            && (st'.recvSeq < st.recvSeq ==> st'.state.Closed? && st'.tlsDone)
            && (st.state.Closed? && st.tlsDone ==> st'.state.Closed? && st'.tlsDone)
  {
    RunKeeps(env, events);
    var st := Run(env, events);
    hide Nonce, Aad, Plain, Derive, FinishedInput, SigningTranscript, Run, Sealings, Numbered;
    hide Accept, WireOf, OnClientHello, OnClientFinished;
    if ev.Reads? {
      AcceptedIsNext(env, st, ev.frame);
      CountersStay(env, st, ev.frame, ev.draw);
    }
    hide OnHandshakeFrame;
  }

  lemma CountersStay(env: Env, st: ServerState, f: Frame, d: Draw)
    requires Sound(env.c)
    ensures var st' := OnHandshakeFrame(env.c, env.p, env.id, st, f, d).0;
            st'.sendSeq == st.sendSeq && st'.recvSeq == st.recvSeq && st'.tlsDone == st.tlsDone
  {
    hide Derive, FinishedInput, SigningTranscript;
  }

  /** The types that have left in clear, in order. */
  function InClear(env: Env, events: seq<Event>): seq<nat>
    requires Sound(env.c)
  {
    if |events| == 0 then []
    else
      var out := Step(env, Run(env, events[..|events| - 1]), events[|events| - 1]).1;
      InClear(env, events[..|events| - 1]) + (if out.Raw? then [out.frame.kind] else [])
  }

  ghost predicate ClearInv(st: ServerState, kinds: seq<nat>) {
    && (st.state.TlsHandshake? || st.state.WaitClientHello? || !st.tlsDone ==> kinds == [])
    && (st.state.WaitClientFinished? ==> kinds == [APP_SERVER_HELLO] && st.tlsDone)
    && (st.state.Established? ==> kinds == [APP_SERVER_HELLO, APP_SERVER_FINISHED] && st.tlsDone)
    && kinds <= [APP_SERVER_HELLO, APP_SERVER_FINISHED]
    && (st.state.WaitClientHello? ==> st.tlsDone)
  }

  lemma ClearStep(env: Env, st: ServerState, kinds: seq<nat>, ev: Event)
    requires Sound(env.c) && ClearInv(st, kinds) && (ev.Deliver? ==> !IsHandshake(ev.frame.kind))
    ensures var (st', o) := Step(env, st, ev);
            ClearInv(st', kinds + (if o.Raw? then [o.frame.kind] else []))
  {
    hide Nonce, Aad, Plain, Derive, FinishedInput, SigningTranscript, Accept;
    assert kinds + [] == kinds;
  }

  lemma {:induction false} ClearKeeps(env: Env, events: seq<Event>)
    requires Sound(env.c) && forall ev :: ev in events && ev.Deliver? ==> !IsHandshake(ev.frame.kind)
    ensures ClearInv(Run(env, events), InClear(env, events))
  {
    if |events| > 0 {
      ClearKeeps(env, events[..|events| - 1]);
      assert events[|events| - 1] in events;
      ClearStep(env, Run(env, events[..|events| - 1]), InClear(env, events[..|events| - 1]), events[|events| - 1]);
    }
  }

  /** The rest of a connection's life, from any point of it. */
  function RunFrom(env: Env, st: ServerState, events: seq<Event>): ServerState
    requires Sound(env.c)
  {
    if |events| == 0 then st
    else Step(env, RunFrom(env, st, events[..|events| - 1]), events[|events| - 1]).0
  }

  /** Nothing is left that could decrypt or authenticate anything. */
  predicate KeyFree(s: Secrets) {
    && s.keys.clientKey == [] && s.keys.serverKey == []
    && s.clientFinished == [] && s.serverFinished == [] && s.transcript == []
  }

  /** Closed for good: the TLS handler will not run any more. */
  predicate Over(st: ServerState) { st.state.Closed? && st.tlsDone }

  lemma OverStep(env: Env, st: ServerState, ev: Event)
    requires Sound(env.c) && Over(st)
    ensures var (st', o) := Step(env, st, ev);
            && Over(st') && (KeyFree(st.secrets) ==> KeyFree(st'.secrets))
            && st'.sendSeq <= st.sendSeq && st'.recvSeq <= st.recvSeq
            && (o == Nothing || (ev.Deliver? && IsHandshake(ev.frame.kind) && o == Raw(ev.frame)))
  {
    hide Nonce, Aad, Plain, OnHandshakeFrame, Accept, WireOf;
  }

  lemma {:induction false} OverStays(env: Env, st: ServerState, more: seq<Event>)
    requires Sound(env.c) && Over(st)
    ensures var end := RunFrom(env, st, more);
            && Over(end) && (KeyFree(st.secrets) ==> KeyFree(end.secrets))
            && end.sendSeq <= st.sendSeq && end.recvSeq <= st.recvSeq
  {
    if |more| > 0 {
      OverStays(env, st, more[..|more| - 1]);
      OverStep(env, RunFrom(env, st, more[..|more| - 1]), more[|more| - 1]);
    }
  }

  /** Before TLS completes there are no keys to wipe. */
  lemma {:induction false} NoKeysBeforeTls(env: Env, events: seq<Event>)
    requires Sound(env.c)
    ensures var st := Run(env, events);
            !st.tlsDone ==> KeyFree(st.secrets) && (st.state.TlsHandshake? || st.state.Closed?)
  {
    if |events| > 0 {
      var before, ev := events[..|events| - 1], events[|events| - 1];
      NoKeysBeforeTls(env, before);
      assert Run(env, events) == Step(env, Run(env, before), ev).0;
      hide Run, Step, KeyFree;
      StepBeforeTls(env, Run(env, before), ev);
    }
  }

  lemma StepBeforeTls(env: Env, st: ServerState, ev: Event)
    requires Sound(env.c) && (!st.tlsDone ==> KeyFree(st.secrets) && (st.state.TlsHandshake? || st.state.Closed?))
    ensures var st' := Step(env, st, ev).0;
            !st'.tlsDone ==> KeyFree(st'.secrets) && (st'.state.TlsHandshake? || st'.state.Closed?)
  {
    hide Accept, WireOf, Nonce, Aad, Plain, OnClientHello, OnClientFinished;
    if ev.Reads? {
      CountersStay(env, st, ev.frame, ev.draw);
    }
  }

  /** When the socket of a connection that has got through TLS closes, its keys, Finished keys,
      transcript and counters are gone, and stay so whatever happens afterwards. */
  lemma ClosingWipes(env: Env, events: seq<Event>, more: seq<Event>)
    requires Sound(env.c) && Run(env, events).tlsDone && !Run(env, events).closedNotified
    ensures var end := RunFrom(env, Step(env, Run(env, events), SocketClosed).0, more);
            && end.state.Closed? && end.sendSeq == 0 && end.recvSeq == 0
            && end.secrets.keys.clientKey == [] && end.secrets.keys.serverKey == []
            && end.secrets.clientFinished == [] && end.secrets.serverFinished == [] && end.secrets.transcript == []
  {
    OverStays(env, Step(env, Run(env, events), SocketClosed).0, more);
    hide Run, RunFrom;
  }

  /** A timeout ends a handshake that is still open, and only such a one: afterwards nothing is
      ever established, enciphered or handed up. An established channel does not notice it. */
  lemma TimeoutEndsOpenHandshake(env: Env, events: seq<Event>, more: seq<Event>, ev: Event)
    requires Sound(env.c) && Run(env, events).tlsDone
    ensures var st := Run(env, events);
            var st' := Step(env, st, Timeout).0;
            if st.state.Established? then st' == st
            else
              var end := RunFrom(env, st', more);
              && end.state.Closed?
              && !Step(env, end, ev).1.Enciphered? && !Step(env, end, ev).1.HandedUp?
  {
    var st := Run(env, events);
    if !st.state.Established? {
      var st' := Step(env, st, Timeout).0;
      OverStays(env, st', more);
      OverStep(env, RunFrom(env, st', more), ev);
      hide Run, RunFrom, Step;
    }
  }

  /** A frame that is refused, because it is no valid handshake message in this state or, once
      established, does not open as the next one, is the last: nothing is handed up, enciphered
      or answered any more. */
  lemma RefusedIsFinal(env: Env, events: seq<Event>, f: Frame, d: Draw, more: seq<Event>, ev: Event)
    requires Sound(env.c) && Run(env, events).tlsDone && Step(env, Run(env, events), Reads(f, d)).1 == Nothing
    ensures var end := RunFrom(env, Step(env, Run(env, events), Reads(f, d)).0, more);
            && end.state.Closed?
            && (Step(env, end, ev).1 == Nothing
                || (ev.Deliver? && IsHandshake(ev.frame.kind) && Step(env, end, ev).1 == Raw(ev.frame)))
  {
    var st := Run(env, events);
    var st' := Step(env, st, Reads(f, d)).0;
    ServerAnswersExactlyWhen(env.c, env.p, env.id, st, f, d);
    assert Over(st') by { hide OnHandshakeFrame, Accept, WireOf, RunFrom; }
    hide Run, Step, RunFrom;
    OverStays(env, st', more);
    OverStep(env, RunFrom(env, st', more), ev);
  }

  /** As long as no handler is asked to deliver a handshake type itself, all a connection ever
      sends in clear is one ServerHello and then one ServerFinished. */
  lemma OnlyTheHandshakeInClear(env: Env, events: seq<Event>)
    requires Sound(env.c) && forall ev :: ev in events && ev.Deliver? ==> !IsHandshake(ev.frame.kind)
    ensures InClear(env, events) <= [APP_SERVER_HELLO, APP_SERVER_FINISHED]
    ensures Run(env, events).state.Established? ==> InClear(env, events) == [APP_SERVER_HELLO, APP_SERVER_FINISHED]
  {
    ClearKeeps(env, events);
  }
}

module SessionCpp {
  import opened Options
  import opened Bytes
  import opened Framing
  import opened Channel
  import opened Handshake
  import opened SessionLife

  type Sealer = (bytes, bytes, bytes, bytes) -> (bytes, bytes)

  class Session {
    const env: Env
    var securityState: SecurityState
    var transcriptHash: bytes
    var clientFinishedKey: bytes
    var serverFinishedKey: bytes
    var clientToServerKey: bytes
    var serverToClientKey: bytes
    var clientNoncePrefix: bytes
    var serverNoncePrefix: bytes
    var appSessionId: bytes
    var sendSequence: nat
    var receiveSequence: nat
    var tlsDone: bool
    var closedNotified: bool

    ghost function View(): ServerState
      reads this
    {
      ServerState(securityState,
                  Secrets(Keys(appSessionId, clientToServerKey, serverToClientKey,
                               clientNoncePrefix, serverNoncePrefix),
                          clientFinishedKey, serverFinishedKey, transcriptHash),
                  sendSequence, receiveSequence, tlsDone, closedNotified)
    }

    constructor (e: Env)
      ensures env == e && View() == NewServer
    {
      env := e;
      securityState := TlsHandshake;
      transcriptHash, clientFinishedKey, serverFinishedKey := [], [], [];
      clientToServerKey, serverToClientKey, clientNoncePrefix, serverNoncePrefix, appSessionId := [], [], [], [], [];
      sendSequence, receiveSequence := 0, 0;
      tlsDone, closedNotified := false, false;
    }

    method OnTlsDone()
      requires Sound(env.c) && !tlsDone
      modifies this
      ensures View() == Step(env, old(View()), TlsDone).0
    {
      securityState := WaitClientHello;
      tlsDone := true;
    }

    method FailApplicationHandshake()
      modifies this`securityState
      ensures View() == Fail(old(View()))
    {
      if securityState == Closed {
        return;
      }
      securityState := Closed;
    }

    method OnTimeout()
      requires Sound(env.c)
      modifies this
      ensures View() == Step(env, old(View()), Timeout).0
    {
      if securityState != Established {
        FailApplicationHandshake();
      }
    }

    method OnClosed()
      modifies this
      ensures View() == Wiped(old(View()))
    {
      if closedNotified {
        return;
      }
      closedNotified := true;
      securityState := Closed;
      ClearKeys();
      sendSequence := 0;
      receiveSequence := 0;
    }

    /** secureClear of the four keys and of the transcript hash. */
    method ClearKeys()
      modifies this
      ensures View() == old(View()).(secrets := Secrets(Keys(old(appSessionId), [], [], old(clientNoncePrefix),
              old(serverNoncePrefix)), [], [], []))
    {
      clientFinishedKey, serverFinishedKey := [], [];
      clientToServerKey, serverToClientKey := [], [];
      transcriptHash := [];
    }

    /** deliver: the frame that is enqueued on the wire, as a raw frame or as an envelope. */
    method Deliver(f: Frame, seal: Sealer)
      returns (raw: Option<Frame>, sealed: Option<Envelope>, ghost c: bytes, ghost t: bytes)
      requires Sound(env.c)
      modifies this
      ensures View() == Step(env, old(View()), SessionLife.Deliver(f, c, t)).0
      ensures match Step(env, old(View()), SessionLife.Deliver(f, c, t)).1
              case Raw(g) => raw == Some(g) && sealed.None?
              case Enciphered(s) => raw.None? && sealed == Some(EnvelopeOf(ServerEnd(old(View())), s))
                                    && (c, t) == seal(s.key, s.nonce, s.plaintext, s.aad)
              case _ => raw.None? && sealed.None?
    {
      raw, sealed := None, None;
      c, t := [], [];
      var handshakeType := APP_CLIENT_HELLO <= f.kind <= APP_SERVER_FINISHED;
      if handshakeType {
        raw := Some(f);
        return;
      }
      if securityState != Established || sendSequence >= TWO64 - 1 {
        FailApplicationHandshake();
        return;
      }
      var v: Envelope;
      v, c, t := EncryptBusinessFrame(f, seal);
      sealed := Some(v);
    }

    method EncryptBusinessFrame(f: Frame, seal: Sealer) returns (v: Envelope, ghost c: bytes, ghost t: bytes)
      requires securityState == Established && sendSequence < TWO64 - 1
      modifies this`sendSequence
      ensures View() == old(View()).(sendSeq := old(sendSequence) + 1)
      ensures var s := SealingOf(ServerEnd(old(View())), f, c, t);
              v == EnvelopeOf(ServerEnd(old(View())), s) && (c, t) == seal(s.key, s.nonce, s.plaintext, s.aad)
    {
      sendSequence := sendSequence + 1;
      var sequence := sendSequence;
      var plaintext := LittleEndian32(f.kind) + f.payload;
      var nonce := serverNoncePrefix + BigEndian64(sequence);
      var aad := Aad(appSessionId, sequence);
      var (ciphertext, tag) := seal(serverToClientKey, nonce, plaintext, aad);
      c, t := ciphertext, tag;
      v := Envelope(APP_SECURITY_VERSION, appSessionId, sequence, ciphertext, tag);
    }

    /** doReadBody: the reply to enqueue, or the business frame to dispatch. */
    method OnFrame(f: Frame, d: Draw) returns (reply: Option<Frame>, up: Option<Frame>)
      requires Sound(env.c) && securityState != Closed
      modifies this
      ensures View() == Step(env, old(View()), Reads(f, d)).0
      ensures match Step(env, old(View()), Reads(f, d)).1
              case Raw(g) => reply == Some(g) && up.None?
              case HandedUp(g) => reply.None? && up == Some(g)
              case _ => reply.None? && up.None?
    {
      reply, up := None, None;
      if securityState != Established {
        reply := HandleApplicationHandshake(f, d);
      } else if f.kind != APP_ENCRYPTED_FRAME {
        FailApplicationHandshake();
      } else {
        up := HandleEncryptedFrame(f.payload);
      }
    }

    method HandleApplicationHandshake(f: Frame, d: Draw) returns (reply: Option<Frame>)
      requires Sound(env.c)
      modifies this
      ensures (View(), reply) == OnHandshakeFrame(env.c, env.p, env.id, old(View()), f, d)
    {
      reply := None;
      if |f.payload| > MAX_HANDSHAKE {
        FailApplicationHandshake();
        return;
      }
      if securityState == WaitClientHello && f.kind == APP_CLIENT_HELLO {
        var r := HandleClientHello(f.payload, d);
        return if r.Some? then Some(Frame(APP_SERVER_HELLO, r.value)) else None;
      }
      if securityState == WaitClientFinished && f.kind == APP_CLIENT_FINISHED {
        var r := HandleClientFinished(f.payload);
        return if r.Some? then Some(Frame(APP_SERVER_FINISHED, r.value)) else None;
      }
      FailApplicationHandshake();
    }

    method HandleClientHello(payload: bytes, d: Draw) returns (reply: Option<bytes>)
      requires Sound(env.c)
      modifies this
      ensures (View(), reply) == OnClientHello(env.c, env.p, env.id, old(View()), payload, d)
    {
      hide SigningTranscript, FinishedInput, Derive, ServerHelloFor;
      reply := None;
      var parsed := env.p.parseClient(payload);
      if parsed.None? {
        FailApplicationHandshake();
        return;
      }
      var hello := parsed.value;
      if hello.version != APP_SECURITY_VERSION || hello.suite != SUITE || |hello.publicKey| != 32
         || |hello.nonce| != 32 || |hello.randomId| != 16 {
        FailApplicationHandshake();
        return;
      }
      var response := ServerHelloFor(env.c, env.id, payload, d);
      var serverPayload := env.p.encodeServer(response);
      var agreed := env.c.agree(d.privateKey, hello.publicKey);
      if agreed.None? {
        FailApplicationHandshake();
        return;
      }
      DeriveKeys(hello.nonce, agreed.value, payload, serverPayload, d);
      reply := Some(serverPayload);
    }

    method DeriveKeys(clientNonce: bytes, secret: bytes, payload: bytes, serverPayload: bytes, d: Draw)
      requires Sound(env.c)
      modifies this
      ensures var transcript := env.c.hash(FinishedInput(payload, serverPayload));
              View() == old(View()).(state := WaitClientFinished,
                                     secrets := Derive(env.c, secret, clientNonce, d.nonce, d.sessionId, transcript))
    {
      hide FinishedInput, Cut;
      appSessionId := d.sessionId;
      transcriptHash := env.c.hash(FinishedInput(payload, serverPayload));
      var salt := env.c.hash(clientNonce + d.nonce);
      var info := CHANNEL_LABEL + appSessionId + transcriptHash;
      var material := env.c.hkdf(secret, salt, info);
      CutMaterial(material);
      securityState := WaitClientFinished;
    }

    method CutMaterial(material: bytes)
      requires |material| == 136
      modifies this
      ensures View() == old(View()).(secrets := Cut(material, appSessionId, transcriptHash))
      ensures unchanged(`appSessionId, `transcriptHash)
    {
      clientToServerKey := Slice(material, 0, 32);
      serverToClientKey := Slice(material, 32, 32);
      clientNoncePrefix := Slice(material, 64, 4);
      serverNoncePrefix := Slice(material, 68, 4);
      clientFinishedKey := Slice(material, 72, 32);
      serverFinishedKey := Slice(material, 104, 32);
    }

    function Slice(input: bytes, offset: nat, size: nat): bytes
      requires offset + size <= |input|
    {
      input[offset..offset + size]
    }

    method HandleClientFinished(payload: bytes) returns (reply: Option<bytes>)
      modifies this
      ensures (View(), reply) == OnClientFinished(env.c, env.p, old(View()), payload)
    {
      reply := None;
      var parsed := env.p.parseFinished(payload);
      if parsed.None? || |parsed.value| != 32 {
        FailApplicationHandshake();
        return;
      }
      var actual := parsed.value;
      var expected := env.c.hmac(clientFinishedKey, transcriptHash);
      if actual != expected {
        FailApplicationHandshake();
        return;
      }
      var serverVerify := env.c.hmac(serverFinishedKey, transcriptHash + actual);
      securityState := Established;
      reply := Some(env.p.encodeFinished(serverVerify));
    }

    method HandleEncryptedFrame(payload: bytes) returns (up: Option<Frame>)
      requires Sound(env.c) && securityState == Established
      modifies this
      ensures up == Accept(ServerEnd(old(View())), WireOf(env, Frame(APP_ENCRYPTED_FRAME, payload)), env.open)
      ensures View() == match up
                        case None => Fail(old(View()))
                        case Some(_) => old(View()).(recvSeq := env.parseEnvelope(payload).value.sequence)
    {
      up := None;
      var parsed := env.parseEnvelope(payload);
      if parsed.None? {
        FailApplicationHandshake();
        return;
      }
      var v := parsed.value;
      if v.version != APP_SECURITY_VERSION || v.sessionId != appSessionId || |v.tag| != APP_GCM_TAG_LEN
         || |v.ciphertext| < 4 || v.sequence == 0 || v.sequence != (receiveSequence + 1) % TWO64 {
        FailApplicationHandshake();
        return;
      }
      var nonce := clientNoncePrefix + BigEndian64(v.sequence);
      var aad := Aad(appSessionId, v.sequence);
      var plaintext := env.open(clientToServerKey, nonce, v.ciphertext, aad, v.tag);
      if plaintext.None? || |plaintext.value| < 4 {
        FailApplicationHandshake();
        return;
      }
      var innerType := ReadLittleEndian32(plaintext.value);
      if APP_CLIENT_HELLO <= innerType <= APP_ENCRYPTED_FRAME {
        FailApplicationHandshake();
        return;
      }
      receiveSequence := v.sequence;
      up := Some(Frame(innerType, plaintext.value[4..]));
    }
  }

  /** SecureChannel.establish: the client's half, with the two frames the server answers. */
  method Establish(c: Crypto, p: Codec, privateKey: bytes, nonce: bytes, randomId: bytes,
                   first: Option<Frame>, second: Option<Frame>)
    returns (clientHello: bytes, clientFinished: Option<bytes>, keys: Option<Keys>)
    requires Sound(c)
    ensures var hello := HelloOf(c, privateKey, nonce, randomId);
            && clientHello == p.encodeClient(hello)
            && var w := if first.None? then None else OnServerHello(c, p, privateKey, hello, first.value);
            && clientFinished == (if w.None? then None else Some(p.encodeFinished(w.value.verify)))
            && keys == (if w.None? || second.None? then None else OnServerFinished(c, p, w.value, second.value))
  {
    hide SigningTranscript, FinishedInput;
    clientFinished, keys := None, None;
    clientHello := p.encodeClient(ClientHello(APP_SECURITY_VERSION, c.publicOf(privateKey), nonce, randomId, SUITE));
    if first.None? || first.value.kind != APP_SERVER_HELLO || |first.value.payload| > MAX_HANDSHAKE {
      return;
    }
    var parsed := p.parseServer(first.value.payload);
    if parsed.None? {
      return;
    }
    var h := parsed.value;
    if h.version != APP_SECURITY_VERSION || h.suite != SUITE || |h.publicKey| != 32 || |h.nonce| != 32
       || |h.sessionId| != 16 || |h.signature| != 64 || h.keyId == 0 {
      return;
    }
    var identity := c.pin(h.keyId);
    if identity.None? || !c.verify(identity.value, SigningTranscript(clientHello, h), h.signature) {
      return;
    }
    var transcriptHash := c.hash(FinishedInput(clientHello, first.value.payload));
    var agreed := c.agree(privateKey, h.publicKey);
    if agreed.None? {
      return;
    }
    var salt := c.hash(nonce + h.nonce);
    var material := c.hkdf(agreed.value, salt, CHANNEL_LABEL + h.sessionId + transcriptHash);
    var c2s := material[0..32];
    var s2c := material[32..64];
    var cNonce := material[64..68];
    var sNonce := material[68..72];
    var clientFinishedKey := material[72..104];
    var serverFinishedKey := material[104..136];
    var clientVerify := c.hmac(clientFinishedKey, transcriptHash);
    clientFinished := Some(p.encodeFinished(clientVerify));
    if second.None? || second.value.kind != APP_SERVER_FINISHED || |second.value.payload| > MAX_HANDSHAKE {
      return;
    }
    var last := p.parseFinished(second.value.payload);
    if last.None? || |last.value| != 32 {
      return;
    }
    if c.hmac(serverFinishedKey, transcriptHash + clientVerify) != last.value {
      return;
    }
    keys := Some(Keys(h.sessionId, c2s, s2c, cNonce, sNonce));
  }
}
