// The protection of business frames after the handshake: Session.cpp on the server,
// SecureChannel.kt on the client, and the whole system over an arbitrary network.

/** What both programs compute to seal and to accept one frame. */
module Channel {
  import opened Options
  import opened Bytes
  import opened Framing

  const APP_CLIENT_HELLO: nat := 1036
  const APP_SERVER_FINISHED: nat := 1039
  const APP_ENCRYPTED_FRAME: nat := 1040
  const APP_SECURITY_VERSION: nat := 1
  const APP_GCM_TAG_LEN: nat := 16

  predicate IsControl(kind: nat) { APP_CLIENT_HELLO <= kind <= APP_ENCRYPTED_FRAME }

  /** AppEncryptedFrame. */
  datatype Envelope = Envelope(version: nat, sessionId: bytes, sequence: nat, ciphertext: bytes, tag: bytes)

  /** A frame on the wire: protobuf is an opaque round-tripping pair, so an encrypted frame
      is its envelope, or nothing when its payload does not parse. */
  datatype Wire = Clear(kind: nat, payload: bytes) | Sealed(envelope: Envelope) | Garbled

  datatype Role = Server | Client

  datatype Keys = Keys(sessionId: bytes, clientKey: bytes, serverKey: bytes,
                       clientPrefix: bytes, serverPrefix: bytes)

  function Key(k: Keys, sender: Role): bytes { if sender.Client? then k.clientKey else k.serverKey }

  function Prefix(k: Keys, sender: Role): bytes { if sender.Client? then k.clientPrefix else k.serverPrefix }

  function Other(r: Role): Role { if r.Client? then Server else Client }

  datatype End = End(role: Role, established: bool, keys: Keys, sendSeq: nat, recvSeq: nat)

  /** frameNonce. */
  function Nonce(prefix: bytes, sequence: nat): bytes { prefix + BigEndian64(sequence) }

  const FRAME_LABEL: bytes := [
    106, 105, 116, 111, 110, 103, 45, 97, 112, 112, 45, 102, 114, 97, 109, 101, 45, 118, 49]

  /** frameAad: "jitong-app-frame-v1", the version, the session and the sequence number. */
  function Aad(sessionId: bytes, sequence: nat): bytes {
    FRAME_LABEL + BigEndian32(APP_SECURITY_VERSION) + sessionId + BigEndian64(sequence)
  }

  function Plain(f: Frame): bytes { LittleEndian32(f.kind) + f.payload }

  /** The counter is a 64-bit unsigned number in C++ and a signed one in Kotlin. */
  function SendLimit(r: Role): nat { if r.Server? then TWO64 - 1 else 0x7FFF_FFFF_FFFF_FFFF }

  /** One use of AES-256-GCM for sealing. */
  datatype Sealing = Sealing(key: bytes, nonce: bytes, aad: bytes, plaintext: bytes,
                             ciphertext: bytes, tag: bytes)

  /** Sealing throws on an exhausted counter, and in Kotlin on a control type. */
  predicate MaySeal(e: End, f: Frame) {
    && e.established
    && e.sendSeq < SendLimit(e.role)
    && (e.role.Client? ==> !IsControl(f.kind))
  }

  function SealingOf(e: End, f: Frame, ciphertext: bytes, tag: bytes): Sealing {
    var n := e.sendSeq + 1;
    Sealing(Key(e.keys, e.role), Nonce(Prefix(e.keys, e.role), n), Aad(e.keys.sessionId, n), Plain(f), ciphertext, tag)
  }

  function EnvelopeOf(e: End, s: Sealing): Envelope {
    Envelope(APP_SECURITY_VERSION, e.keys.sessionId, e.sendSeq + 1, s.ciphertext, s.tag)
  }

  /** The sequence number of an envelope as the receiver's arithmetic sees it. */
  predicate IsNext(e: End, sequence: nat) {
    match e.role
    case Server => sequence != 0 && sequence == (e.recvSeq + 1) % TWO64
    case Client => 0 < sequence <= 0x7FFF_FFFF_FFFF_FFFF && sequence == e.recvSeq + 1
  }

  /** The checks before decryption. */
  predicate WellFormed(e: End, w: Wire) {
    && w.Sealed?
    && w.envelope.version == APP_SECURITY_VERSION
    && w.envelope.sessionId == e.keys.sessionId
    && |w.envelope.tag| == APP_GCM_TAG_LEN
    && |w.envelope.ciphertext| >= 4
    && IsNext(e, w.envelope.sequence)
  }

  type Opener = (bytes, bytes, bytes, bytes, bytes) -> Option<bytes>

  /** handleEncryptedFrame and decrypt: the business frame handed up, if there is one. */
  function Accept(e: End, w: Wire, open: Opener): Option<Frame> {
    if !e.established || !WellFormed(e, w) then None
    else
      var v, sender := w.envelope, Other(e.role);
      match open(Key(e.keys, sender), Nonce(Prefix(e.keys, sender), v.sequence), v.ciphertext,
                 Aad(e.keys.sessionId, v.sequence), v.tag)
      case None => None
      case Some(p) =>
        if |p| < 4 || IsControl(ReadLittleEndian32(p)) then None
        else Some(Frame(ReadLittleEndian32(p), p[4..]))
  }

  /** The receiver's state afterwards: the counter moves, or the connection is closed. */
  function Received(e: End, w: Wire, open: Opener): End {
    if Accept(e, w, open).Some? then e.(recvSeq := w.envelope.sequence) else e.(established := false)
  }

  lemma PlainRoundTrip(f: Frame)
    requires f.kind < TWO32
    ensures |Plain(f)| >= 4
    ensures ReadLittleEndian32(Plain(f)) == f.kind && Plain(f)[4..] == f.payload
  {
    hide LittleEndian32, ReadLittleEndian32;
    LittleEndian32RoundTrip(f.kind);
    KindStays(LittleEndian32(f.kind), f.payload);
  }

  /** Under one prefix the nonce determines the sequence number, under two it differs. */
  lemma NonceInjective(p: bytes, m: nat, q: bytes, n: nat)
    requires |p| == |q| && m < TWO64 && n < TWO64 && Nonce(p, m) == Nonce(q, n)
    ensures p == q && m == n
  {
    hide BigEndian64;
    SplitEqual(p, BigEndian64(m), q, BigEndian64(n));
    BigEndian64Injective(m, n);
  }

  /** The additional data bind the session and the sequence number. */
  lemma AadInjective(a: bytes, m: nat, b: bytes, n: nat)
    requires m < TWO64 && n < TWO64 && Aad(a, m) == Aad(b, n)
    ensures a == b && m == n
  {
    hide BigEndian64;
    var head := FRAME_LABEL + BigEndian32(APP_SECURITY_VERSION);
    assert Aad(a, m) == head + (a + BigEndian64(m)) && Aad(b, n) == head + (b + BigEndian64(n));
    SplitEqual(head, a + BigEndian64(m), head, b + BigEndian64(n));
    SplitEqual(a, BigEndian64(m), b, BigEndian64(n));
    BigEndian64Injective(m, n);
  }

  /** Exactly when a frame is handed up: it is an envelope of this version and session with the
      next number, a 16-byte tag and room for a type, and it opens under the other side's key,
      prefix and number to a type that is no control type. */
  lemma AcceptedExactlyWhen(e: End, w: Wire, open: Opener)
    requires e.recvSeq < TWO64
    ensures Accept(e, w, open).Some? <==>
              && e.established && w.Sealed?
              && var v := w.envelope;
                 && v.version == 1 && v.sessionId == e.keys.sessionId && |v.tag| == 16 && |v.ciphertext| >= 4
                 && v.sequence == e.recvSeq + 1
                 && v.sequence < (if e.role.Server? then TWO64 else 0x8000_0000_0000_0000)
                 && var (key, prefix) := if e.role.Server? then (e.keys.clientKey, e.keys.clientPrefix)
                                         else (e.keys.serverKey, e.keys.serverPrefix);
                    var p := open(key, Nonce(prefix, v.sequence), v.ciphertext, Aad(v.sessionId, v.sequence), v.tag);
                    && p.Some? && |p.value| >= 4
                    && !(1036 <= ReadLittleEndian32(p.value) <= 1040)
  {
    hide Nonce, Aad, ReadLittleEndian32;
  }

  /** What sealing uses: this side's key, prefix and number, and the type before the payload. */
  lemma SealedUnder(e: End, f: Frame, c: bytes, t: bytes)
    requires f.kind < TWO32
    ensures var s := SealingOf(e, f, c, t);
            && (if e.role.Server? then s.key == e.keys.serverKey && s.nonce == Nonce(e.keys.serverPrefix, e.sendSeq + 1)
                else s.key == e.keys.clientKey && s.nonce == Nonce(e.keys.clientPrefix, e.sendSeq + 1))
            && s.aad == Aad(e.keys.sessionId, e.sendSeq + 1)
            && |s.plaintext| >= 4 && ReadLittleEndian32(s.plaintext) == f.kind && s.plaintext[4..] == f.payload
            && EnvelopeOf(e, s) == Envelope(1, e.keys.sessionId, e.sendSeq + 1, c, t)
  {
    hide Nonce, Aad, Plain, ReadLittleEndian32;
    PlainRoundTrip(f);
  }
}

/** SecureChannel.kt: keys in arrays that destroy wipes, counters moved by each call. */
module SecureChannelKt {
  import opened Options
  import opened Bytes
  import opened Framing
  import opened Channel

  type Sealer = (bytes, bytes, bytes, bytes) -> (bytes, bytes)

  class SecureChannel {
    const sessionId: array<byte>
    const clientToServerKey: array<byte>
    const serverToClientKey: array<byte>
    const clientNoncePrefix: array<byte>
    const serverNoncePrefix: array<byte>
    var sendSequence: nat
    var receiveSequence: nat

    ghost function View(): End
      reads this, sessionId, clientToServerKey, serverToClientKey, clientNoncePrefix, serverNoncePrefix
    {
      End(Client, true, Keys(sessionId[..], clientToServerKey[..], serverToClientKey[..],
                             clientNoncePrefix[..], serverNoncePrefix[..]), sendSequence, receiveSequence)
    }

    constructor (sid: array<byte>, c2s: array<byte>, s2c: array<byte>, cPrefix: array<byte>, sPrefix: array<byte>)
      ensures sessionId == sid && clientToServerKey == c2s && serverToClientKey == s2c
      ensures clientNoncePrefix == cPrefix && serverNoncePrefix == sPrefix
      ensures View() == End(Client, true, Keys(sid[..], c2s[..], s2c[..], cPrefix[..], sPrefix[..]), 0, 0)
    {
      sessionId, clientToServerKey, serverToClientKey := sid, c2s, s2c;
      clientNoncePrefix, serverNoncePrefix := cPrefix, sPrefix;
      sendSequence, receiveSequence := 0, 0;
    }

    /** The envelope, or an exception that leaves the channel as it was. */
    method Encrypt(kind: nat, payload: bytes, seal: Sealer) returns (r: Option<Envelope>)
      modifies this`sendSequence
      ensures r.Some? <==> MaySeal(old(View()), Frame(kind, payload))
      ensures r.None? ==> View() == old(View())
      ensures r.Some? ==> View() == old(View()).(sendSeq := old(sendSequence) + 1)
      ensures r.Some? ==> exists c, t ::
                var s := SealingOf(old(View()), Frame(kind, payload), c, t);
                (c, t) == seal(s.key, s.nonce, s.plaintext, s.aad) && r.value == EnvelopeOf(old(View()), s)
    {
      if APP_CLIENT_HELLO <= kind <= APP_ENCRYPTED_FRAME {
        return None;
      }
      if sendSequence >= 0x7FFF_FFFF_FFFF_FFFF {
        return None;
      }
      ghost var before := View();
      sendSequence := sendSequence + 1;
      var sequence := sendSequence;
      var plaintext := LittleEndian32(kind) + payload;
      var nonce := clientNoncePrefix[..] + BigEndian64(sequence);
      var aad := Aad(sessionId[..], sequence);
      var (ciphertext, tag) := seal(clientToServerKey[..], nonce, plaintext, aad);
      r := Some(Envelope(APP_SECURITY_VERSION, sessionId[..], sequence, ciphertext, tag));
      ghost var s := SealingOf(before, Frame(kind, payload), ciphertext, tag);
      assert (ciphertext, tag) == seal(s.key, s.nonce, s.plaintext, s.aad) && r.value == EnvelopeOf(before, s);
    }

    /** The business frame, or an exception, after which ImClient closes the connection. */
    method Decrypt(w: Wire, open: Opener) returns (r: Option<Frame>)
      modifies this`receiveSequence
      ensures r == Accept(old(View()), w, open)
      ensures View() == old(View()).(recvSeq := if r.Some? then w.envelope.sequence else old(receiveSequence))
    {
      if !w.Sealed? {
        return None;
      }
      var v := w.envelope;
      var sequence := v.sequence;
      if v.version != APP_SECURITY_VERSION || v.sessionId != sessionId[..] || |v.tag| != APP_GCM_TAG_LEN
         || |v.ciphertext| < 4 || !(0 < sequence < 0x8000_0000_0000_0000) || sequence != receiveSequence + 1 {
        return None;
      }
      var nonce := serverNoncePrefix[..] + BigEndian64(sequence);
      var aad := Aad(sessionId[..], sequence);
      var plaintext := open(serverToClientKey[..], nonce, v.ciphertext, aad, v.tag);
      if plaintext.None? || |plaintext.value| < 4 {
        return None;
      }
      var innerType := ReadLittleEndian32(plaintext.value);
      if APP_CLIENT_HELLO <= innerType <= APP_ENCRYPTED_FRAME {
        return None;
      }
      receiveSequence := sequence;
      r := Some(Frame(innerType, plaintext.value[4..]));
    }

    method Destroy()
      modifies this, sessionId, clientToServerKey, serverToClientKey, clientNoncePrefix, serverNoncePrefix
      ensures forall i :: 0 <= i < clientToServerKey.Length ==> clientToServerKey[i] == 0
      ensures forall i :: 0 <= i < serverToClientKey.Length ==> serverToClientKey[i] == 0
      ensures forall i :: 0 <= i < sessionId.Length ==> sessionId[i] == 0
      ensures forall i :: 0 <= i < clientNoncePrefix.Length ==> clientNoncePrefix[i] == 0
      ensures forall i :: 0 <= i < serverNoncePrefix.Length ==> serverNoncePrefix[i] == 0
      ensures sendSequence == 0 && receiveSequence == 0
    {
      SecureClear(sessionId);
      SecureClear(clientToServerKey);
      SecureClear(serverToClientKey);
      SecureClear(clientNoncePrefix);
      SecureClear(serverNoncePrefix);
      sendSequence := 0;
      receiveSequence := 0;
    }
  }

  /** fill(0). */
  method SecureClear(a: array<byte>)
    modifies a
    ensures forall i :: 0 <= i < a.Length ==> a[i] == 0
  {
    for i := 0 to a.Length
      invariant forall j :: 0 <= j < i ==> a[j] == 0
    {
      a[i] := 0;
    }
  }
}

/** Client, server and a network that may drop, reorder, duplicate, alter or invent frames. */
module ChannelRun {
  import opened Options
  import opened Bytes
  import opened Framing
  import opened Channel

  datatype Sys = Sys(client: End, server: End, log: seq<Sealing>,
                     clientSent: seq<Frame>, serverSent: seq<Frame>,
                     clientGot: seq<Frame>, serverGot: seq<Frame>)

  function EndOf(s: Sys, r: Role): End { if r.Client? then s.client else s.server }

  function Sent(s: Sys, r: Role): seq<Frame> { if r.Client? then s.clientSent else s.serverSent }

  function Got(s: Sys, r: Role): seq<Frame> { if r.Client? then s.clientGot else s.serverGot }

  /** Ideal AES-GCM: opening succeeds only on what was sealed with the same key, nonce and
      associated data. */
  function Open(log: seq<Sealing>, key: bytes, nonce: bytes, ciphertext: bytes, aad: bytes, tag: bytes)
      : (r: Option<bytes>)
    ensures r.Some? ==> Sealing(key, nonce, aad, r.value, ciphertext, tag) in log
    ensures r.None? ==> forall p :: Sealing(key, nonce, aad, p, ciphertext, tag) !in log
  {
    if |log| == 0 then None
    else
      var s := log[|log| - 1];
      if s.key == key && s.nonce == nonce && s.aad == aad && s.ciphertext == ciphertext && s.tag == tag
      then Some(s.plaintext)
      else Open(log[..|log| - 1], key, nonce, ciphertext, aad, tag)
  }

  function Opening(log: seq<Sealing>): Opener {
    (key, nonce, ciphertext, aad, tag) => Open(log, key, nonce, ciphertext, aad, tag)
  }

  /** Send: a business frame, with whatever ciphertext and tag AES-GCM gives. Arrive: the
      network hands over any frame at all. Foreign: sealing under keys of other connections.
      Shut: either end closes for any other reason. */
  datatype Action =
    | Send(r: Role, frame: Frame, ciphertext: bytes, tag: bytes)
    | Arrive(to: Role, wire: Wire)
    | Foreign(sealing: Sealing)
    | Shut(who: Role)

  function WithEnd(s: Sys, r: Role, e: End): Sys {
    if r.Client? then s.(client := e) else s.(server := e)
  }

  function Step(s: Sys, a: Action): Sys {
    match a
    case Send(r, f, c, t) =>
      var e := EndOf(s, r);
      if f.kind >= TWO32 then s
      else if MaySeal(e, f) then
        var s' := WithEnd(s, r, e.(sendSeq := e.sendSeq + 1)).(log := s.log + [SealingOf(e, f, c, t)]);
        if r.Client? then s'.(clientSent := s.clientSent + [f]) else s'.(serverSent := s.serverSent + [f])
      else if r.Server? then WithEnd(s, r, e.(established := false))
      else s
    case Arrive(r, w) =>
      var e := EndOf(s, r);
      var got := Accept(e, w, Opening(s.log));
      var s' := WithEnd(s, r, Received(e, w, Opening(s.log)));
      if got.None? then s'
      else if r.Client? then s'.(clientGot := s.clientGot + [got.value])
      else s'.(serverGot := s.serverGot + [got.value])
    case Foreign(x) =>
      if x.key == s.client.keys.clientKey || x.key == s.client.keys.serverKey then s
      else s.(log := s.log + [x])
    case Shut(r) => WithEnd(s, r, EndOf(s, r).(established := false))
  }

  function Run(s: Sys, actions: seq<Action>): Sys {
    if |actions| == 0 then s else Step(Run(s, actions[..|actions| - 1]), actions[|actions| - 1])
  }

  /** Just after the handshake: equal keys, and directions told apart by key or prefix. */
  ghost predicate Start(s: Sys) {
    && s.client.role == Client && s.server.role == Server
    && s.client.keys == s.server.keys && SeparateDirections(s.client.keys)
    && s.client.sendSeq == s.client.recvSeq == s.server.sendSeq == s.server.recvSeq == 0
    && s.log == [] && s.clientSent == s.serverSent == s.clientGot == s.serverGot == []
  }

  predicate SeparateDirections(k: Keys) {
    && |k.clientPrefix| == |k.serverPrefix| == 4
    && (k.clientKey != k.serverKey || k.clientPrefix != k.serverPrefix)
  }

  /** The k-th sealing of a direction carries its k-th business frame. */
  ghost predicate IsSealing(keys: Keys, r: Role, x: Sealing, k: nat, sent: seq<Frame>) {
    && 1 <= k <= |sent|
    && x.key == Key(keys, r) && x.nonce == Nonce(Prefix(keys, r), k) && x.plaintext == Plain(sent[k - 1])
  }

  ghost predicate OfDirection(keys: Keys, r: Role, x: Sealing, sent: seq<Frame>) {
    exists k: nat :: IsSealing(keys, r, x, k, sent)
  }

  ghost predicate Accounted(s: Sys, x: Sealing) {
    || OfDirection(s.client.keys, Client, x, s.clientSent)
    || OfDirection(s.client.keys, Server, x, s.serverSent)
    || (x.key != s.client.keys.clientKey && x.key != s.client.keys.serverKey)
  }

  ghost predicate Unrepeated(s: Sys) {
    forall i, j :: 0 <= i < j < |s.log|
      && (s.log[i].key == s.client.keys.clientKey || s.log[i].key == s.client.keys.serverKey)
      ==> s.log[i].key != s.log[j].key || s.log[i].nonce != s.log[j].nonce
  }

  ghost predicate DirectionInv(sender: End, receiver: End, sent: seq<Frame>, got: seq<Frame>) {
    && |sent| < TWO64
    && (forall f :: f in sent ==> f.kind < TWO32)
    && got <= sent
    && (sender.established ==> sender.sendSeq == |sent|)
    && (receiver.established ==> receiver.recvSeq == |got|)
  }

  ghost predicate Inv(s: Sys) {
    && s.client.role == Client && s.server.role == Server
    && s.client.keys == s.server.keys && SeparateDirections(s.client.keys)
    && (forall x :: x in s.log ==> Accounted(s, x))
    && DirectionInv(s.client, s.server, s.clientSent, s.serverGot)
    && DirectionInv(s.server, s.client, s.serverSent, s.clientGot)
    && Unrepeated(s)
  }

  /** An envelope that opens with the next sequence number carries the next frame sent. */
  lemma OpensToNext(s: Sys, r: Role, n: nat, x: Sealing)
    requires Inv(s) && x in s.log
    requires x.key == Key(s.client.keys, r) && x.nonce == Nonce(Prefix(s.client.keys, r), n)
    requires n < TWO64
    ensures 1 <= n <= |Sent(s, r)| && x.plaintext == Plain(Sent(s, r)[n - 1])
  {
    hide Nonce, Plain, Unrepeated;
    var keys := s.client.keys;
    assert Accounted(s, x);
    if OfDirection(keys, r, x, Sent(s, r)) {
      var k: nat :| IsSealing(keys, r, x, k, Sent(s, r));
      NonceInjective(Prefix(keys, r), n, Prefix(keys, r), k);
    } else {
      var o := Other(r);
      assert OfDirection(keys, o, x, Sent(s, o));
      var k: nat :| IsSealing(keys, o, x, k, Sent(s, o));
      assert k <= |Sent(s, o)| < TWO64;
      assert |Prefix(keys, r)| == |Prefix(keys, o)|;
      NonceInjective(Prefix(keys, r), n, Prefix(keys, o), k);
    }
  }

  /** What acceptance says about the envelope and about what opened. */
  lemma AcceptOpens(e: End, w: Wire, open: Opener)
    requires Accept(e, w, open).Some?
    ensures e.established && w.Sealed? && IsNext(e, w.envelope.sequence)
    ensures var v, sender := w.envelope, Other(e.role);
            var p := open(Key(e.keys, sender), Nonce(Prefix(e.keys, sender), v.sequence), v.ciphertext,
                          Aad(e.keys.sessionId, v.sequence), v.tag);
            && p.Some? && |p.value| >= 4
            && Accept(e, w, open).value == Frame(ReadLittleEndian32(p.value), p.value[4..])
  {
    hide Nonce, Aad, IsNext, ReadLittleEndian32;
  }

  lemma NextIs(e: End, n: nat)
    requires IsNext(e, n) && e.recvSeq < TWO64
    ensures n == e.recvSeq + 1 < TWO64
  {
  }

  /** What is accepted is the next frame that was sent. */
  lemma AcceptsNext(s: Sys, r: Role, w: Wire)
    requires Inv(s) && Accept(EndOf(s, r), w, Opening(s.log)).Some?
    ensures w.envelope.sequence == |Got(s, r)| + 1 <= |Sent(s, Other(r))|
    ensures Accept(EndOf(s, r), w, Opening(s.log)).value == Sent(s, Other(r))[|Got(s, r)|]
  {
    hide Nonce, Plain, Aad, Inv, Accept, IsNext, ReadLittleEndian32;
    var e, sender := EndOf(s, r), Other(r);
    AcceptOpens(e, w, Opening(s.log));
    Roles(s, r);
    Counted(s, r);
    var v := w.envelope;
    NextIs(e, v.sequence);
    var key, nonce := Key(e.keys, sender), Nonce(Prefix(e.keys, sender), v.sequence);
    var aad := Aad(e.keys.sessionId, v.sequence);
    var p := Open(s.log, key, nonce, v.ciphertext, aad, v.tag).value;
    OpensToNext(s, sender, v.sequence, Sealing(key, nonce, aad, p, v.ciphertext, v.tag));
    KindsInRange(s, sender, v.sequence - 1);
    PlainRoundTrip(Sent(s, sender)[v.sequence - 1]);
  }

  lemma Roles(s: Sys, r: Role)
    requires Inv(s)
    ensures EndOf(s, r).role == r && EndOf(s, r).keys == s.client.keys
  {
    hide Accounted, Unrepeated, DirectionInv;
  }

  lemma KindsInRange(s: Sys, r: Role, k: nat)
    requires Inv(s) && k < |Sent(s, r)|
    ensures Sent(s, r)[k].kind < TWO32
  {
    hide Accounted, Unrepeated;
    assert Sent(s, r)[k] in Sent(s, r);
  }

  lemma Counted(s: Sys, r: Role)
    requires Inv(s) && EndOf(s, r).established
    ensures EndOf(s, r).recvSeq == |Got(s, r)| < TWO64 && |Sent(s, Other(r))| < TWO64
    ensures EndOf(s, r).sendSeq == |Sent(s, r)|
  {
    hide Accounted, Unrepeated;
  }

  lemma ArriveKeeps(s: Sys, r: Role, w: Wire)
    requires Inv(s)
    ensures Inv(Step(s, Arrive(r, w)))
  {
    hide Accept, Accounted, Unrepeated;
    SameLog(s, Step(s, Arrive(r, w)));
    var e := EndOf(s, r);
    var got := Accept(e, w, Opening(s.log));
    if got.Some? {
      AcceptOpens(e, w, Opening(s.log));
      AcceptsNext(s, r, w);
      Handed(EndOf(s, Other(r)), e, Sent(s, Other(r)), Got(s, r), e.(recvSeq := w.envelope.sequence), got.value);
    }
  }

  lemma Handed(sender: End, receiver: End, sent: seq<Frame>, got: seq<Frame>, receiver': End, f: Frame)
    requires DirectionInv(sender, receiver, sent, got) && |got| < |sent| && f == sent[|got|]
    requires receiver'.recvSeq == |got| + 1
    ensures DirectionInv(sender, receiver', sent, got + [f])
  {
    assert got + [f] <= sent;
  }

  lemma SealingIsNew(s: Sys, r: Role, f: Frame, c: bytes, t: bytes, x: Sealing)
    requires Inv(s) && MaySeal(EndOf(s, r), f) && x in s.log
    requires x.key == Key(s.client.keys, r)
    ensures x.nonce != SealingOf(EndOf(s, r), f, c, t).nonce
  {
    if x.nonce == SealingOf(EndOf(s, r), f, c, t).nonce {
      OpensToNext(s, r, EndOf(s, r).sendSeq + 1, x);
    }
  }

  lemma SendKeeps(s: Sys, r: Role, f: Frame, c: bytes, t: bytes)
    requires Inv(s) && f.kind < TWO32 && MaySeal(EndOf(s, r), f)
    ensures Inv(Step(s, Send(r, f, c, t)))
  {
    hide Nonce, Plain, Aad;
    var e := EndOf(s, r);
    var x := SealingOf(e, f, c, t);
    var s' := Step(s, Send(r, f, c, t));
    var keys := s.client.keys;
    assert s'.log == s.log + [x] && Sent(s', r) == Sent(s, r) + [f];
    forall y | y in s'.log ensures Accounted(s', y) {
      if y in s.log {
        assert Accounted(s, y);
        StillAccounted(s, s', r, f, y);
      } else {
        assert IsSealing(keys, r, y, |Sent(s', r)|, Sent(s', r));
      }
    }
    forall i, j | 0 <= i < j < |s'.log| && (s'.log[i].key == keys.clientKey || s'.log[i].key == keys.serverKey)
      ensures s'.log[i].key != s'.log[j].key || s'.log[i].nonce != s'.log[j].nonce
    {
      if j == |s.log| {
        assert s'.log[i] == s.log[i] && s.log[i] in s.log;
        if s.log[i].key == x.key {
          SealingIsNew(s, r, f, c, t, s.log[i]);
        }
      }
    }
  }

  lemma StillAccounted(s: Sys, s': Sys, r: Role, f: Frame, y: Sealing)
    requires s'.client.keys == s.client.keys && Accounted(s, y)
    requires Sent(s', r) == Sent(s, r) + [f] && Sent(s', Other(r)) == Sent(s, Other(r))
    ensures Accounted(s', y)
  {
    hide Nonce, Plain;
    var keys := s.client.keys;
    if OfDirection(keys, r, y, Sent(s, r)) {
      var k: nat :| IsSealing(keys, r, y, k, Sent(s, r));
      assert IsSealing(keys, r, y, k, Sent(s', r));
      assert OfDirection(keys, r, y, Sent(s', r));
    }
  }

  lemma StepKeeps(s: Sys, a: Action)
    requires Inv(s)
    ensures Inv(Step(s, a))
  {
    match a
    case Send(r, f, c, t) =>
      if f.kind < TWO32 && MaySeal(EndOf(s, r), f) {
        SendKeeps(s, r, f, c, t);
      } else {
        SameLog(s, Step(s, a));
      }
    case Arrive(r, w) => ArriveKeeps(s, r, w);
    case Foreign(x) => ForeignKeeps(s, x);
    case Shut(r) => SameLog(s, Step(s, a));
  }

  lemma SameLog(s: Sys, s': Sys)
    requires Inv(s) && s'.log == s.log && s'.client.keys == s.client.keys
    requires s'.clientSent == s.clientSent && s'.serverSent == s.serverSent
    ensures (forall x :: x in s'.log ==> Accounted(s', x)) && Unrepeated(s')
  {
    forall x | x in s.log ensures Accounted(s', x) {
      assert Accounted(s, x);
    }
  }

  lemma ForeignKeeps(s: Sys, x: Sealing)
    requires Inv(s)
    ensures Inv(Step(s, Foreign(x)))
  {
    var s' := Step(s, Foreign(x));
    forall y | y in s'.log ensures Accounted(s', y) {
      if y in s.log {
        assert Accounted(s, y);
      }
    }
  }

  lemma {:induction false} RunKeeps(s: Sys, actions: seq<Action>)
    requires Inv(s)
    ensures Inv(Run(s, actions))
  {
    if |actions| > 0 {
      RunKeeps(s, actions[..|actions| - 1]);
      StepKeeps(Run(s, actions[..|actions| - 1]), actions[|actions| - 1]);
    }
  }

  /** In every run, whatever the network does, what each end hands up is a prefix of what the
      other end sent. */
  lemma DeliveredIsPrefix(s: Sys, actions: seq<Action>)
    requires Start(s)
    ensures Run(s, actions).serverGot <= Run(s, actions).clientSent
    ensures Run(s, actions).clientGot <= Run(s, actions).serverSent
  {
    RunKeeps(s, actions);
  }

  /** No nonce is used twice under either key of the connection. */
  lemma NoncesAreFresh(s: Sys, actions: seq<Action>, i: nat, j: nat)
    requires Start(s)
    requires i < j < |Run(s, actions).log|
    requires Run(s, actions).log[i].key in {s.client.keys.clientKey, s.client.keys.serverKey}
    ensures Run(s, actions).log[i].key != Run(s, actions).log[j].key
         || Run(s, actions).log[i].nonce != Run(s, actions).log[j].nonce
  {
    RunKeeps(s, actions);
    KeysStay(s, actions);
  }

  lemma {:induction false} KeysStay(s: Sys, actions: seq<Action>)
    ensures Run(s, actions).client.keys == s.client.keys
  {
    if |actions| > 0 {
      KeysStay(s, actions[..|actions| - 1]);
    }
  }

  /** A closed end stays closed and hands up nothing more, in every continuation. */
  lemma {:induction false} ClosedIsSilent(s: Sys, r: Role, actions: seq<Action>)
    requires !EndOf(s, r).established
    ensures !EndOf(Run(s, actions), r).established
    ensures Got(Run(s, actions), r) == Got(s, r)
    ensures Sent(Run(s, actions), r) == Sent(s, r)
  {
    if |actions| > 0 {
      ClosedIsSilent(s, r, actions[..|actions| - 1]);
      SilentStep(Run(s, actions[..|actions| - 1]), r, actions[|actions| - 1]);
    }
  }

  lemma SilentStep(s: Sys, r: Role, a: Action)
    requires !EndOf(s, r).established
    ensures var s' := Step(s, a);
            !EndOf(s', r).established && Got(s', r) == Got(s, r) && Sent(s', r) == Sent(s, r)
  {
    hide WellFormed, Nonce, Aad, SealingOf, Opening;
  }

  /** One bad frame ends delivery for good. */
  lemma BadFrameEndsDelivery(s: Sys, r: Role, w: Wire, actions: seq<Action>)
    requires Accept(EndOf(s, r), w, Opening(s.log)).None?
    ensures Got(Run(Step(s, Arrive(r, w)), actions), r) == Got(s, r)
  {
    ClosedIsSilent(Step(s, Arrive(r, w)), r, actions);
  }

  /** The client never sends a control type under the keys of the channel, so none of its frames
      is refused for its type. */
  lemma {:induction false} ClientSendsNoControl(s: Sys, actions: seq<Action>)
    requires Start(s)
    ensures forall f :: f in Run(s, actions).clientSent ==> f.kind < TWO32 && !(1036 <= f.kind <= 1040)
  {
    if |actions| > 0 {
      var before := actions[..|actions| - 1];
      ClientSendsNoControl(s, before);
      RunKeeps(s, before);
      assert Run(s, actions) == Step(Run(s, before), actions[|actions| - 1]);
      hide Run, Start, Accounted, Unrepeated, DirectionInv;
      SentStep(Run(s, before), actions[|actions| - 1]);
    }
  }

  lemma SentStep(s: Sys, a: Action)
    requires Inv(s)
    requires forall f :: f in s.clientSent ==> f.kind < TWO32 && !(1036 <= f.kind <= 1040)
    ensures forall f :: f in Step(s, a).clientSent ==> f.kind < TWO32 && !(1036 <= f.kind <= 1040)
  {
    hide Accept, Nonce, Aad, Plain, Accounted, Unrepeated, DirectionInv;
  }

  /** A frame is accepted only as the next one: a replayed, reordered or altered envelope,
      or one with any other sequence number, is refused. */
  lemma OnlyTheNextIsAccepted(s: Sys, r: Role, w: Wire)
    requires Inv(s) && EndOf(s, r).established
    requires Accept(EndOf(s, r), w, Opening(s.log)).Some?
    ensures w.envelope.sequence == |Got(s, r)| + 1 <= |Sent(s, Other(r))|
    ensures Accept(EndOf(s, r), w, Opening(s.log)).value == Sent(s, Other(r))[|Got(s, r)|]
    ensures Accept(EndOf(Step(s, Arrive(r, w)), r), w, Opening(s.log)).None?
  {
    AcceptsNext(s, r, w);
    ReplayRefused(EndOf(s, r), w, Opening(s.log));
    hide Accept, Inv;
    assert EndOf(Step(s, Arrive(r, w)), r) == Received(EndOf(s, r), w, Opening(s.log));
  }

  lemma ReplayRefused(e: End, w: Wire, open: Opener)
    requires w.Sealed? && Accept(e, w, open).Some?
    ensures Accept(Received(e, w, open), w, open).None?
  {
    hide Nonce, Aad, ReadLittleEndian32;
    assert IsNext(e, w.envelope.sequence);
    assert !IsNext(e.(recvSeq := w.envelope.sequence), w.envelope.sequence);
  }

  /** Completeness: what was sealed opens, so an unaltered frame that arrives in order is
      handed up, provided it is not a control type. */
  lemma HonestFrameArrives(s: Sys, r: Role, f: Frame, c: bytes, t: bytes)
    requires Inv(s) && f.kind < TWO32 && MaySeal(EndOf(s, r), f) && !IsControl(f.kind)
    requires |c| == |Plain(f)| && |t| == APP_GCM_TAG_LEN
    requires EndOf(s, Other(r)).established && |Got(s, Other(r))| == |Sent(s, r)|
    requires r.Server? ==> |Sent(s, r)| < 0x7FFF_FFFF_FFFF_FFFF
    ensures var s' := Step(s, Send(r, f, c, t));
            var w := Sealed(EnvelopeOf(EndOf(s, r), SealingOf(EndOf(s, r), f, c, t)));
            Got(Step(s', Arrive(Other(r), w)), Other(r)) == Got(s, Other(r)) + [f]
  {
    var e, o := EndOf(s, r), Other(r);
    var x := SealingOf(e, f, c, t);
    var s' := Step(s, Send(r, f, c, t));
    SendKeeps(s, r, f, c, t);
    Counted(s, r);
    Counted(s, o);
    OpensBack(s', r, x, |Sent(s', r)|);
    assert EndOf(s', o) == EndOf(s, o);
    AcceptsHonest(EndOf(s', o), e, f, c, t, Opening(s'.log));
    hide Nonce, Plain, Aad, Inv, Accept;
  }

  lemma AcceptsHonest(o: End, e: End, f: Frame, c: bytes, t: bytes, open: Opener)
    requires o.role == Other(e.role) && o.keys == e.keys && o.established && o.recvSeq == e.sendSeq
    requires e.sendSeq < 0x7FFF_FFFF_FFFF_FFFF && f.kind < TWO32 && !IsControl(f.kind)
    requires |c| == |Plain(f)| && |t| == APP_GCM_TAG_LEN
    requires var x := SealingOf(e, f, c, t); open(x.key, x.nonce, c, x.aad, t) == Some(Plain(f))
    ensures Accept(o, Sealed(EnvelopeOf(e, SealingOf(e, f, c, t))), open) == Some(f)
  {
    hide Nonce, Plain, Aad, LittleEndian32, ReadLittleEndian32, IsNext;
    PlainRoundTrip(f);
    var w := Sealed(EnvelopeOf(e, SealingOf(e, f, c, t)));
    assert IsNext(o, e.sendSeq + 1) by { NextInRange(o); }
    assert WellFormed(o, w);
    assert Key(o.keys, Other(o.role)) == Key(e.keys, e.role);
  }

  lemma NextInRange(o: End)
    requires o.recvSeq < 0x7FFF_FFFF_FFFF_FFFF
    ensures IsNext(o, o.recvSeq + 1)
  {
  }

  lemma OpensBack(s: Sys, r: Role, x: Sealing, n: nat)
    requires Inv(s) && x in s.log && n < TWO64
    requires x.key == Key(s.client.keys, r) && x.nonce == Nonce(Prefix(s.client.keys, r), n)
    ensures Open(s.log, x.key, x.nonce, x.ciphertext, x.aad, x.tag) == Some(x.plaintext)
  {
    hide Nonce, Plain, Accounted, Unrepeated;
    var p := Open(s.log, x.key, x.nonce, x.ciphertext, x.aad, x.tag);
    assert Sealing(x.key, x.nonce, x.aad, x.plaintext, x.ciphertext, x.tag) == x;
    var y := Sealing(x.key, x.nonce, x.aad, p.value, x.ciphertext, x.tag);
    OpensToNext(s, r, n, x);
    OpensToNext(s, r, n, y);
  }
}
