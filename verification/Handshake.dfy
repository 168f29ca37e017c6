// The application handshake: Session.cpp on the server, SecureChannel.establish on the
// client. X25519, Ed25519, SHA-256, HKDF and HMAC are parameters.

module Handshake {
  import opened Options
  import opened Bytes
  import opened Framing
  import opened Channel

  const APP_SERVER_HELLO: nat := 1037
  const APP_CLIENT_FINISHED: nat := 1038
  const SUITE: nat := 1
  const MAX_HANDSHAKE: nat := 1024

  datatype ClientHello = ClientHello(version: nat, publicKey: bytes, nonce: bytes, randomId: bytes, suite: nat)

  datatype ServerHello = ServerHello(version: nat, publicKey: bytes, nonce: bytes, sessionId: bytes,
                                     keyId: nat, signature: bytes, suite: nat)

  /** The protobuf messages: opaque pairs that round trip. */
  datatype Codec = Codec(
    encodeClient: ClientHello -> bytes, parseClient: bytes -> Option<ClientHello>,
    encodeServer: ServerHello -> bytes, parseServer: bytes -> Option<ServerHello>,
    encodeFinished: bytes -> bytes, parseFinished: bytes -> Option<bytes>)

  ghost predicate RoundTrips(p: Codec) {
    && (forall m :: p.parseClient(p.encodeClient(m)) == Some(m))
    && (forall m :: p.parseServer(p.encodeServer(m)) == Some(m))
    && (forall m :: p.parseFinished(p.encodeFinished(m)) == Some(m))
  }

  /** X25519 (a bad peer key throws), SHA-256, HKDF to 136 bytes, HMAC, Ed25519, the pins. */
  datatype Crypto = Crypto(
    publicOf: bytes -> bytes, agree: (bytes, bytes) -> Option<bytes>,
    hash: bytes -> bytes, hkdf: (bytes, bytes, bytes) -> bytes, hmac: (bytes, bytes) -> bytes,
    sign: (bytes, bytes) -> bytes, verify: (bytes, bytes, bytes) -> bool, pin: nat -> Option<bytes>)

  ghost predicate Sound(c: Crypto) {
    && (forall a :: |c.publicOf(a)| == 32)
    && (forall a, b :: c.agree(a, c.publicOf(b)) == c.agree(b, c.publicOf(a)))
    && (forall x :: |c.hash(x)| == 32)
    && (forall k, s, i :: |c.hkdf(k, s, i)| == 136)
    && (forall k, d :: |c.hmac(k, d)| == 32)
  }

  const HANDSHAKE_LABEL: bytes := [
    106, 105, 116, 111, 110, 103, 45, 97, 112, 112, 45, 104, 97, 110, 100, 115, 104, 97, 107, 101, 45, 118, 49]

  const CHANNEL_LABEL: bytes := [
    106, 105, 116, 111, 110, 103, 45, 97, 112, 112, 45, 99, 104, 97, 110, 110, 101, 108, 45, 118, 49]

  /** signingTranscript. */
  function SigningTranscript(clientPayload: bytes, h: ServerHello): bytes {
    HANDSHAKE_LABEL + (BigEndian32(|clientPayload|) + (clientPayload + (BigEndian32(h.version)
    + (h.publicKey + (h.nonce + (h.sessionId + (BigEndian32(h.keyId) + BigEndian32(h.suite))))))))
  }

  /** The input of finishedTranscriptHash. */
  function FinishedInput(clientPayload: bytes, serverPayload: bytes): bytes {
    BigEndian32(|clientPayload|) + (clientPayload + (BigEndian32(|serverPayload|) + serverPayload))
  }

  predicate Sized(h: ServerHello) { |h.publicKey| == 32 && |h.nonce| == 32 && |h.sessionId| == 16 }

  /** The labels that keep the three uses apart, in ASCII. */
  lemma Labels()
    ensures |HANDSHAKE_LABEL| == 23 && |CHANNEL_LABEL| == 21 && |FRAME_LABEL| == 19
    ensures forall i :: 0 <= i < 23 ==> HANDSHAKE_LABEL[i] == "jitong-app-handshake-v1"[i] as int
    ensures forall i :: 0 <= i < 21 ==> CHANNEL_LABEL[i] == "jitong-app-channel-v1"[i] as int
    ensures forall i :: 0 <= i < 19 ==> FRAME_LABEL[i] == "jitong-app-frame-v1"[i] as int
  {
  }

  /** Everything that is signed can be read back from the transcript. */
  lemma SigningTranscriptInjective(a: bytes, g: ServerHello, b: bytes, h: ServerHello)
    requires |a| < TWO32 && |b| < TWO32 && Sized(g) && Sized(h)
    requires g.version < TWO32 && h.version < TWO32 && g.keyId < TWO32 && h.keyId < TWO32
    requires g.suite < TWO32 && h.suite < TWO32
    requires SigningTranscript(a, g) == SigningTranscript(b, h)
    ensures a == b && g.version == h.version && g.publicKey == h.publicKey && g.nonce == h.nonce
    ensures g.sessionId == h.sessionId && g.keyId == h.keyId && g.suite == h.suite
  {
    hide BigEndian32;
    var tg := BigEndian32(g.keyId) + BigEndian32(g.suite);
    var th := BigEndian32(h.keyId) + BigEndian32(h.suite);
    var ug := BigEndian32(g.version) + (g.publicKey + (g.nonce + (g.sessionId + tg)));
    var uh := BigEndian32(h.version) + (h.publicKey + (h.nonce + (h.sessionId + th)));
    SplitEqual(HANDSHAKE_LABEL, BigEndian32(|a|) + (a + ug), HANDSHAKE_LABEL, BigEndian32(|b|) + (b + uh));
    SplitEqual(BigEndian32(|a|), a + ug, BigEndian32(|b|), b + uh);
    BigEndian32Injective(|a|, |b|);
    SplitEqual(a, ug, b, uh);
    SplitEqual(BigEndian32(g.version), g.publicKey + (g.nonce + (g.sessionId + tg)),
               BigEndian32(h.version), h.publicKey + (h.nonce + (h.sessionId + th)));
    BigEndian32Injective(g.version, h.version);
    SplitEqual(g.publicKey, g.nonce + (g.sessionId + tg), h.publicKey, h.nonce + (h.sessionId + th));
    SplitEqual(g.nonce, g.sessionId + tg, h.nonce, h.sessionId + th);
    SplitEqual(g.sessionId, tg, h.sessionId, th);
    SplitEqual(BigEndian32(g.keyId), BigEndian32(g.suite), BigEndian32(h.keyId), BigEndian32(h.suite));
    BigEndian32Injective(g.keyId, h.keyId);
    BigEndian32Injective(g.suite, h.suite);
  }

  /** The hashed transcript determines both hello payloads. */
  lemma FinishedInputInjective(a: bytes, x: bytes, b: bytes, y: bytes)
    requires |a| < TWO32 && |b| < TWO32 && |x| < TWO32 && |y| < TWO32
    requires FinishedInput(a, x) == FinishedInput(b, y)
    ensures a == b && x == y
  {
    hide BigEndian32;
    SplitEqual(BigEndian32(|a|), a + (BigEndian32(|x|) + x), BigEndian32(|b|), b + (BigEndian32(|y|) + y));
    BigEndian32Injective(|a|, |b|);
    SplitEqual(a, BigEndian32(|x|) + x, b, BigEndian32(|y|) + y);
    SplitEqual(BigEndian32(|x|), x, BigEndian32(|y|), y);
  }

  datatype Secrets = Secrets(keys: Keys, clientFinished: bytes, serverFinished: bytes, transcript: bytes)

  const NO_SECRETS := Secrets(Keys([], [], [], [], []), [], [], [])

  /** The 136 bytes of key material, cut as both programs cut them. */
  function Cut(material: bytes, sessionId: bytes, transcript: bytes): Secrets
    requires |material| == 136
  {
    Secrets(Keys(sessionId, material[..32], material[32..64], material[64..68], material[68..72]),
            material[72..104], material[104..136], transcript)
  }

  function Derive(c: Crypto, secret: bytes, clientNonce: bytes, serverNonce: bytes, sessionId: bytes,
      transcript: bytes): Secrets
    requires Sound(c)
  {
    Cut(c.hkdf(secret, c.hash(clientNonce + serverNonce), CHANNEL_LABEL + sessionId + transcript),
        sessionId, transcript)
  }

  /** Nothing of the material is lost or used twice: the six pieces in order are the material. */
  lemma CutIsPartition(material: bytes, sessionId: bytes, transcript: bytes)
    requires |material| == 136
    ensures var s := Cut(material, sessionId, transcript);
            material == s.keys.clientKey + s.keys.serverKey + s.keys.clientPrefix + s.keys.serverPrefix
                        + s.clientFinished + s.serverFinished
    ensures var k := Cut(material, sessionId, transcript).keys;
            |k.clientKey| == |k.serverKey| == 32 && |k.clientPrefix| == |k.serverPrefix| == 4
  {
  }

  // ------------------------------------------------------------------ the server

  datatype SecurityState = TlsHandshake | WaitClientHello | WaitClientFinished | Established | Closed

  datatype ServerState = ServerState(state: SecurityState, secrets: Secrets, sendSeq: nat, recvSeq: nat,
                                     tlsDone: bool, closedNotified: bool)

  const NewServer := ServerState(TlsHandshake, NO_SECRETS, 0, 0, false, false)

  /** What the server draws for one hello. */
  datatype Draw = Draw(privateKey: bytes, nonce: bytes, sessionId: bytes)

  datatype Identity = Identity(privateKey: bytes, keyId: nat)

  predicate ClientHelloValid(h: ClientHello) {
    && h.version == APP_SECURITY_VERSION && h.suite == SUITE
    && |h.publicKey| == 32 && |h.nonce| == 32 && |h.randomId| == 16
  }

  /** failApplicationHandshake. */
  function Fail(st: ServerState): ServerState { st.(state := Closed) }

  function UnsignedHello(c: Crypto, d: Draw, keyId: nat): ServerHello {
    ServerHello(APP_SECURITY_VERSION, c.publicOf(d.privateKey), d.nonce, d.sessionId, keyId, [], SUITE)
  }

  function ServerHelloFor(c: Crypto, id: Identity, clientPayload: bytes, d: Draw): ServerHello {
    var h := UnsignedHello(c, d, id.keyId);
    h.(signature := c.sign(id.privateKey, SigningTranscript(clientPayload, h)))
  }

  /** handleClientHello: the ServerHello payload, or a closed connection. */
  function OnClientHello(c: Crypto, p: Codec, id: Identity, st: ServerState, payload: bytes, d: Draw)
    : (r: (ServerState, Option<bytes>))
    requires Sound(c)
  {
    match p.parseClient(payload)
    case None => (Fail(st), None)
    case Some(hello) =>
      if !ClientHelloValid(hello) then (Fail(st), None)
      else
        match c.agree(d.privateKey, hello.publicKey)
        case None => (Fail(st), None)
        case Some(secret) =>
          var reply := p.encodeServer(ServerHelloFor(c, id, payload, d));
          var transcript := c.hash(FinishedInput(payload, reply));
          (st.(state := WaitClientFinished,
               secrets := Derive(c, secret, hello.nonce, d.nonce, d.sessionId, transcript)), Some(reply))
  }

  /** handleClientFinished. */
  function OnClientFinished(c: Crypto, p: Codec, st: ServerState, payload: bytes): (ServerState, Option<bytes>) {
    match p.parseFinished(payload)
    case None => (Fail(st), None)
    case Some(actual) =>
      if |actual| != 32 || actual != c.hmac(st.secrets.clientFinished, st.secrets.transcript) then (Fail(st), None)
      else
        (st.(state := Established),
         Some(p.encodeFinished(c.hmac(st.secrets.serverFinished, st.secrets.transcript + actual))))
  }

  /** handleApplicationHandshake: the state machine over incoming frames before establishment. */
  function OnHandshakeFrame(c: Crypto, p: Codec, id: Identity, st: ServerState, f: Frame, d: Draw)
    : (ServerState, Option<Frame>)
    requires Sound(c)
  {
    if |f.payload| > MAX_HANDSHAKE then (Fail(st), None)
    else if st.state.WaitClientHello? && f.kind == APP_CLIENT_HELLO then
      var (st', r) := OnClientHello(c, p, id, st, f.payload, d);
      (st', if r.Some? then Some(Frame(APP_SERVER_HELLO, r.value)) else None)
    else if st.state.WaitClientFinished? && f.kind == APP_CLIENT_FINISHED then
      var (st', r) := OnClientFinished(c, p, st, f.payload);
      (st', if r.Some? then Some(Frame(APP_SERVER_FINISHED, r.value)) else None)
    else (Fail(st), None)
  }

  function ServerEnd(st: ServerState): End {
    End(Server, st.state.Established?, st.secrets.keys, st.sendSeq, st.recvSeq)
  }

  // ------------------------------------------------------------------ the client

  /** What the client knows after accepting a ServerHello. */
  datatype Pending = Pending(privateKey: bytes, hello: ClientHello, payload: bytes, serverPayload: bytes,
                             server: ServerHello, secrets: Secrets, verify: bytes)

  predicate ServerHelloValid(h: ServerHello) {
    && h.version == APP_SECURITY_VERSION && h.suite == SUITE && Sized(h)
    && |h.signature| == 64 && h.keyId != 0
  }

  function HelloOf(c: Crypto, privateKey: bytes, nonce: bytes, randomId: bytes): ClientHello {
    ClientHello(APP_SECURITY_VERSION, c.publicOf(privateKey), nonce, randomId, SUITE)
  }

  /** establish up to sending ClientFinished. */
  function OnServerHello(c: Crypto, p: Codec, privateKey: bytes, hello: ClientHello, f: Frame): Option<Pending>
    requires Sound(c)
  {
    if f.kind != APP_SERVER_HELLO || |f.payload| > MAX_HANDSHAKE then None
    else
      match p.parseServer(f.payload)
      case None => None
      case Some(h) =>
        if !ServerHelloValid(h) || c.pin(h.keyId).None? then None
        else
          var payload := p.encodeClient(hello);
          if !c.verify(c.pin(h.keyId).value, SigningTranscript(payload, h), h.signature) then None
          else
            match c.agree(privateKey, h.publicKey)
            case None => None
            case Some(secret) =>
              var transcript := c.hash(FinishedInput(payload, f.payload));
              var secrets := Derive(c, secret, hello.nonce, h.nonce, h.sessionId, transcript);
              Some(Pending(privateKey, hello, payload, f.payload, h, secrets,
                           c.hmac(secrets.clientFinished, transcript)))
  }

  /** The rest of establish: the channel's keys, or an exception. */
  function OnServerFinished(c: Crypto, p: Codec, w: Pending, f: Frame): Option<Keys> {
    if f.kind != APP_SERVER_FINISHED || |f.payload| > MAX_HANDSHAKE then None
    else
      match p.parseFinished(f.payload)
      case None => None
      case Some(v) =>
        if |v| != 32 || v != c.hmac(w.secrets.serverFinished, w.secrets.transcript + w.verify) then None
        else Some(w.secrets.keys)
  }

  /** Exactly when the server answers a handshake frame; every other frame closes the connection
      and leaves its secrets as they were. */
  lemma ServerAnswersExactlyWhen(c: Crypto, p: Codec, id: Identity, st: ServerState, f: Frame, d: Draw)
    requires Sound(c)
    ensures var (st', reply) := OnHandshakeFrame(c, p, id, st, f, d);
            && (reply.Some? <==>
                  && |f.payload| <= 1024
                  && (|| (st.state.WaitClientHello? && f.kind == 1036
                          && exists h ::
                               && p.parseClient(f.payload) == Some(h) && h.version == 1 && h.suite == 1
                               && |h.publicKey| == 32 && |h.nonce| == 32 && |h.randomId| == 16
                               && c.agree(d.privateKey, h.publicKey).Some?)
                      || (st.state.WaitClientFinished? && f.kind == 1038
                          && p.parseFinished(f.payload)
                             == Some(c.hmac(st.secrets.clientFinished, st.secrets.transcript)))))
            && (reply.None? ==> st' == st.(state := Closed))
            && (reply.Some? && st.state.WaitClientFinished? ==>
                  var proof := c.hmac(st.secrets.clientFinished, st.secrets.transcript);
                  && st' == st.(state := Established)
                  && reply.value
                     == Frame(1039, p.encodeFinished(c.hmac(st.secrets.serverFinished,
                                                            st.secrets.transcript + proof))))
  {
    hide SigningTranscript, FinishedInput, Derive;
  }

  /** Exactly when the client accepts a ServerHello: it is a ServerHello within the limit, its
      fields have their sizes, its key is pinned, the pinned key verifies the signature over
      this client's own hello, and the keys agree. */
  lemma ClientAcceptsExactlyWhen(c: Crypto, p: Codec, privateKey: bytes, hello: ClientHello, f: Frame)
    requires Sound(c)
    ensures OnServerHello(c, p, privateKey, hello, f).Some? <==>
              && f.kind == 1037 && |f.payload| <= 1024
              && exists h ::
                   && p.parseServer(f.payload) == Some(h) && h.version == 1 && h.suite == 1
                   && |h.publicKey| == 32 && |h.nonce| == 32 && |h.sessionId| == 16 && |h.signature| == 64
                   && h.keyId != 0 && c.pin(h.keyId).Some?
                   && c.verify(c.pin(h.keyId).value, SigningTranscript(p.encodeClient(hello), h), h.signature)
                   && c.agree(privateKey, h.publicKey).Some?
  {
    hide SigningTranscript, FinishedInput, Derive;
  }

  /** Exactly when the client takes the channel's keys into use. */
  lemma ClientFinishesExactlyWhen(c: Crypto, p: Codec, w: Pending, f: Frame)
    requires Sound(c)
    ensures OnServerFinished(c, p, w, f).Some? <==>
              && f.kind == 1039 && |f.payload| <= 1024
              && p.parseFinished(f.payload)
                 == Some(c.hmac(w.secrets.serverFinished, w.secrets.transcript + w.verify))
    ensures OnServerFinished(c, p, w, f).Some? ==> OnServerFinished(c, p, w, f).value == w.secrets.keys
  {
  }

  /** What an honest exchange needs: usable keys, a pinned key that verifies whatever the server's
      key signs, and hello payloads within the limit. */
  ghost predicate HonestParties(c: Crypto, p: Codec, id: Identity, privateKey: bytes, nonce: bytes, randomId: bytes,
      d: Draw)
    requires Sound(c)
  {
    && |nonce| == 32 && |randomId| == 16 && |d.nonce| == 32 && |d.sessionId| == 16 && id.keyId != 0
    && c.agree(privateKey, c.publicOf(d.privateKey)).Some?
    && var payload := p.encodeClient(HelloOf(c, privateKey, nonce, randomId));
       var h := ServerHelloFor(c, id, payload, d);
       && |payload| <= MAX_HANDSHAKE && |p.encodeServer(h)| <= MAX_HANDSHAKE && c.pin(id.keyId).Some?
       && forall t :: |c.sign(id.privateKey, t)| == 64
                      && c.verify(c.pin(id.keyId).value, t, c.sign(id.privateKey, t))
  }

  /** Completeness: over an honest network the handshake completes, with equal secrets. */
  lemma HonestHandshake(c: Crypto, p: Codec, id: Identity, st: ServerState, privateKey: bytes, nonce: bytes,
                        randomId: bytes, d: Draw)
    requires Sound(c) && RoundTrips(p) && HonestParties(c, p, id, privateKey, nonce, randomId, d)
    ensures var hello := HelloOf(c, privateKey, nonce, randomId);
            var payload := p.encodeClient(hello);
            var (s1, reply) := OnClientHello(c, p, id, st, payload, d);
            && reply == Some(p.encodeServer(ServerHelloFor(c, id, payload, d))) && s1.state.WaitClientFinished?
            && var w := OnServerHello(c, p, privateKey, hello, Frame(APP_SERVER_HELLO, reply.value));
            && w.Some? && w.value.secrets == s1.secrets && w.value.server == ServerHelloFor(c, id, payload, d)
            && var (s2, last) := OnClientFinished(c, p, s1, p.encodeFinished(w.value.verify));
            && s2 == s1.(state := Established) && last.Some?
            && (|last.value| <= MAX_HANDSHAKE ==>
                OnServerFinished(c, p, w.value, Frame(APP_SERVER_FINISHED, last.value)) == Some(s2.secrets.keys))
  {
    var hello := HelloOf(c, privateKey, nonce, randomId);
    var payload := p.encodeClient(hello);
    var h := ServerHelloFor(c, id, payload, d);
    assert p.parseClient(payload) == Some(hello) && p.parseServer(p.encodeServer(h)) == Some(h);
    assert c.agree(d.privateKey, hello.publicKey) == c.agree(privateKey, h.publicKey);
    assert SigningTranscript(payload, h) == SigningTranscript(payload, UnsignedHello(c, d, id.keyId));
    hide SigningTranscript, FinishedInput, Derive;
  }
}

/** Many server connections, one client attempt, and an adversary in between. */
module HandshakeRun {
  import opened Options
  import opened Bytes
  import opened Framing
  import opened Channel
  import opened Handshake

  datatype ClientPhase =
    | Idle
    | Helloed(privateKey: bytes, hello: ClientHello)
    | Waiting(w: Pending)
    | Done(w: Pending, keys: Keys)
    | Failed(was: Option<Pending>)

  /** What the client has accepted and sent its Finished for, even if it has failed since. */
  function Held(client: ClientPhase): Option<Pending> {
    match client
    case Waiting(w) => Some(w)
    case Done(w, _) => Some(w)
    case Failed(was) => was
    case _ => None
  }

  /** What a connection said: the payloads of both hellos, and what was drawn. */
  datatype Said = Said(clientPayload: bytes, clientHello: ClientHello, serverPayload: bytes, draw: Draw)

  datatype Conn = Conn(st: ServerState, said: Option<Said>, completed: bool)

  datatype Maker = ByClient | ByServer(id: nat) | ByAdversary

  datatype Mac = Mac(maker: Maker, key: bytes, data: bytes)

  datatype World = World(client: ClientPhase, conns: map<nat, Conn>, signed: set<bytes>, macs: set<Mac>)

  const Begin := World(Idle, map[], {}, {})

  datatype Action =
    | ClientStart(privateKey: bytes, nonce: bytes, randomId: bytes)
    | ServerReads(id: nat, frame: Frame, draw: Draw)
    | ClientReads(frame: Frame)
    | AdversaryMacs(key: bytes, data: bytes)

  function ConnOf(s: World, id: nat): Conn {
    if id in s.conns then s.conns[id] else Conn(NewServer.(state := WaitClientHello, tlsDone := true), None, false)
  }

  function ServerReadsStep(c: Crypto, p: Codec, me: Identity, s: World, id: nat, f: Frame, d: Draw): World
    requires Sound(c)
  {
    var conn := ConnOf(s, id);
    if conn.st.state.Established? || conn.st.state.Closed? then s
    else
      var (st, reply) := OnHandshakeFrame(c, p, me, conn.st, f, d);
      if reply.None? then s.(conns := s.conns[id := conn.(st := st)])
      else if reply.value.kind == APP_SERVER_HELLO then
        var said := Said(f.payload, p.parseClient(f.payload).GetOr(HelloOf(c, [], [], [])), reply.value.payload, d);
        s.(conns := s.conns[id := conn.(st := st, said := Some(said))],
           signed := s.signed + {SigningTranscript(f.payload, UnsignedHello(c, d, me.keyId))})
      else
        var verify := p.parseFinished(f.payload).GetOr([]);
        s.(conns := s.conns[id := conn.(st := st, completed := true)],
           macs := s.macs + {Mac(ByServer(id), st.secrets.serverFinished, st.secrets.transcript + verify)})
  }

  function ClientReadsStep(c: Crypto, p: Codec, s: World, f: Frame): World
    requires Sound(c)
  {
    match s.client
    case Helloed(privateKey, hello) =>
      (match OnServerHello(c, p, privateKey, hello, f)
       case None => s.(client := Failed(None))
       case Some(w) => s.(client := Waiting(w),
           macs := s.macs + {Mac(ByClient, w.secrets.clientFinished, w.secrets.transcript)}))
    case Waiting(w) =>
      (match OnServerFinished(c, p, w, f)
       case None => s.(client := Failed(Some(w)))
       case Some(keys) => s.(client := Done(w, keys)))
    case _ => s
  }

  function Step(c: Crypto, p: Codec, me: Identity, s: World, a: Action): World
    requires Sound(c)
  {
    match a
    case ClientStart(privateKey, nonce, randomId) =>
      if s.client.Idle? && |nonce| == 32 && |randomId| == 16
      then s.(client := Helloed(privateKey, HelloOf(c, privateKey, nonce, randomId)))
      else s
    case ServerReads(id, f, d) =>
      if |d.nonce| == 32 && |d.sessionId| == 16 then ServerReadsStep(c, p, me, s, id, f, d) else s
    case ClientReads(f) => ClientReadsStep(c, p, s, f)
    case AdversaryMacs(key, data) => s.(macs := s.macs + {Mac(ByAdversary, key, data)})
  }

  ghost predicate Made(s: World, key: bytes, data: bytes) {
    exists m :: m in s.macs && m.key == key && m.data == data
  }

  /** An ideal signature: if a pinned key verifies the signature that has arrived, over the
      transcript it arrived with, then the server has signed that transcript. */
  ghost predicate IdealSignature(c: Crypto, p: Codec, signed: set<bytes>, hello: ClientHello, f: Frame) {
    forall h :: p.parseServer(f.payload) == Some(h) ==>
      var t := SigningTranscript(p.encodeClient(hello), h);
      c.pin(h.keyId).Some? && c.verify(c.pin(h.keyId).value, t, h.signature) ==> t in signed
  }

  /** An ideal MAC: if the MAC of this key and these data has arrived, somebody has made it. */
  ghost predicate IdealMac(c: Crypto, p: Codec, s: World, f: Frame, key: bytes, data: bytes) {
    p.parseFinished(f.payload) == Some(c.hmac(key, data)) ==> Made(s, key, data)
  }

  /** What is assumed of the bytes each party is given to check, whatever it then does with them. */
  ghost predicate Ideal(c: Crypto, p: Codec, s: World, a: Action) {
    match a
    case ServerReads(id, f, _) =>
      var st := ConnOf(s, id).st;
      st.state.WaitClientFinished? ==> IdealMac(c, p, s, f, st.secrets.clientFinished, st.secrets.transcript)
    case ClientReads(f) =>
      && (s.client.Helloed? ==> IdealSignature(c, p, s.signed, s.client.hello, f))
      && (s.client.Waiting? ==>
            var w := s.client.w;
            IdealMac(c, p, s, f, w.secrets.serverFinished, w.secrets.transcript + w.verify))
    case _ => true
  }

  function Run(c: Crypto, p: Codec, me: Identity, actions: seq<Action>): World
    requires Sound(c)
  {
    if |actions| == 0 then Begin
    else Step(c, p, me, Run(c, p, me, actions[..|actions| - 1]), actions[|actions| - 1])
  }

  ghost predicate IdealRun(c: Crypto, p: Codec, me: Identity, actions: seq<Action>)
    requires Sound(c)
  {
    |actions| == 0
    || (IdealRun(c, p, me, actions[..|actions| - 1])
        && Ideal(c, p, Run(c, p, me, actions[..|actions| - 1]), actions[|actions| - 1]))
  }

  /** The secrets of a connection come from its hellos and its drawn key. */
  ghost predicate ConnInv(c: Crypto, p: Codec, me: Identity, conn: Conn)
    requires Sound(c)
  {
    && (conn.said.None? ==> !conn.completed && !conn.st.state.WaitClientFinished? && !conn.st.state.Established?)
    && (conn.said.Some? ==>
          !conn.st.state.WaitClientHello? && !conn.st.state.TlsHandshake?
          && SaidInv(c, p, me, conn.said.value, conn.st.secrets))
    && (conn.st.state.Established? ==> conn.completed)
    && (conn.completed ==> conn.st.state.Established?)
    && conn.st.sendSeq == conn.st.recvSeq == 0
  }

  ghost predicate SaidInv(c: Crypto, p: Codec, me: Identity, said: Said, secrets: Secrets)
    requires Sound(c)
  {
    && |said.clientPayload| <= MAX_HANDSHAKE
    && p.parseClient(said.clientPayload) == Some(said.clientHello) && ClientHelloValid(said.clientHello)
    && said.serverPayload == p.encodeServer(ServerHelloFor(c, me, said.clientPayload, said.draw))
    && |said.draw.nonce| == 32 && |said.draw.sessionId| == 16
    && c.agree(said.draw.privateKey, said.clientHello.publicKey).Some?
    && secrets == Derive(c, c.agree(said.draw.privateKey, said.clientHello.publicKey).value, said.clientHello.nonce,
                         said.draw.nonce, said.draw.sessionId,
                         c.hash(FinishedInput(said.clientPayload, said.serverPayload)))
  }

  /** What the client has checked before it sends its Finished, and what it derived. */
  ghost predicate PendingInv(c: Crypto, p: Codec, w: Pending)
    requires Sound(c)
  {
    && w.hello == HelloOf(c, w.privateKey, w.hello.nonce, w.hello.randomId)
    && w.payload == p.encodeClient(w.hello)
    && |w.serverPayload| <= MAX_HANDSHAKE && p.parseServer(w.serverPayload) == Some(w.server)
    && ServerHelloValid(w.server) && c.pin(w.server.keyId).Some?
    && c.verify(c.pin(w.server.keyId).value, SigningTranscript(w.payload, w.server), w.server.signature)
    && c.agree(w.privateKey, w.server.publicKey).Some?
    && w.secrets == Derive(c, c.agree(w.privateKey, w.server.publicKey).value, w.hello.nonce, w.server.nonce,
                           w.server.sessionId, c.hash(FinishedInput(w.payload, w.serverPayload)))
    && w.verify == c.hmac(w.secrets.clientFinished, w.secrets.transcript)
  }

  ghost predicate SignedBySomeone(c: Crypto, me: Identity, conns: map<nat, Conn>, t: bytes) {
    exists id :: id in conns && conns[id].said.Some?
      && t == SigningTranscript(conns[id].said.value.clientPayload,
          UnsignedHello(c, conns[id].said.value.draw, me.keyId))
      && |conns[id].said.value.draw.nonce| == 32 && |conns[id].said.value.draw.sessionId| == 16
      && |conns[id].said.value.clientPayload| <= MAX_HANDSHAKE
  }

  ghost predicate MacInv(s: World, m: Mac) {
    match m.maker
    case ByAdversary => true
    case ByClient =>
      && Held(s.client).Some?
      && m.key == Held(s.client).value.secrets.clientFinished
      && m.data == Held(s.client).value.secrets.transcript
      && |m.data| == 32
    case ByServer(id) =>
      && id in s.conns && s.conns[id].completed && s.conns[id].said.Some?
      && m.key == s.conns[id].st.secrets.serverFinished
      && |m.data| == 64 && m.data[..32] == s.conns[id].st.secrets.transcript
  }

  ghost predicate Inv(c: Crypto, p: Codec, me: Identity, s: World)
    requires Sound(c)
  {
    && (forall id :: id in s.conns ==> ConnInv(c, p, me, s.conns[id]))
    && (s.client.Helloed? ==>
          s.client.hello == HelloOf(c, s.client.privateKey, s.client.hello.nonce, s.client.hello.randomId))
    && (Held(s.client).Some? ==>
        && PendingInv(c, p, Held(s.client).value)
        && SigningTranscript(Held(s.client).value.payload, Held(s.client).value.server) in s.signed)
    && (s.client.Done? ==> s.client.keys == s.client.w.secrets.keys)
    && (s.client.Done? ==>
          Made(s, s.client.w.secrets.serverFinished, s.client.w.secrets.transcript + s.client.w.verify))
    && (forall id :: id in s.conns && s.conns[id].completed ==>
          Made(s, s.conns[id].st.secrets.clientFinished, s.conns[id].st.secrets.transcript))
    && (forall t :: t in s.signed ==> SignedBySomeone(c, me, s.conns, t))
    && (forall m :: m in s.macs ==> MacInv(s, m))
  }

  lemma MadeGrows(s: World, s': World, key: bytes, data: bytes)
    requires Made(s, key, data) && s.macs <= s'.macs
    ensures Made(s', key, data)
  {
    var m :| m in s.macs && m.key == key && m.data == data;
    assert m in s'.macs;
  }

  lemma TranscriptLength(c: Crypto, p: Codec, me: Identity, said: Said, secrets: Secrets)
    requires Sound(c) && SaidInv(c, p, me, said, secrets)
    ensures |secrets.transcript| == 32
  {
  }

  lemma ConnStepKeeps(c: Crypto, p: Codec, me: Identity, s: World, id: nat, f: Frame, d: Draw)
    requires Sound(c) && ConnInv(c, p, me, ConnOf(s, id))
    requires |d.nonce| == 32 && |d.sessionId| == 16
    ensures ConnInv(c, p, me, ConnOf(ServerReadsStep(c, p, me, s, id, f, d), id))
  {
    hide SigningTranscript, FinishedInput, Derive, HelloOf;
  }

  lemma SignedKeeps(c: Crypto, p: Codec, me: Identity, s: World, id: nat, f: Frame, d: Draw)
    requires Sound(c) && Inv(c, p, me, s)
    requires |d.nonce| == 32 && |d.sessionId| == 16
    ensures var s' := ServerReadsStep(c, p, me, s, id, f, d);
            forall t :: t in s'.signed ==> SignedBySomeone(c, me, s'.conns, t)
  {
    hide SigningTranscript, FinishedInput, Derive, HelloOf, PendingInv, MacInv, SaidInv;
    var s' := ServerReadsStep(c, p, me, s, id, f, d);
    assert id in s.conns ==> ConnInv(c, p, me, s.conns[id]);
    forall t | t in s'.signed ensures SignedBySomeone(c, me, s'.conns, t) {
      if t in s.signed {
        assert SignedBySomeone(c, me, s.conns, t);
        var i :| i in s.conns && s.conns[i].said.Some?
          && t == SigningTranscript(s.conns[i].said.value.clientPayload,
              UnsignedHello(c, s.conns[i].said.value.draw, me.keyId))
          && |s.conns[i].said.value.draw.nonce| == 32 && |s.conns[i].said.value.draw.sessionId| == 16
          && |s.conns[i].said.value.clientPayload| <= MAX_HANDSHAKE;
        assert i in s'.conns && s'.conns[i].said == s.conns[i].said;
      } else {
        assert id in s'.conns;
      }
    }
  }

  lemma MacsKeep(c: Crypto, p: Codec, me: Identity, s: World, id: nat, f: Frame, d: Draw)
    requires Sound(c) && Inv(c, p, me, s)
    ensures var s' := ServerReadsStep(c, p, me, s, id, f, d);
            forall m :: m in s'.macs ==> MacInv(s', m)
  {
    hide SigningTranscript, FinishedInput, Derive, HelloOf, PendingInv, SaidInv, SignedBySomeone, OnClientHello;
    var s' := ServerReadsStep(c, p, me, s, id, f, d);
    assert id in s.conns ==> ConnInv(c, p, me, s.conns[id]);
    forall m | m in s'.macs ensures MacInv(s', m) {
      if m in s.macs {
        assert MacInv(s, m);
      } else {
        TranscriptLength(c, p, me, ConnOf(s, id).said.value, ConnOf(s, id).st.secrets);
      }
    }
  }

  lemma CompletedKeeps(c: Crypto, p: Codec, me: Identity, s: World, id: nat, f: Frame, d: Draw, i: nat)
    requires Sound(c) && Inv(c, p, me, s) && Ideal(c, p, s, ServerReads(id, f, d))
    requires var s' := ServerReadsStep(c, p, me, s, id, f, d); i in s'.conns && s'.conns[i].completed
    ensures var s' := ServerReadsStep(c, p, me, s, id, f, d);
            Made(s', s'.conns[i].st.secrets.clientFinished, s'.conns[i].st.secrets.transcript)
  {
    hide SigningTranscript, FinishedInput, Derive, HelloOf, PendingInv, SaidInv, SignedBySomeone, OnClientHello, MacInv;
    var s' := ServerReadsStep(c, p, me, s, id, f, d);
    assert id in s.conns ==> ConnInv(c, p, me, s.conns[id]);
    MadeGrows(s, s', s'.conns[i].st.secrets.clientFinished, s'.conns[i].st.secrets.transcript);
  }

  lemma ServerReadsKeeps(c: Crypto, p: Codec, me: Identity, s: World, id: nat, f: Frame, d: Draw)
    requires Sound(c) && Inv(c, p, me, s) && Ideal(c, p, s, ServerReads(id, f, d))
    requires |d.nonce| == 32 && |d.sessionId| == 16
    ensures Inv(c, p, me, ServerReadsStep(c, p, me, s, id, f, d))
  {
    hide OnHandshakeFrame, MacInv, SignedBySomeone, PendingInv, SaidInv, SigningTranscript, HelloOf, Made;
    var s' := ServerReadsStep(c, p, me, s, id, f, d);
    assert id in s.conns ==> ConnInv(c, p, me, s.conns[id]);
    ConnStepKeeps(c, p, me, s, id, f, d);
    SignedKeeps(c, p, me, s, id, f, d);
    MacsKeep(c, p, me, s, id, f, d);
    forall i | i in s'.conns && s'.conns[i].completed
      ensures Made(s', s'.conns[i].st.secrets.clientFinished, s'.conns[i].st.secrets.transcript)
    {
      CompletedKeeps(c, p, me, s, id, f, d, i);
    }
    if s.client.Done? {
      MadeGrows(s, s', s.client.w.secrets.serverFinished, s.client.w.secrets.transcript + s.client.w.verify);
    }
  }

  /** The client's own step leaves what the server and the MACs of others say. */
  lemma ClientReadsMacs(c: Crypto, p: Codec, me: Identity, s: World, f: Frame)
    requires Sound(c) && Inv(c, p, me, s)
    ensures var s' := ClientReadsStep(c, p, s, f);
            && s'.conns == s.conns && s'.signed == s.signed && s.macs <= s'.macs
            && (forall m :: m in s'.macs ==> MacInv(s', m))
  {
    hide SigningTranscript, FinishedInput, HelloOf, ConnInv, SignedBySomeone, PendingInv, Made, OnServerFinished;
    var s' := ClientReadsStep(c, p, s, f);
    forall m | m in s'.macs ensures MacInv(s', m) {
      if m in s.macs {
        assert MacInv(s, m);
      }
    }
  }

  lemma AcceptedIsChecked(c: Crypto, p: Codec, privateKey: bytes, hello: ClientHello, f: Frame)
    requires Sound(c) && hello == HelloOf(c, privateKey, hello.nonce, hello.randomId)
    ensures var w := OnServerHello(c, p, privateKey, hello, f);
            w.Some? ==> PendingInv(c, p, w.value) && w.value.hello == hello && w.value.serverPayload == f.payload
  {
    hide SigningTranscript, FinishedInput;
  }

  lemma ClientReadsHeld(c: Crypto, p: Codec, me: Identity, s: World, f: Frame)
    requires Sound(c) && Inv(c, p, me, s) && Ideal(c, p, s, ClientReads(f))
    ensures var s' := ClientReadsStep(c, p, s, f);
            && (Held(s'.client).Some? ==>
                  && PendingInv(c, p, Held(s'.client).value)
                  && SigningTranscript(Held(s'.client).value.payload, Held(s'.client).value.server) in s'.signed)
            && (s'.client.Helloed? ==> s'.client == s.client)
            && (s'.client.Done? ==>
                  && s'.client.keys == s'.client.w.secrets.keys
                  && Made(s', s'.client.w.secrets.serverFinished, s'.client.w.secrets.transcript + s'.client.w.verify))
  {
    hide SigningTranscript, FinishedInput, HelloOf, ConnInv, SignedBySomeone, MacInv, Derive;
    if s.client.Helloed? {
      AcceptedIsChecked(c, p, s.client.privateKey, s.client.hello, f);
      hide OnServerHello;
    }
  }

  lemma ClientReadsKeeps(c: Crypto, p: Codec, me: Identity, s: World, f: Frame)
    requires Sound(c) && Inv(c, p, me, s) && Ideal(c, p, s, ClientReads(f))
    ensures Inv(c, p, me, ClientReadsStep(c, p, s, f))
  {
    hide SigningTranscript, FinishedInput, HelloOf, ConnInv, SignedBySomeone, MacInv, PendingInv, Made, Ideal,
        ClientReadsStep;
    var s' := ClientReadsStep(c, p, s, f);
    ClientReadsMacs(c, p, me, s, f);
    ClientReadsHeld(c, p, me, s, f);
    forall i | i in s'.conns && s'.conns[i].completed
      ensures Made(s', s'.conns[i].st.secrets.clientFinished, s'.conns[i].st.secrets.transcript)
    {
      MadeGrows(s, s', s'.conns[i].st.secrets.clientFinished, s'.conns[i].st.secrets.transcript);
    }
  }

  lemma StepKeeps(c: Crypto, p: Codec, me: Identity, s: World, a: Action)
    requires Sound(c) && Inv(c, p, me, s) && Ideal(c, p, s, a)
    ensures Inv(c, p, me, Step(c, p, me, s, a))
  {
    match a
    case ServerReads(id, f, d) =>
      if |d.nonce| == 32 && |d.sessionId| == 16 {
        ServerReadsKeeps(c, p, me, s, id, f, d);
      }
    case ClientReads(f) => ClientReadsKeeps(c, p, me, s, f);
    case ClientStart(_, _, _) => LocalKeeps(c, p, me, s, Step(c, p, me, s, a));
    case AdversaryMacs(_, _) => LocalKeeps(c, p, me, s, Step(c, p, me, s, a));
  }

  lemma LocalKeeps(c: Crypto, p: Codec, me: Identity, s: World, s': World)
    requires Sound(c) && Inv(c, p, me, s)
    requires s'.conns == s.conns && s'.signed == s.signed && s.macs <= s'.macs
    requires forall m :: m in s'.macs && m !in s.macs ==> m.maker.ByAdversary?
    requires s'.client == s.client || (s.client.Idle? && s'.client.Helloed?)
    requires s'.client.Helloed? ==>
             s'.client.hello == HelloOf(c, s'.client.privateKey, s'.client.hello.nonce, s'.client.hello.randomId)
    ensures Inv(c, p, me, s')
  {
    hide SigningTranscript, FinishedInput, HelloOf, ConnInv, SignedBySomeone, PendingInv;
    forall m | m in s'.macs ensures MacInv(s', m) {
      if m in s.macs {
        assert MacInv(s, m);
      }
    }
    forall i | i in s'.conns && s'.conns[i].completed
      ensures Made(s', s'.conns[i].st.secrets.clientFinished, s'.conns[i].st.secrets.transcript)
    {
      MadeGrows(s, s', s'.conns[i].st.secrets.clientFinished, s'.conns[i].st.secrets.transcript);
    }
    if s'.client.Done? {
      MadeGrows(s, s', s.client.w.secrets.serverFinished, s.client.w.secrets.transcript + s.client.w.verify);
    }
    assert forall t :: t in s'.signed ==> SignedBySomeone(c, me, s'.conns, t);
  }

  lemma {:induction false} RunKeeps(c: Crypto, p: Codec, me: Identity, actions: seq<Action>)
    requires Sound(c) && IdealRun(c, p, me, actions)
    ensures Inv(c, p, me, Run(c, p, me, actions))
  {
    if |actions| > 0 {
      RunKeeps(c, p, me, actions[..|actions| - 1]);
      StepKeeps(c, p, me, Run(c, p, me, actions[..|actions| - 1]), actions[|actions| - 1]);
    }
  }

  /** Every hello either side has gone on from has passed all its checks, and the secrets are
      derived from nothing else, whoever is in between and whatever can be forged. */
  ghost predicate Checked(c: Crypto, p: Codec, me: Identity, s: World)
    requires Sound(c)
  {
    && (forall id :: id in s.conns ==> ConnInv(c, p, me, s.conns[id]))
    && (s.client.Helloed? ==>
          s.client.hello == HelloOf(c, s.client.privateKey, s.client.hello.nonce, s.client.hello.randomId))
    && (Held(s.client).Some? ==> PendingInv(c, p, Held(s.client).value))
    && (s.client.Done? ==> s.client.keys == s.client.w.secrets.keys)
  }

  lemma StepIsChecked(c: Crypto, p: Codec, me: Identity, s: World, a: Action)
    requires Sound(c) && Checked(c, p, me, s)
    ensures Checked(c, p, me, Step(c, p, me, s, a))
  {
    hide SigningTranscript, FinishedInput, HelloOf, ConnInv, PendingInv, OnHandshakeFrame;
    match a
    case ServerReads(id, f, d) =>
      if |d.nonce| == 32 && |d.sessionId| == 16 {
        assert id in s.conns ==> ConnInv(c, p, me, s.conns[id]);
        NewConn(c, p, me);
        ConnStepKeeps(c, p, me, s, id, f, d);
      }
    case ClientReads(f) =>
      if s.client.Helloed? {
        AcceptedIsChecked(c, p, s.client.privateKey, s.client.hello, f);
      }
      hide OnServerHello;
    case ClientStart(privateKey, nonce, randomId) => StartsWell(c, privateKey, nonce, randomId);
    case AdversaryMacs(_, _) =>
  }

  lemma NewConn(c: Crypto, p: Codec, me: Identity)
    requires Sound(c)
    ensures ConnInv(c, p, me, Conn(NewServer.(state := WaitClientHello, tlsDone := true), None, false))
  {
  }

  lemma StartsWell(c: Crypto, privateKey: bytes, nonce: bytes, randomId: bytes)
    ensures var hello := HelloOf(c, privateKey, nonce, randomId);
            hello == HelloOf(c, privateKey, hello.nonce, hello.randomId)
  {
  }

  lemma {:induction false} RunIsChecked(c: Crypto, p: Codec, me: Identity, actions: seq<Action>)
    requires Sound(c)
    ensures Checked(c, p, me, Run(c, p, me, actions))
  {
    if |actions| > 0 {
      RunIsChecked(c, p, me, actions[..|actions| - 1]);
      StepIsChecked(c, p, me, Run(c, p, me, actions[..|actions| - 1]), actions[|actions| - 1]);
    }
  }

  /** The client's half of that in full: in any run whatever, a client that has sent its Finished
      holds a hello whose signature its pinned key verifies, and keys cut from the material that
      its own secret, both nonces, the session id and the hashed hellos give. */
  lemma ClientNeverSkipsACheck(c: Crypto, p: Codec, me: Identity, actions: seq<Action>)
    requires Sound(c) && Held(Run(c, p, me, actions).client).Some?
    ensures var w := Held(Run(c, p, me, actions).client).value;
            var h := w.server;
            && p.parseServer(w.serverPayload) == Some(h) && |w.serverPayload| <= 1024
            && h.version == 1 && h.suite == 1 && |h.publicKey| == 32 && |h.nonce| == 32 && |h.sessionId| == 16
            && |h.signature| == 64 && h.keyId != 0
            && c.pin(h.keyId).Some?
            && c.verify(c.pin(h.keyId).value, SigningTranscript(p.encodeClient(w.hello), h), h.signature)
            && c.agree(w.privateKey, h.publicKey).Some?
            && var transcript := c.hash(FinishedInput(p.encodeClient(w.hello), w.serverPayload));
               var material := c.hkdf(c.agree(w.privateKey, h.publicKey).value, c.hash(w.hello.nonce + h.nonce),
                                      CHANNEL_LABEL + h.sessionId + transcript);
               && w.secrets.keys == Keys(h.sessionId, material[..32], material[32..64],
                                         material[64..68], material[68..72])
               && w.secrets.clientFinished == material[72..104] && w.secrets.serverFinished == material[104..136]
               && w.verify == c.hmac(material[72..104], transcript)
  {
    RunIsChecked(c, p, me, actions);
    hide Run, SigningTranscript, FinishedInput, HelloOf, ConnInv;
  }

  /** The server's half: a connection past its hello has had a valid one, and keys cut in the
      same way. */
  lemma ServerNeverSkipsACheck(c: Crypto, p: Codec, me: Identity, actions: seq<Action>, id: nat)
    requires Sound(c)
    requires var s := Run(c, p, me, actions);
             id in s.conns && (s.conns[id].st.state.WaitClientFinished? || s.conns[id].st.state.Established?)
    ensures Run(c, p, me, actions).conns[id].said.Some?
    ensures var said, st := Run(c, p, me, actions).conns[id].said.value, Run(c, p, me, actions).conns[id].st;
            var hello := said.clientHello;
            && p.parseClient(said.clientPayload) == Some(hello) && |said.clientPayload| <= 1024
            && hello.version == 1 && hello.suite == 1
            && |hello.publicKey| == 32 && |hello.nonce| == 32 && |hello.randomId| == 16
            && c.agree(said.draw.privateKey, hello.publicKey).Some?
            && var transcript := c.hash(FinishedInput(said.clientPayload, said.serverPayload));
               var material := c.hkdf(c.agree(said.draw.privateKey, hello.publicKey).value,
                                      c.hash(hello.nonce + said.draw.nonce),
                                      CHANNEL_LABEL + said.draw.sessionId + transcript);
               && st.secrets.keys == Keys(said.draw.sessionId, material[..32], material[32..64],
                                          material[64..68], material[68..72])
               && st.secrets.clientFinished == material[72..104] && st.secrets.serverFinished == material[104..136]
               && st.secrets.transcript == transcript
  {
    RunIsChecked(c, p, me, actions);
    var conn := Run(c, p, me, actions).conns[id];
    assert ConnInv(c, p, me, conn);
    hide Run, SigningTranscript, FinishedInput, HelloOf, ServerHelloFor;
  }

  /** The connection answered with the server's own half of what the client accepted. */
  predicate Matches(w: Pending, said: Said) {
    said.clientPayload == w.payload && said.serverPayload == w.serverPayload
  }

  /** No collision of SHA-256 among the transcripts the run has hashed. */
  ghost predicate NoCollision(c: Crypto, s: World) {
    Held(s.client).Some? ==>
      var w := Held(s.client).value;
      forall id :: id in s.conns && s.conns[id].said.Some? ==>
        var said := s.conns[id].said.value;
        c.hash(FinishedInput(said.clientPayload, said.serverPayload))
            == c.hash(FinishedInput(w.payload, w.serverPayload))
        ==> FinishedInput(said.clientPayload, said.serverPayload) == FinishedInput(w.payload, w.serverPayload)
  }

  /** Secrecy of a key agreed with an ephemeral key of this server: the adversary makes no
      MAC under the Finished keys the client derives from it. */
  ghost predicate ClientKeysSecret(c: Crypto, s: World) {
    Held(s.client).Some? ==>
      var w := Held(s.client).value;
      (exists id :: id in s.conns && s.conns[id].said.Some?
         && w.server.publicKey == c.publicOf(s.conns[id].said.value.draw.privateKey))
      ==> forall m :: m in s.macs && m.maker.ByAdversary?
            ==> m.key != w.secrets.clientFinished && m.key != w.secrets.serverFinished
  }

  /** Equal transcripts make equal secrets: X25519 commutes and both cut the same material. */
  lemma SameTranscriptSameSecrets(c: Crypto, p: Codec, me: Identity, w: Pending, said: Said, secrets: Secrets)
    requires Sound(c) && RoundTrips(p) && PendingInv(c, p, w) && SaidInv(c, p, me, said, secrets)
    requires Matches(w, said)
    ensures secrets == w.secrets
  {
    hide SigningTranscript, FinishedInput, Cut;
    assert p.parseClient(p.encodeClient(w.hello)) == Some(w.hello);
    assert said.clientHello == w.hello;
    var h := ServerHelloFor(c, me, said.clientPayload, said.draw);
    assert p.parseServer(p.encodeServer(h)) == Some(h);
    assert w.server == h;
    assert c.agree(said.draw.privateKey, c.publicOf(w.privateKey))
           == c.agree(w.privateKey, c.publicOf(said.draw.privateKey));
  }

  lemma TranscriptOf(c: Crypto, p: Codec, w: Pending)
    requires Sound(c) && PendingInv(c, p, w)
    ensures w.secrets.transcript == c.hash(FinishedInput(w.payload, w.serverPayload))
    ensures |w.serverPayload| <= MAX_HANDSHAKE && ServerHelloValid(w.server)
    ensures |w.secrets.transcript| == |w.verify| == 32
  {
    hide SigningTranscript, FinishedInput;
  }

  lemma SameHashSamePayloads(c: Crypto, p: Codec, me: Identity, s: World, id: nat)
    requires Sound(c) && Inv(c, p, me, s) && NoCollision(c, s)
    requires Held(s.client).Some? && id in s.conns && s.conns[id].said.Some?
    requires s.conns[id].st.secrets.transcript == Held(s.client).value.secrets.transcript
    requires |Held(s.client).value.payload| < TWO32 && |s.conns[id].said.value.serverPayload| < TWO32
    ensures Matches(Held(s.client).value, s.conns[id].said.value)
  {
    var w, said := Held(s.client).value, s.conns[id].said.value;
    assert ConnInv(c, p, me, s.conns[id]);
    TranscriptOf(c, p, w);
    FinishedInputInjective(said.clientPayload, said.serverPayload, w.payload, w.serverPayload);
  }

  /** The accepted ServerHello was signed for a hello of this server, whose ephemeral public
      key it carries. */
  lemma AcceptedKeyIsTheServers(c: Crypto, p: Codec, me: Identity, s: World) returns (id: nat)
    requires Sound(c) && Inv(c, p, me, s) && Held(s.client).Some?
    requires |Held(s.client).value.payload| < TWO32 && Held(s.client).value.server.keyId < TWO32 && me.keyId < TWO32
    ensures id in s.conns && s.conns[id].said.Some?
    ensures var w, said := Held(s.client).value, s.conns[id].said.value;
            && w.server.publicKey == c.publicOf(said.draw.privateKey)
            && w.server.sessionId == said.draw.sessionId && w.server.nonce == said.draw.nonce
            && w.payload == said.clientPayload
  {
    var w := Held(s.client).value;
    TranscriptOf(c, p, w);
    hide SigningTranscript, PendingInv, ConnInv, MacInv;
    assert SignedBySomeone(c, me, s.conns, SigningTranscript(w.payload, w.server));
    id :| id in s.conns && s.conns[id].said.Some?
      && SigningTranscript(w.payload, w.server)
         == SigningTranscript(s.conns[id].said.value.clientPayload,
             UnsignedHello(c, s.conns[id].said.value.draw, me.keyId))
      && |s.conns[id].said.value.draw.nonce| == 32 && |s.conns[id].said.value.draw.sessionId| == 16
      && |s.conns[id].said.value.clientPayload| <= MAX_HANDSHAKE;
    SigningTranscriptInjective(w.payload, w.server, s.conns[id].said.value.clientPayload,
                               UnsignedHello(c, s.conns[id].said.value.draw, me.keyId));
  }

  /** Sizes a 32-bit field can hold. */
  ghost predicate Bounded(s: World, me: Identity) {
    && me.keyId < TWO32
    && (Held(s.client).Some? ==>
          |Held(s.client).value.payload| < TWO32 && Held(s.client).value.server.keyId < TWO32)
    && (forall id :: id in s.conns && s.conns[id].said.Some? ==> |s.conns[id].said.value.serverPayload| < TWO32)
  }

  /** Agreement, client side: in every ideal run, when the client has completed, some
      connection of the server has completed with the same hellos, session id, keys and
      nonce prefixes. */
  lemma ClientAgreement(c: Crypto, p: Codec, me: Identity, actions: seq<Action>) returns (id: nat)
    requires Sound(c) && RoundTrips(p) && IdealRun(c, p, me, actions)
    requires var s := Run(c, p, me, actions);
             s.client.Done? && NoCollision(c, s) && ClientKeysSecret(c, s) && Bounded(s, me)
    ensures var s := Run(c, p, me, actions);
            && id in s.conns && s.conns[id].completed && s.conns[id].said.Some?
            && Matches(s.client.w, s.conns[id].said.value)
            && s.conns[id].st.secrets == s.client.w.secrets
            && s.conns[id].st.secrets.keys == s.client.keys
  {
    RunKeeps(c, p, me, actions);
    var s := Run(c, p, me, actions);
    hide Run, IdealRun;
    var w := s.client.w;
    TranscriptOf(c, p, w);
    var honest := AcceptedKeyIsTheServers(c, p, me, s);
    var m :| m in s.macs && m.key == w.secrets.serverFinished && m.data == w.secrets.transcript + w.verify;
    assert MacInv(s, m);
    assert m.maker.ByServer?;
    id := m.maker.id;
    assert (w.secrets.transcript + w.verify)[..32] == w.secrets.transcript;
    SameHashSamePayloads(c, p, me, s, id);
    assert ConnInv(c, p, me, s.conns[id]);
    SameTranscriptSameSecrets(c, p, me, w, s.conns[id].said.value, s.conns[id].st.secrets);
  }

  /** Agreement, server side: when a connection has completed under a Finished key the
      adversary has not used, it was this client, with the same hellos, session id and keys,
      whether the client has completed too, is still waiting, or has failed since. */
  lemma ServerAgreement(c: Crypto, p: Codec, me: Identity, actions: seq<Action>, id: nat)
    requires Sound(c) && RoundTrips(p) && IdealRun(c, p, me, actions)
    requires var s := Run(c, p, me, actions);
             && NoCollision(c, s) && Bounded(s, me)
             && id in s.conns && s.conns[id].completed
             && (forall m :: m in s.macs && m.maker.ByAdversary? ==> m.key != s.conns[id].st.secrets.clientFinished)
    ensures var s := Run(c, p, me, actions);
            && Held(s.client).Some? && s.conns[id].said.Some?
            && Matches(Held(s.client).value, s.conns[id].said.value)
            && s.conns[id].st.secrets == Held(s.client).value.secrets
  {
    RunKeeps(c, p, me, actions);
    var s := Run(c, p, me, actions);
    hide Run, IdealRun;
    var secrets := s.conns[id].st.secrets;
    var m :| m in s.macs && m.key == secrets.clientFinished && m.data == secrets.transcript;
    assert MacInv(s, m);
    assert ConnInv(c, p, me, s.conns[id]);
    TranscriptLength(c, p, me, s.conns[id].said.value, secrets);
    assert m.maker.ByClient?;
    SameHashSamePayloads(c, p, me, s, id);
    SameTranscriptSameSecrets(c, p, me, Held(s.client).value, s.conns[id].said.value, secrets);
  }
}
