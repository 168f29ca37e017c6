// From the first hello to the last business frame: the handshake machine handed on to the
// channel, and a run that shows that the theorems about both speak of something.

module SecureSession {
  import opened Options
  import opened Bytes
  import opened Framing
  import opened Channel
  import opened Handshake
  import H = HandshakeRun
  import R = ChannelRun

  /** The two ends as a completed handshake leaves them. */
  function Opened(client: Keys, conn: H.Conn): R.Sys {
    R.Sys(End(Client, true, client, 0, 0), ServerEnd(conn.st), [], [], [], [], [])
  }

  /** What the handshake theorems need of a run. */
  ghost predicate Agreeable(c: Crypto, s: H.World, me: Identity) {
    H.NoCollision(c, s) && H.ClientKeysSecret(c, s) && H.Bounded(s, me)
  }

  lemma KeySizes(c: Crypto, p: Codec, w: Pending)
    requires Sound(c) && H.PendingInv(c, p, w)
    ensures |w.secrets.keys.clientPrefix| == |w.secrets.keys.serverPrefix| == 4
  {
    hide SigningTranscript, FinishedInput;
  }

  /** When the client has completed, it and a connection of the server are at the start of one
      and the same channel, provided the key material tells the two directions apart. */
  lemma HandshakeOpensChannel(c: Crypto, p: Codec, me: Identity, actions: seq<H.Action>) returns (id: nat)
    requires Sound(c) && RoundTrips(p) && H.IdealRun(c, p, me, actions)
    requires var s := H.Run(c, p, me, actions);
             && s.client.Done? && Agreeable(c, s, me)
             && (s.client.keys.clientKey != s.client.keys.serverKey
                 || s.client.keys.clientPrefix != s.client.keys.serverPrefix)
    ensures var s := H.Run(c, p, me, actions);
            && id in s.conns && s.conns[id].completed && s.conns[id].st.state.Established?
            && R.Start(Opened(s.client.keys, s.conns[id]))
  {
    id := H.ClientAgreement(c, p, me, actions);
    H.RunKeeps(c, p, me, actions);
    var s := H.Run(c, p, me, actions);
    hide H.Run, H.IdealRun, SigningTranscript, FinishedInput;
    assert H.ConnInv(c, p, me, s.conns[id]);
    KeySizes(c, p, s.client.w);
  }

  /** End to end: after a handshake under an active adversary, whatever the network then does
      to the frames, each end hands up a prefix of what the other sent, and no nonce repeats. */
  lemma EndToEnd(c: Crypto, p: Codec, me: Identity, actions: seq<H.Action>, traffic: seq<R.Action>) returns (id: nat)
    requires Sound(c) && RoundTrips(p) && H.IdealRun(c, p, me, actions)
    requires var s := H.Run(c, p, me, actions);
             && s.client.Done? && Agreeable(c, s, me)
             && (s.client.keys.clientKey != s.client.keys.serverKey
                 || s.client.keys.clientPrefix != s.client.keys.serverPrefix)
    ensures var s := H.Run(c, p, me, actions);
            && id in s.conns && s.conns[id].completed
            && var end := R.Run(Opened(s.client.keys, s.conns[id]), traffic);
            && end.serverGot <= end.clientSent && end.clientGot <= end.serverSent
            && (forall i, j ::
                  0 <= i < j < |end.log| && end.log[i].key in {s.client.keys.clientKey, s.client.keys.serverKey} ==>
                  end.log[i].key != end.log[j].key || end.log[i].nonce != end.log[j].nonce)
  {
    id := HandshakeOpensChannel(c, p, me, actions);
    var s := H.Run(c, p, me, actions);
    hide H.Run, H.IdealRun, R.Run, R.Start;
    var start := Opened(s.client.keys, s.conns[id]);
    R.DeliveredIsPrefix(start, traffic);
    forall i, j | 0 <= i < j < |R.Run(start, traffic).log|
                  && R.Run(start, traffic).log[i].key in {s.client.keys.clientKey, s.client.keys.serverKey}
      ensures R.Run(start, traffic).log[i].key != R.Run(start, traffic).log[j].key
           || R.Run(start, traffic).log[i].nonce != R.Run(start, traffic).log[j].nonce
    {
      R.NoncesAreFresh(start, traffic, i, j);
    }
  }

  // ------------------------------------------------------------------ an honest run

  /** The five actions of an honest exchange over connection 0. */
  function HonestActions(c: Crypto, p: Codec, me: Identity, privateKey: bytes, nonce: bytes, randomId: bytes, d: Draw)
    : seq<H.Action>
    requires Sound(c)
  {
    var hello := HelloOf(c, privateKey, nonce, randomId);
    var payload := p.encodeClient(hello);
    var (s1, reply) := OnClientHello(c, p, me, Waiting, payload, d);
    var answer := reply.GetOr([]);
    var w := OnServerHello(c, p, privateKey, hello, Frame(APP_SERVER_HELLO, answer));
    var verify := if w.Some? then p.encodeFinished(w.value.verify) else [];
    var last := OnClientFinished(c, p, s1, verify).1.GetOr([]);
    [H.ClientStart(privateKey, nonce, randomId),
     H.ServerReads(0, Frame(APP_CLIENT_HELLO, payload), d),
     H.ClientReads(Frame(APP_SERVER_HELLO, answer)),
     H.ServerReads(0, Frame(APP_CLIENT_FINISHED, verify), d),
     H.ClientReads(Frame(APP_SERVER_FINISHED, last))]
  }

  const Waiting := NewServer.(state := WaitClientHello, tlsDone := true)

  lemma FiveSteps(c: Crypto, p: Codec, me: Identity, a: seq<H.Action>)
    requires Sound(c) && |a| == 5
    ensures var s1 := H.Step(c, p, me, H.Begin, a[0]);
            var s2 := H.Step(c, p, me, s1, a[1]);
            var s3 := H.Step(c, p, me, s2, a[2]);
            var s4 := H.Step(c, p, me, s3, a[3]);
            && H.Run(c, p, me, a) == H.Step(c, p, me, s4, a[4])
            && (H.IdealRun(c, p, me, a) <==>
                && H.Ideal(c, p, H.Begin, a[0]) && H.Ideal(c, p, s1, a[1]) && H.Ideal(c, p, s2, a[2])
                && H.Ideal(c, p, s3, a[3]) && H.Ideal(c, p, s4, a[4]))
  {
    hide H.Step, H.Ideal;
    assert a[..4][..3] == a[..3] && a[..3][..2] == a[..2] && a[..2][..1] == a[..1] && a[..1][..0] == [];
    assert H.Run(c, p, me, []) == H.Begin;
    assert H.Run(c, p, me, a[..1]) == H.Step(c, p, me, H.Begin, a[0]);
    assert H.Run(c, p, me, a[..2]) == H.Step(c, p, me, H.Run(c, p, me, a[..1]), a[1]);
    assert H.Run(c, p, me, a[..3]) == H.Step(c, p, me, H.Run(c, p, me, a[..2]), a[2]);
    assert H.Run(c, p, me, a[..4]) == H.Step(c, p, me, H.Run(c, p, me, a[..3]), a[3]);
    assert H.IdealRun(c, p, me, a[..1]) == H.Ideal(c, p, H.Begin, a[0]);
    assert H.IdealRun(c, p, me, a[..2])
        == (H.IdealRun(c, p, me, a[..1]) && H.Ideal(c, p, H.Run(c, p, me, a[..1]), a[1]));
    assert H.IdealRun(c, p, me, a[..3])
        == (H.IdealRun(c, p, me, a[..2]) && H.Ideal(c, p, H.Run(c, p, me, a[..2]), a[2]));
    assert H.IdealRun(c, p, me, a[..4])
        == (H.IdealRun(c, p, me, a[..3]) && H.Ideal(c, p, H.Run(c, p, me, a[..3]), a[3]));
  }

  /** Honest parties meet every assumption of the agreement theorems: with their keys, the run
      of an honest exchange is ideal, collides nowhere, and completes at both ends. */
  lemma HonestRunCompletes(c: Crypto, p: Codec, me: Identity, privateKey: bytes, nonce: bytes, randomId: bytes, d: Draw)
    requires Sound(c) && RoundTrips(p) && HonestParties(c, p, me, privateKey, nonce, randomId, d)
    requires me.keyId < TWO32 && forall v :: |v| == 32 ==> |p.encodeFinished(v)| <= MAX_HANDSHAKE
    ensures var actions := HonestActions(c, p, me, privateKey, nonce, randomId, d);
            var s := H.Run(c, p, me, actions);
            && H.IdealRun(c, p, me, actions) && s.client.Done? && Agreeable(c, s, me)
            && s.client.w.privateKey == privateKey && s.client.w.server.sessionId == d.sessionId
            && s.client.keys == s.client.w.secrets.keys
  {
    var a := HonestActions(c, p, me, privateKey, nonce, randomId, d);
    HonestHandshake(c, p, me, Waiting, privateKey, nonce, randomId, d);
    FiveSteps(c, p, me, a);
    var hello := HelloOf(c, privateKey, nonce, randomId);
    var payload := p.encodeClient(hello);
    var h := ServerHelloFor(c, me, payload, d);
    var s1 := OnClientHello(c, p, me, Waiting, payload, d).0;
    var w := OnServerHello(c, p, privateKey, hello, Frame(APP_SERVER_HELLO, p.encodeServer(h))).value;
    var said := H.Said(payload, hello, p.encodeServer(h), d);
    Pieces(c, p, privateKey, hello, p.encodeServer(h), w);
    Greeted(c, p, me, privateKey, nonce, randomId, d, said, s1);
    Accepted(c, p, me, privateKey, hello, said, s1, w, payload, h, d);
    Closed(c, p, me, said, s1, w, d);
    hide H.Run, H.IdealRun, H.Ideal, H.Step, OnClientHello, OnServerHello, OnClientFinished, OnServerFinished;
    Gathered(c, me, said, s1, w);
  }

  lemma Pieces(c: Crypto, p: Codec, privateKey: bytes, hello: ClientHello, answer: bytes, w: Pending)
    requires Sound(c) && OnServerHello(c, p, privateKey, hello, Frame(APP_SERVER_HELLO, answer)) == Some(w)
    ensures w.privateKey == privateKey && w.hello == hello && w.payload == p.encodeClient(hello)
            && w.serverPayload == answer
    ensures p.parseServer(answer) == Some(w.server)
    ensures |w.verify| == 32 && w.verify == c.hmac(w.secrets.clientFinished, w.secrets.transcript)
  {
    hide SigningTranscript, FinishedInput;
  }

  function World1(c: Crypto, privateKey: bytes, hello: ClientHello): H.World {
    H.World(H.Helloed(privateKey, hello), map[], {}, {})
  }

  function World2(c: Crypto, me: Identity, privateKey: bytes, said: H.Said, s1: ServerState): H.World {
    H.World(H.Helloed(privateKey, said.clientHello), map[0 := H.Conn(s1, Some(said), false)],
            {SigningTranscript(said.clientPayload, UnsignedHello(c, said.draw, me.keyId))}, {})
  }

  function ClientMac(w: Pending): H.Mac { H.Mac(H.ByClient, w.secrets.clientFinished, w.secrets.transcript) }

  function ServerMac(s1: ServerState, w: Pending): H.Mac {
    H.Mac(H.ByServer(0), s1.secrets.serverFinished, s1.secrets.transcript + w.verify)
  }

  function World3(c: Crypto, me: Identity, said: H.Said, s1: ServerState, w: Pending): H.World {
    World2(c, me, w.privateKey, said, s1).(client := H.Waiting(w), macs := {ClientMac(w)})
  }

  function World4(c: Crypto, me: Identity, said: H.Said, s1: ServerState, w: Pending): H.World {
    World3(c, me, said, s1, w).(conns := map[0 := H.Conn(s1.(state := Established), Some(said), true)],
                                macs := {ClientMac(w), ServerMac(s1, w)})
  }

  lemma Greeted(c: Crypto, p: Codec, me: Identity, privateKey: bytes, nonce: bytes, randomId: bytes, d: Draw,
                said: H.Said, s1: ServerState)
    requires Sound(c) && RoundTrips(p) && HonestParties(c, p, me, privateKey, nonce, randomId, d)
    requires var hello := HelloOf(c, privateKey, nonce, randomId);
             var payload := p.encodeClient(hello);
             && said == H.Said(payload, hello, p.encodeServer(ServerHelloFor(c, me, payload, d)), d)
             && OnClientHello(c, p, me, Waiting, payload, d) == (s1, Some(said.serverPayload))
    ensures var a1, a2 := H.ClientStart(privateKey, nonce, randomId),
            H.ServerReads(0, Frame(APP_CLIENT_HELLO, said.clientPayload), d);
            && H.Step(c, p, me, H.Begin, a1) == World1(c, privateKey, said.clientHello)
            && H.Step(c, p, me, World1(c, privateKey, said.clientHello), a2) == World2(c, me, privateKey, said, s1)
            && H.Ideal(c, p, H.Begin, a1) && H.Ideal(c, p, World1(c, privateKey, said.clientHello), a2)
  {
    hide OnClientHello, SigningTranscript, OnClientFinished;
    assert p.parseClient(said.clientPayload) == Some(said.clientHello);
  }

  lemma Accepted(c: Crypto, p: Codec, me: Identity, privateKey: bytes, hello: ClientHello, said: H.Said,
                 s1: ServerState, w: Pending, payload: bytes, h: ServerHello, d: Draw)
    requires Sound(c) && OnServerHello(c, p, privateKey, hello, Frame(APP_SERVER_HELLO, said.serverPayload)) == Some(w)
    requires said.clientHello == hello && said.clientPayload == payload == w.payload && said.draw == d
    requires w.privateKey == privateKey && w.server == h == ServerHelloFor(c, me, payload, d)
    ensures var a3 := H.ClientReads(Frame(APP_SERVER_HELLO, said.serverPayload));
            && H.Step(c, p, me, World2(c, me, privateKey, said, s1), a3) == World3(c, me, said, s1, w)
            && H.Ideal(c, p, World2(c, me, privateKey, said, s1), a3)
  {
    Pieces(c, p, privateKey, hello, said.serverPayload, w);
    hide OnServerHello, OnServerFinished;
    assert SigningTranscript(w.payload, w.server) == SigningTranscript(payload, UnsignedHello(c, d, me.keyId));
    hide SigningTranscript;
  }

  lemma Closed(c: Crypto, p: Codec, me: Identity, said: H.Said, s1: ServerState, w: Pending, d: Draw)
    requires Sound(c) && RoundTrips(p) && s1.state.WaitClientFinished? && w.secrets == s1.secrets
    requires |d.nonce| == 32 && |d.sessionId| == 16
    requires |w.verify| == 32 && w.verify == c.hmac(w.secrets.clientFinished, w.secrets.transcript)
    requires forall v :: |v| == 32 ==> |p.encodeFinished(v)| <= MAX_HANDSHAKE
    ensures var verify := p.encodeFinished(w.verify);
            var last := OnClientFinished(c, p, s1, verify).1.GetOr([]);
            var a4, a5 := H.ServerReads(0, Frame(APP_CLIENT_FINISHED, verify), d),
                H.ClientReads(Frame(APP_SERVER_FINISHED, last));
            && H.Step(c, p, me, World3(c, me, said, s1, w), a4) == World4(c, me, said, s1, w)
            && H.Step(c, p, me, World4(c, me, said, s1, w), a5)
               == World4(c, me, said, s1, w).(client := H.Done(w, w.secrets.keys))
            && H.Ideal(c, p, World3(c, me, said, s1, w), a4) && H.Ideal(c, p, World4(c, me, said, s1, w), a5)
  {
    hide SigningTranscript, OnServerHello, OnClientHello;
    var verify := p.encodeFinished(w.verify);
    assert p.parseFinished(verify) == Some(w.verify);
    var proof := c.hmac(s1.secrets.serverFinished, s1.secrets.transcript + w.verify);
    assert p.parseFinished(p.encodeFinished(proof)) == Some(proof);
    assert OnClientFinished(c, p, s1, verify) == (s1.(state := Established), Some(p.encodeFinished(proof)));
    var m3, m4 := World3(c, me, said, s1, w), World4(c, me, said, s1, w);
    assert ClientMac(w) in m3.macs && ServerMac(s1, w) in m4.macs;
    assert m3.macs + {ServerMac(s1, w)} == m4.macs;
    assert m3.conns[0 := H.Conn(s1.(state := Established), Some(said), true)] == m4.conns;
  }

  lemma Gathered(c: Crypto, me: Identity, said: H.Said, s1: ServerState, w: Pending)
    requires said.clientPayload == w.payload && said.serverPayload == w.serverPayload
    requires me.keyId < TWO32 && |w.payload| < TWO32 && |w.serverPayload| < TWO32 && w.server.keyId < TWO32
    ensures Agreeable(c, World4(c, me, said, s1, w).(client := H.Done(w, w.secrets.keys)), me)
  {
    hide FinishedInput, SigningTranscript;
  }
}

/** A crypto, a codec and keys with which everything above can be had at once. */
module SecureSessionExample {
  import opened Options
  import opened Bytes
  import opened Channel
  import opened Handshake
  import H = HandshakeRun
  import R = ChannelRun
  import S = SecureSession

  function Fill(n: nat, b: byte): (r: bytes)
    ensures |r| == n
  {
    seq(n, i => b)
  }

  /** Key material of 136 different bytes. */
  function Material(): (r: bytes)
    ensures |r| == 136 && forall i :: 0 <= i < 136 ==> r[i] == i
  {
    seq(136, i requires 0 <= i < 136 => i)
  }

  function Toy(): Crypto {
    Crypto((k: bytes) => Fill(32, 9), (k: bytes, q: bytes) => Some(Fill(32, 7)), (x: bytes) => Fill(32, 5),
           (k: bytes, s: bytes, i: bytes) => Material(), (k: bytes, d: bytes) => Fill(32, 3),
           (k: bytes, d: bytes) => Fill(64, 2), (k: bytes, d: bytes, g: bytes) => true, (id: nat) => Some([1]))
  }

  /** A number as that many ones and a zero, and back. */
  function EncNat(n: nat): (r: bytes)
    ensures |r| == n + 1
  {
    if n == 0 then [0] else [1] + EncNat(n - 1)
  }

  function DecNat(b: bytes): Option<(nat, bytes)> {
    if |b| == 0 then None
    else if b[0] == 0 then Some((0, b[1..]))
    else
      var r := DecNat(b[1..]);
      if r.None? then None else Some((r.value.0 + 1, r.value.1))
  }

  lemma {:induction false} NatTrip(n: nat, rest: bytes)
    ensures DecNat(EncNat(n) + rest) == Some((n, rest))
  {
    var b := EncNat(n) + rest;
    if n == 0 {
      assert b[1..] == rest;
    } else {
      assert b[0] == 1 && b[1..] == EncNat(n - 1) + rest;
      NatTrip(n - 1, rest);
    }
  }

  function EncBytes(x: bytes): (r: bytes)
    ensures |r| == 2 * |x| + 1
  {
    EncNat(|x|) + x
  }

  function DecBytes(b: bytes): Option<(bytes, bytes)> {
    var n := DecNat(b);
    if n.None? || |n.value.1| < n.value.0 then None
    else Some((n.value.1[..n.value.0], n.value.1[n.value.0..]))
  }

  lemma BytesTrip(x: bytes, rest: bytes)
    ensures DecBytes(EncBytes(x) + rest) == Some((x, rest))
  {
    NatTrip(|x|, x + rest);
    assert EncBytes(x) + rest == EncNat(|x|) + (x + rest);
    assert (x + rest)[..|x|] == x && (x + rest)[|x|..] == rest;
  }

  function EncClient(h: ClientHello): bytes {
    EncNat(h.version) + (EncBytes(h.publicKey) + (EncBytes(h.nonce) + (EncBytes(h.randomId) + EncNat(h.suite))))
  }

  function DecClient(b: bytes): Option<ClientHello> {
    var v := DecNat(b);
    if v.None? then None else
    var k := DecBytes(v.value.1);
    if k.None? then None else
    var n := DecBytes(k.value.1);
    if n.None? then None else
    var r := DecBytes(n.value.1);
    if r.None? then None else
    var s := DecNat(r.value.1);
    if s.None? then None else Some(ClientHello(v.value.0, k.value.0, n.value.0, r.value.0, s.value.0))
  }

  lemma ClientTrip(h: ClientHello)
    ensures DecClient(EncClient(h)) == Some(h)
  {
    hide DecNat, EncNat, DecBytes, EncBytes;
    var s := EncNat(h.suite);
    assert s + [] == s;
    NatTrip(h.suite, []);
    BytesTrip(h.randomId, s);
    BytesTrip(h.nonce, EncBytes(h.randomId) + s);
    BytesTrip(h.publicKey, EncBytes(h.nonce) + (EncBytes(h.randomId) + s));
    NatTrip(h.version, EncBytes(h.publicKey) + (EncBytes(h.nonce) + (EncBytes(h.randomId) + s)));
  }

  /** A ServerHello as a ClientHello-like part followed by the key id and the signature. */
  function EncServer(h: ServerHello): bytes {
    EncBytes(EncClient(ClientHello(h.version, h.publicKey, h.nonce, h.sessionId, h.suite)))
      + (EncNat(h.keyId) + EncBytes(h.signature))
  }

  function DecServer(b: bytes): Option<ServerHello> {
    var part := DecBytes(b);
    if part.None? then None else
    var h := DecClient(part.value.0);
    if h.None? then None else
    var id := DecNat(part.value.1);
    if id.None? then None else
    var g := DecBytes(id.value.1);
    if g.None? then None
    else Some(ServerHello(h.value.version, h.value.publicKey, h.value.nonce, h.value.randomId, id.value.0, g.value.0,
        h.value.suite))
  }

  lemma ServerTrip(h: ServerHello)
    ensures DecServer(EncServer(h)) == Some(h)
  {
    hide DecNat, EncNat, DecBytes, EncBytes, DecClient, EncClient;
    var part := ClientHello(h.version, h.publicKey, h.nonce, h.sessionId, h.suite);
    assert EncBytes(h.signature) + [] == EncBytes(h.signature);
    BytesTrip(h.signature, []);
    NatTrip(h.keyId, EncBytes(h.signature));
    BytesTrip(EncClient(part), EncNat(h.keyId) + EncBytes(h.signature));
    ClientTrip(part);
  }

  function Plain(): Codec {
    Codec(EncClient, DecClient, EncServer, DecServer, (x: bytes) => x, (x: bytes) => Some(x))
  }

  lemma Usable()
    ensures Sound(Toy()) && RoundTrips(Plain())
  {
    forall m ensures DecClient(EncClient(m)) == Some(m) {
      ClientTrip(m);
    }
    forall m ensures DecServer(EncServer(m)) == Some(m) {
      ServerTrip(m);
    }
    hide DecClient, EncClient, DecServer, EncServer;
  }

  const ME := Identity([4], 1)

  function Drawn(): Draw { Draw([6], Fill(32, 8), Fill(16, 1)) }

  lemma Parties()
    requires Sound(Toy())
    ensures HonestParties(Toy(), Plain(), ME, [2], Fill(32, 6), Fill(16, 4), Drawn())
  {
    hide SigningTranscript, EncNat;
    var c, p := Toy(), Plain();
    var hello := HelloOf(c, [2], Fill(32, 6), Fill(16, 4));
    assert |EncClient(hello)| == 167;
    var payload := p.encodeClient(hello);
    var h := ServerHelloFor(c, ME, payload, Drawn());
    assert |h.signature| == 64;
    assert |EncServer(h)| <= MAX_HANDSHAKE;
  }

  lemma ToyKeys(w: Handshake.Pending)
    requires Sound(Toy()) && H.PendingInv(Toy(), Plain(), w)
    ensures w.secrets.keys.clientKey != w.secrets.keys.serverKey
  {
    hide SigningTranscript, FinishedInput, EncClient, EncServer, DecServer;
    assert w.secrets.keys.clientKey == Material()[..32] && w.secrets.keys.serverKey == Material()[32..64];
    assert w.secrets.keys.clientKey[0] == 0 && w.secrets.keys.serverKey[0] == 32;
  }

  /** All assumptions of the end-to-end theorem can be met together. */
  lemma EndToEndHappens()
    ensures Sound(Toy()) && RoundTrips(Plain())
    ensures var actions := S.HonestActions(Toy(), Plain(), ME, [2], Fill(32, 6), Fill(16, 4), Drawn());
            var s := H.Run(Toy(), Plain(), ME, actions);
            && H.IdealRun(Toy(), Plain(), ME, actions) && s.client.Done? && S.Agreeable(Toy(), s, ME)
            && s.client.keys.clientKey != s.client.keys.serverKey
  {
    Usable();
    Parties();
    S.HonestRunCompletes(Toy(), Plain(), ME, [2], Fill(32, 6), Fill(16, 4), Drawn());
    var actions := S.HonestActions(Toy(), Plain(), ME, [2], Fill(32, 6), Fill(16, 4), Drawn());
    hide S.HonestActions, H.Run, H.IdealRun, H.PendingInv, Sound, RoundTrips;
    H.RunKeeps(Toy(), Plain(), ME, actions);
    ToyKeys(H.Run(Toy(), Plain(), ME, actions).client.w);
  }
}
