/**
 * The CURVE handshake (curve_client.cpp, curve_client_tools.hpp, curve_server.cpp; ZeroMQ RFC 26/CURVEZMQ, the
 * HELLO, WELCOME, INITIATE and READY commands): layouts, state machines and counters of both sides.
 */
module CurveHandshake {
  import opened Wrappers
  import opened Bytes
  import opened CurveBox
  import opened CurveMessages
  import M = Metadata

  // ------------------------------------------------------------------ both sides

  datatype ClientState = SendHello | ExpectWelcome | SendInitiate | ExpectReady | ErrorReceived | Connected

  datatype ServerState =
    | WaitingForHello | SendingWelcome | WaitingForInitiate | SendingReady | Ready | SendingError | ErrorSent

  /** `side` has the counters and, once the peer's short-term key is known, the secret for messages. */
  datatype Client = Client(
    state: ClientState,
    side: Side,
    publicKey: Cells,
    cnPublic: Cells,
    serverKey: Cells,
    cnServer: Cells,
    cnCookie: Cells,
    checks: M.Checks,
    routingId: seq<Byte>,
    collected: M.Collected)

  datatype Server = Server(
    state: ServerState,
    side: Side,
    publicKey: Cells,
    cnPublic: Cells,
    cnSecret: Cells,
    cnClient: Cells,
    cookieKey: Cells,
    checks: M.Checks,
    routingId: seq<Byte>,
    collected: M.Collected)

  /** The metadata one side sends: its basic properties. */
  function Announcement(k: M.Checks, routingId: seq<Byte>): (r: Cells)
    requires |routingId| < 0x8000_0000
  {
    M.BasicLength(k.socketType, routingId);
    FromBytes(M.PrintAll(M.BasicProperties(k.socketType, routingId)))
  }

  /** A command that begins with the given name, whatever follows. */
  predicate Begins(msg: Cells, name: Cells) {
    |msg| >= |name| && msg[..|name|] == name
  }

  function Named(n: Byte, name: string): (r: Cells)
    ensures |r| == 1 + |name| && r[0] == B(n)
  {
    [B(n)] + Ascii(name)
  }

  function BoxNonce(prefix: string, short: Cells): Cells {
    Ascii(prefix) + short
  }

  // ------------------------------------------------------------------ HELLO

  /** produce_hello of the client tools. */
  function Hello(c: Client): (r: Cells)
    requires c.side.nonce < NONCE_LIMIT && |c.cnPublic| == 32
    ensures |r| == 200
  {
    (Named(5, "HELLO") + [B(1), B(0)] + Zeros(72)) + c.cnPublic + PutNonce(c.side.nonce)
    + Seal(c.cnPublic, c.serverKey, BoxNonce("CurveZMQHELLO---", PutNonce(c.side.nonce)), Zeros(64))
  }

  /** process_hello of the server. */
  function ProcessHello(s: Server, msg: Cells): (Server, Option<Failure>) {
    if !Structured(msg) then (s, Some(Malformed))
    else if !Begins(msg, Named(5, "HELLO")) then (s, Some(UnexpectedCommand))
    else if |msg| != 200 then (s, Some(Malformed))
    else if ByteOf(msg[6]) != 1 || ByteOf(msg[7]) != 0 then (s, Some(Malformed))
    else
      var t := s.(cnClient := msg[80..112], side := s.side.(peerNonce := GetNonce(msg[112..120])));
      match Open(s.publicKey, msg[80..112], BoxNonce("CurveZMQHELLO---", msg[112..120]), msg[120..])
      case None => (t, Some(Cryptographic))
      case Some(_) => (t.(state := SendingWelcome), None)
  }

  // ------------------------------------------------------------------ WELCOME

  /** The random bytes that produce_welcome draws. */
  datatype Fresh = Fresh(cookieKey: Cells, cookieNonce: Cells, welcomeNonce: Cells)

  predicate GoodFresh(f: Fresh) {
    |f.cookieKey| == 32 && |f.cookieNonce| == 16 && |f.welcomeNonce| == 16
  }

  function Cookie(s: Server, f: Fresh): (r: Cells)
    requires GoodFresh(f) && |s.cnClient| == 32 && |s.cnSecret| == 32
    ensures |r| == 96
  {
    f.cookieNonce + SealSecret(f.cookieKey, BoxNonce("COOKIE--", f.cookieNonce), s.cnClient + s.cnSecret)
  }

  /** produce_welcome. */
  function Welcome(s: Server, f: Fresh): (r: Cells)
    requires GoodFresh(f) && |s.cnClient| == 32 && |s.cnSecret| == 32 && |s.cnPublic| == 32
    ensures |r| == 168
  {
    Named(7, "WELCOME") + f.welcomeNonce
    + Seal(s.publicKey, s.cnClient, BoxNonce("WELCOME-", f.welcomeNonce), s.cnPublic + Cookie(s, f))
  }

  /** process_welcome of the client, which is not asked in which state it is. */
  function ProcessWelcome(c: Client, msg: Cells): (Client, Option<Failure>) {
    if |msg| != 168 then (c, Some(Cryptographic))
    else
      match Open(c.cnPublic, c.serverKey, BoxNonce("WELCOME-", msg[8..24]), msg[24..])
      case None => (c, Some(Cryptographic))
      case Some(plain) =>
        (c.(cnServer := plain[..32], cnCookie := plain[32..], side := c.side.(peer := plain[..32]),
          state := SendInitiate), None)
  }

  // ------------------------------------------------------------------ INITIATE

  /** Box [C',S](C->S'). */
  function Vouch(c: Client, vouchNonce: Cells): (r: Cells)
    requires |c.cnPublic| == 32 && |c.serverKey| == 32
    ensures |r| == 80
  {
    Seal(c.publicKey, c.cnServer, BoxNonce("VOUCH---", vouchNonce), c.cnPublic + c.serverKey)
  }

  function InitiatePlain(c: Client, vouchNonce: Cells): (r: Cells)
    requires |c.publicKey| == 32 && |c.cnPublic| == 32 && |c.serverKey| == 32 && |vouchNonce| == 16
    requires |c.routingId| < 0x8000_0000
    ensures |r| == 128 + |Announcement(c.checks, c.routingId)|
  {
    (c.publicKey + vouchNonce) + Vouch(c, vouchNonce) + Announcement(c.checks, c.routingId)
  }

  /** produce_initiate. */
  function Initiate(c: Client, vouchNonce: Cells): (r: Cells)
    requires |c.publicKey| == 32 && |c.cnPublic| == 32 && |c.serverKey| == 32 && |c.cnCookie| == 96
    requires |vouchNonce| == 16 && |c.routingId| < 0x8000_0000 && c.side.nonce < NONCE_LIMIT
    ensures |r| == 113 + 128 + 16 + M.BasicPropertiesLen(c.checks.socketType, |c.routingId|)
  {
    M.BasicLength(c.checks.socketType, c.routingId);
    Named(8, "INITIATE") + c.cnCookie + PutNonce(c.side.nonce)
    + Seal(c.cnPublic, c.cnServer, BoxNonce("CurveZMQINITIATE", PutNonce(c.side.nonce)), InitiatePlain(c, vouchNonce))
  }

  /** The longest metadata process_initiate has room for. */
  const MAX_METADATA: nat := 256

  /** What process_initiate finds wrong before it copies the box, if anything. */
  function InitiateRefused(s: Server, msg: Cells): (r: Option<Failure>)
    ensures r.None? ==> |msg| >= 257
  {
    if !Structured(msg) then Some(Malformed)
    else if !Begins(msg, Named(8, "INITIATE")) then Some(UnexpectedCommand)
    else if |msg| < 257 then Some(Malformed)
    else
      match OpenSecret(s.cookieKey, BoxNonce("COOKIE--", msg[9..25]), msg[25..105])
      case None => Some(Cryptographic)
      case Some(cookie) =>
        if cookie[..32] != s.cnClient || cookie[32..] != s.cnSecret then Some(Cryptographic) else None
  }

  /** process_initiate copies the box past the end of its buffers. */
  predicate Overruns(s: Server, msg: Cells) {
    |msg| > 257 + MAX_METADATA && InitiateRefused(s, msg).None?
  }

  /** process_initiate of the server, without ZAP. */
  function ProcessInitiate(s: Server, msg: Cells): (Server, Option<Failure>)
    requires !Overruns(s, msg)
  {
    match InitiateRefused(s, msg)
    case Some(why) => (s, Some(why))
    case None =>
      var t := s.(side := s.side.(peerNonce := GetNonce(msg[105..113])));
      match Open(s.cnPublic, s.cnClient, BoxNonce("CurveZMQINITIATE", msg[105..113]), msg[113..])
      case None => (t, Some(Cryptographic))
      case Some(plain) => ProcessVouch(t, plain)
  }

  /** The second half of process_initiate. */
  function ProcessVouch(s: Server, plain: Cells): (Server, Option<Failure>)
    requires |plain| >= 128
  {
    match Open(s.cnPublic, plain[..32], BoxNonce("VOUCH---", plain[32..48]), plain[48..128])
    case None => (s, Some(Cryptographic))
    case Some(vouch) =>
      if vouch[..32] != s.cnClient then (s, Some(KeyExchange))
      else
        var t := s.(side := s.side.(peer := s.cnClient), state := SendingReady);
        match M.Parse(s.checks, ToBytes(plain[128..]), s.collected)
        case Ok(collected) => (t.(collected := collected), None)
        case Malformed(collected) => (t.(collected := collected), Some(InvalidMetadata))
        case Refused(collected) => (t.(collected := collected), Some(InvalidMetadata))
  }

  // ------------------------------------------------------------------ READY

  /** produce_ready. */
  function ReadyCommand(s: Server): (r: Cells)
    requires |s.routingId| < 0x8000_0000 && s.side.nonce < NONCE_LIMIT
    ensures |r| == 14 + 16 + M.BasicPropertiesLen(s.checks.socketType, |s.routingId|)
  {
    M.BasicLength(s.checks.socketType, s.routingId);
    Named(5, "READY") + PutNonce(s.side.nonce)
    + Seal(s.side.me, s.side.peer, BoxNonce("CurveZMQREADY---", PutNonce(s.side.nonce)),
      Announcement(s.checks, s.routingId))
  }

  /** process_ready of the client. */
  function ProcessReady(c: Client, msg: Cells): (Client, Option<Failure>) {
    if |msg| < 30 then (c, Some(Malformed))
    else
      var d := c.(side := c.side.(peerNonce := GetNonce(msg[6..14])));
      match Open(c.side.me, c.side.peer, BoxNonce("CurveZMQREADY---", msg[6..14]), msg[14..])
      case None => (d, Some(Cryptographic))
      case Some(plain) =>
        match M.Parse(c.checks, ToBytes(plain), c.collected)
        case Ok(collected) => (d.(collected := collected, state := Connected), None)
        case Malformed(collected) => (d.(collected := collected), Some(InvalidMetadata))
        case Refused(collected) => (d.(collected := collected), Some(InvalidMetadata))
  }

  /** process_error. */
  function ProcessError(c: Client, msg: Cells): (Client, Option<Failure>) {
    if c.state != ExpectWelcome && c.state != ExpectReady then (c, Some(UnexpectedCommand))
    else if |msg| < 7 || ByteOf(msg[6]) as int > |msg| - 7 then (c, Some(Malformed))
    else (c.(state := ErrorReceived), None)
  }

  // ------------------------------------------------------------------ the two state machines

  predicate GoodClient(c: Client) {
    && |c.publicKey| == 32 && |c.cnPublic| == 32 && |c.serverKey| == 32 && |c.routingId| < 0x8000_0000
    && c.side.nonce + 1 < NONCE_LIMIT && c.side.me == c.cnPublic
    && (c.state == SendInitiate ==> |c.cnCookie| == 96)
  }

  /** next_handshake_command of the client. */
  function ClientNext(c: Client, vouchNonce: Cells): (Client, Option<Cells>)
    requires GoodClient(c) && |vouchNonce| == 16
  {
    match c.state
    case SendHello => (c.(state := ExpectWelcome, side := Sent(c.side)), Some(Hello(c)))
    case SendInitiate => (c.(state := ExpectReady, side := Sent(c.side)), Some(Initiate(c, vouchNonce)))
    case _ => (c, None)
  }

  /** process_handshake_command of the client goes by the name of the command. */
  function ClientProcess(c: Client, msg: Cells): (Client, Option<Failure>) {
    if Begins(msg, Named(7, "WELCOME")) then ProcessWelcome(c, msg)
    else if Begins(msg, Named(5, "READY")) then ProcessReady(c, msg)
    else if Begins(msg, Named(5, "ERROR")) then ProcessError(c, msg)
    else (c, Some(UnexpectedCommand))
  }

  predicate GoodServer(s: Server) {
    && |s.publicKey| == 32 && |s.cnPublic| == 32 && |s.cnSecret| == 32 && |s.routingId| < 0x8000_0000
    && s.side.nonce + 1 < NONCE_LIMIT && s.side.me == s.cnPublic
    && (s.state == SendingWelcome ==> |s.cnClient| == 32)
  }

  /** next_handshake_command of the server; `status` is the ZAP status code sent in an ERROR command. */
  function ServerNext(s: Server, f: Fresh, status: Cells): (Server, Option<Cells>)
    requires GoodServer(s) && GoodFresh(f)
  {
    match s.state
    case SendingWelcome => (s.(state := WaitingForInitiate, cookieKey := f.cookieKey), Some(Welcome(s, f)))
    case SendingReady => (s.(state := Ready, side := Sent(s.side)), Some(ReadyCommand(s)))
    case SendingError => (s.(state := ErrorSent), Some(Named(5, "ERROR") + [B(3)] + status))
    case _ => (s, None)
  }

  /** process_handshake_command of the server goes by its state. */
  function ServerProcess(s: Server, msg: Cells): (Server, Option<Failure>)
    requires s.state == WaitingForInitiate ==> !Overruns(s, msg)
  {
    match s.state
    case WaitingForHello => ProcessHello(s, msg)
    case WaitingForInitiate => ProcessInitiate(s, msg)
    case _ => (s, Some(BadState))
  }

  // ------------------------------------------------------------------ slices

  lemma Three(a: Cells, b: Cells, c: Cells)
    ensures (a + b + c)[..|a|] == a
    ensures (a + b + c)[|a|..|a| + |b|] == b
    ensures (a + b + c)[|a| + |b|..] == c
  {
  }

  lemma Four(a: Cells, b: Cells, c: Cells, d: Cells)
    ensures (a + b + c + d)[..|a|] == a
    ensures (a + b + c + d)[|a|..|a| + |b|] == b
    ensures (a + b + c + d)[|a| + |b|..|a| + |b| + |c|] == c
    ensures (a + b + c + d)[|a| + |b| + |c|..] == d
  {
  }

  // ------------------------------------------------------------------ each command is understood

  /** The server accepts the client's HELLO and knows its short-term key and counter. */
  lemma HelloAccepted(c: Client, s: Server)
    requires GoodClient(c) && c.serverKey == s.publicKey
    ensures ProcessHello(s, Hello(c)) ==
      (s.(cnClient := c.cnPublic, side := s.side.(peerNonce := c.side.nonce), state := SendingWelcome), None)
  {
    var head := Named(5, "HELLO") + [B(1), B(0)] + Zeros(72);
    var short := PutNonce(c.side.nonce);
    var box := Seal(c.cnPublic, c.serverKey, BoxNonce("CurveZMQHELLO---", short), Zeros(64));
    var msg := Hello(c);
    Four(head, c.cnPublic, short, box);
    NonceRoundTrip(c.side.nonce);
    OpensForPeer(c.cnPublic, c.serverKey, BoxNonce("CurveZMQHELLO---", short), Zeros(64));
    HelloHead();
    assert msg[..80] == head;
    assert forall i | 0 <= i < 80 :: msg[i] == head[i];
    assert msg[..6] == head[..6];
  }

  lemma HelloHead()
    ensures var head := Named(5, "HELLO") + [B(1), B(0)] + Zeros(72);
      |head| == 80 && head[0] == B(5) && head[..6] == Named(5, "HELLO") && head[6] == B(1) && head[7] == B(0)
  {
  }

  /** The client accepts the WELCOME, and has the server's short-term key and cookie. */
  lemma WelcomeAccepted(c: Client, s: Server, f: Fresh)
    requires GoodFresh(f) && |s.cnPublic| == 32 && |s.cnSecret| == 32 && |s.cnClient| == 32
    requires c.serverKey == s.publicKey && s.cnClient == c.cnPublic
    ensures ClientProcess(c, Welcome(s, f)) ==
      (c.(cnServer := s.cnPublic, cnCookie := Cookie(s, f), side := c.side.(peer := s.cnPublic), state := SendInitiate),
        None)
  {
    var plain := s.cnPublic + Cookie(s, f);
    var box := Seal(s.publicKey, s.cnClient, BoxNonce("WELCOME-", f.welcomeNonce), plain);
    Three(Named(7, "WELCOME"), f.welcomeNonce, box);
    OpensForPeer(s.publicKey, s.cnClient, BoxNonce("WELCOME-", f.welcomeNonce), plain);
    assert plain[..32] == s.cnPublic && plain[32..] == Cookie(s, f);
  }

  const NOTHING := M.Collected(map[], None)

  /** What one side makes of the other's announcement. */
  function Heard(k: M.Checks, t: M.SocketType, routingId: seq<Byte>): M.Outcome
    requires |routingId| < 0x8000_0000
  {
    M.BasicLength(t, routingId);
    M.Parse(k, M.PrintAll(M.BasicProperties(t, routingId)), NOTHING)
  }

  lemma AnnouncementHeard(k: M.Checks, other: M.Checks, routingId: seq<Byte>)
    requires |routingId| < 0x8000_0000
    ensures M.Parse(k, ToBytes(Announcement(other, routingId)), NOTHING) == Heard(k, other.socketType, routingId)
  {
    M.BasicLength(other.socketType, routingId);
    BytesRoundTrip(M.PrintAll(M.BasicProperties(other.socketType, routingId)));
  }

  function Verdict(o: M.Outcome): Option<Failure> {
    if o.Ok? then None else Some(InvalidMetadata)
  }

  lemma CookieOpens(s: Server, f: Fresh)
    requires GoodFresh(f) && |s.cnSecret| == 32 && |s.cnClient| == 32
    ensures OpenSecret(f.cookieKey, BoxNonce("COOKIE--", Cookie(s, f)[..16]), Cookie(s, f)[16..])
      == Some(s.cnClient + s.cnSecret)
    ensures (s.cnClient + s.cnSecret)[..32] == s.cnClient && (s.cnClient + s.cnSecret)[32..] == s.cnSecret
  {
    assert Cookie(s, f)[..16] == f.cookieNonce;
    assert Cookie(s, f)[16..] == SealSecret(f.cookieKey, BoxNonce("COOKIE--", f.cookieNonce), s.cnClient + s.cnSecret);
    OpensSecret(f.cookieKey, BoxNonce("COOKIE--", f.cookieNonce), s.cnClient + s.cnSecret);
  }

  lemma PlainParts(c: Client, vouchNonce: Cells)
    requires GoodClient(c) && |vouchNonce| == 16
    ensures var plain := InitiatePlain(c, vouchNonce);
      plain[..32] == c.publicKey && plain[32..48] == vouchNonce && plain[48..128] == Vouch(c, vouchNonce)
      && plain[128..] == Announcement(c.checks, c.routingId)
  {
    Four(c.publicKey, vouchNonce, Vouch(c, vouchNonce), Announcement(c.checks, c.routingId));
  }

  lemma VouchAccepted(c: Client, s: Server, vouchNonce: Cells)
    requires GoodClient(c) && |vouchNonce| == 16
    requires c.cnServer == s.cnPublic && s.cnClient == c.cnPublic && s.collected == NOTHING
    ensures var heard := Heard(s.checks, c.checks.socketType, c.routingId);
      ProcessVouch(s, InitiatePlain(c, vouchNonce)) ==
        (s.(side := s.side.(peer := s.cnClient), state := SendingReady, collected := heard.c), Verdict(heard))
  {
    PlainParts(c, vouchNonce);
    var inside := c.cnPublic + c.serverKey;
    OpensForPeer(c.publicKey, c.cnServer, BoxNonce("VOUCH---", vouchNonce), inside);
    assert inside[..32] == c.cnPublic;
    AnnouncementHeard(s.checks, c.checks, c.routingId);
  }

  lemma InitiateParts(c: Client, vouchNonce: Cells)
    requires GoodClient(c) && |c.cnCookie| == 96 && |vouchNonce| == 16
    ensures var msg := Initiate(c, vouchNonce);
      && Structured(msg) && Begins(msg, Named(8, "INITIATE")) && msg[9..25] == c.cnCookie[..16]
      && msg[25..105] == c.cnCookie[16..]
      && msg[105..113] == PutNonce(c.side.nonce)
      && msg[113..] == Seal(c.cnPublic, c.cnServer, BoxNonce("CurveZMQINITIATE", PutNonce(c.side.nonce)),
           InitiatePlain(c, vouchNonce))
  {
    var short := PutNonce(c.side.nonce);
    var box := Seal(c.cnPublic, c.cnServer, BoxNonce("CurveZMQINITIATE", short), InitiatePlain(c, vouchNonce));
    var msg := Initiate(c, vouchNonce);
    Four(Named(8, "INITIATE"), c.cnCookie, short, box);
    assert msg[9..25] == msg[9..105][..16] && msg[25..105] == msg[9..105][16..];
  }

  /** Nothing is wrong with the INITIATE of that client up to the copying of the box. */
  lemma InitiateNotRefused(c: Client, s: Server, f: Fresh, vouchNonce: Cells)
    requires GoodClient(c) && GoodServer(s) && GoodFresh(f) && |vouchNonce| == 16
    requires s.cnClient == c.cnPublic && s.cookieKey == f.cookieKey && c.cnCookie == Cookie(s, f)
    ensures InitiateRefused(s, Initiate(c, vouchNonce)).None?
  {
    InitiateParts(c, vouchNonce);
    CookieOpens(s, f);
  }

  /** The server opens the INITIATE of the client to which it has given its cookie, whatever the metadata are;
      whether it goes on depends on the metadata alone. */
  lemma InitiateAccepted(c: Client, s: Server, f: Fresh, vouchNonce: Cells)
    requires GoodClient(c) && GoodServer(s) && GoodFresh(f) && |vouchNonce| == 16
    requires s.cnClient == c.cnPublic && s.cookieKey == f.cookieKey && s.collected == NOTHING
    requires c.cnServer == s.cnPublic && c.cnCookie == Cookie(s, f)
    requires M.BasicPropertiesLen(c.checks.socketType, |c.routingId|) <= MAX_METADATA
    ensures var heard := Heard(s.checks, c.checks.socketType, c.routingId);
      ProcessInitiate(s, Initiate(c, vouchNonce)) ==
        (s.(side := s.side.(peerNonce := c.side.nonce, peer := s.cnClient), state := SendingReady,
          collected := heard.c),
         Verdict(heard))
  {
    InitiateParts(c, vouchNonce);
    InitiateNotRefused(c, s, f, vouchNonce);
    NonceRoundTrip(c.side.nonce);
    OpensForPeer(c.cnPublic, c.cnServer, BoxNonce("CurveZMQINITIATE", PutNonce(c.side.nonce)),
      InitiatePlain(c, vouchNonce));
    VouchAccepted(c, s.(side := s.side.(peerNonce := c.side.nonce)), vouchNonce);
  }

  /** The client opens the READY of the server it has a secret with; whether it goes on depends on the metadata
      alone. */
  lemma ReadyAccepted(c: Client, s: Server)
    requires GoodServer(s) && c.side.peer == s.side.me && s.side.peer == c.side.me && c.collected == NOTHING
    ensures var heard := Heard(c.checks, s.checks.socketType, s.routingId);
      ClientProcess(c, ReadyCommand(s)) ==
        (c.(side := c.side.(peerNonce := s.side.nonce), collected := heard.c, state := if heard.Ok? then Connected
          else c.state),
         Verdict(heard))
  {
    var short := PutNonce(s.side.nonce);
    var box := Seal(s.side.me, s.side.peer, BoxNonce("CurveZMQREADY---", short), Announcement(s.checks, s.routingId));
    var msg := ReadyCommand(s);
    Three(Named(5, "READY"), short, box);
    assert Begins(msg, Named(5, "READY")) && msg[0] == B(5);
    assert msg[..8][0] == B(5) && Named(7, "WELCOME")[0] == B(7);
    NonceRoundTrip(s.side.nonce);
    OpensForPeer(s.side.me, s.side.peer, BoxNonce("CurveZMQREADY---", short), Announcement(s.checks, s.routingId));
    AnnouncementHeard(c.checks, s.checks, s.routingId);
  }

  /** A client that waits for the server takes its ERROR as the end of the handshake, with nothing else changed, and
      any other client takes it as a fault of the protocol. */
  lemma ErrorAccepted(c: Client, s: Server, f: Fresh, status: Cells)
    requires GoodServer(s) && GoodFresh(f) && s.state == SendingError && |status| == 3
    ensures var (r, cmd) := ServerNext(s, f, status);
      && r == s.(state := ErrorSent) && cmd.Some?
      && ClientProcess(c, cmd.value) ==
           if c.state == ExpectWelcome || c.state == ExpectReady then (c.(state := ErrorReceived), None)
           else (c, Some(UnexpectedCommand))
  {
    var msg := ServerNext(s, f, status).1.value;
    var name := Named(5, "ERROR");
    Three(name, [B(3)], status);
    assert msg[..6] == name && msg[6] == B(3) && |msg| == 10;
    assert msg[1] == name[1] == B('E' as int % 256);
    assert Begins(msg, name) && msg[0] == B(5);
    assert msg[..8][0] == B(5) && Named(7, "WELCOME")[0] == B(7);
    assert msg[..6][1] != Named(5, "READY")[1];
  }
}
