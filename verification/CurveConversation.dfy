/**
 * A whole CURVE conversation: an honest client and an honest server, one FIFO queue in each direction, from the
 * first HELLO through any number of messages both ways, in every interleaving.
 */
module CurveConversation {
  import opened Wrappers
  import opened Bytes
  import opened CurveBox
  import opened CurveMessages
  import opened CurveHandshake
  import M = Metadata

  /** The two sides, the commands on their way, what the applications have sent and received, the nonces used
      by each side so far, and the random values drawn for WELCOME and INITIATE. */
  datatype Conversation = Conversation(
    client: Client,
    server: Server,
    toServer: seq<Cells>,
    toClient: seq<Cells>,
    clientSent: seq<Frame>,
    serverSent: seq<Frame>,
    clientGot: seq<Frame>,
    serverGot: seq<Frame>,
    clientNonces: seq<nat>,
    serverNonces: seq<nat>,
    drawn: Fresh,
    vouchNonce: Cells,
    failed: bool)

  datatype Action =
    | ClientTurn(vouchNonce: Cells)
    | ServerTurn(drawn: Fresh)
    | ClientWrites(f: Frame)
    | ServerWrites(f: Frame)
    | ToServer
    | ToClient

  predicate Allowed(c: Conversation, op: Action) {
    !c.failed &&
    match op
    case ClientTurn(v) => |v| == 16
    case ServerTurn(f) => GoodFresh(f)
    case ClientWrites(_) => c.client.state == Connected && c.client.side.nonce + 2 < NONCE_LIMIT
    case ServerWrites(_) => c.server.state == Ready && c.server.side.nonce + 2 < NONCE_LIMIT
    case ToServer => c.toServer != []
    case ToClient => c.toClient != []
  }

  /** An INITIATE is about to arrive that process_initiate copies past the end of its buffers. */
  predicate Overflows(c: Conversation) {
    c.server.state == WaitingForInitiate && c.toServer != [] && Overruns(c.server, c.toServer[0])
  }

  predicate Sound(c: Conversation) {
    GoodClient(c.client) && GoodServer(c.server) && !Overflows(c)
  }

  function TurnOfClient(c: Conversation, v: Cells): Conversation
    requires Sound(c) && |v| == 16
  {
    match ClientNext(c.client, v)
    case (_, None) => c
    case (d, Some(command)) =>
      c.(client := d, vouchNonce := v, toServer := c.toServer + [command],
        clientNonces := c.clientNonces + [c.client.side.nonce])
  }

  function TurnOfServer(c: Conversation, f: Fresh): Conversation
    requires Sound(c) && GoodFresh(f)
  {
    match ServerNext(c.server, f, [])
    case (_, None) => c
    case (t, Some(command)) =>
      c.(server := t, toClient := c.toClient + [command],
         drawn := if c.server.state == SendingWelcome then f else c.drawn,
         serverNonces := if c.server.state == SendingReady then c.serverNonces + [c.server.side.nonce]
           else c.serverNonces)
  }

  /** A command arrives: a handshake command until the handshake is done, a message afterwards. */
  function ArriveAtServer(c: Conversation): Conversation
    requires Sound(c) && c.toServer != []
  {
    var d := c.(toServer := c.toServer[1..]);
    if c.server.state == Ready then
      match Decoded(c.server.side, c.toServer[0])
      case (side, Accepted(f)) => d.(server := c.server.(side := side), serverGot := c.serverGot + [f])
      case (side, Refused(_)) => d.(server := c.server.(side := side), failed := true)
    else
      match ServerProcess(c.server, c.toServer[0])
      case (t, None) => d.(server := t)
      case (t, Some(_)) => d.(server := t, failed := true)
  }

  function ArriveAtClient(c: Conversation): Conversation
    requires c.toClient != []
  {
    var d := c.(toClient := c.toClient[1..]);
    if c.client.state == Connected then
      match Decoded(c.client.side, c.toClient[0])
      case (side, Accepted(f)) => d.(client := c.client.(side := side), clientGot := c.clientGot + [f])
      case (side, Refused(_)) => d.(client := c.client.(side := side), failed := true)
    else
      match ClientProcess(c.client, c.toClient[0])
      case (t, None) => d.(client := t)
      case (t, Some(_)) => d.(client := t, failed := true)
  }

  function Step(c: Conversation, op: Action): Conversation
    requires Sound(c) && Allowed(c, op)
  {
    match op
    case ClientTurn(v) => TurnOfClient(c, v)
    case ServerTurn(f) => TurnOfServer(c, f)
    case ClientWrites(f) =>
      c.(client := c.client.(side := Sent(c.client.side)), clientSent := c.clientSent + [f],
         toServer := c.toServer + [Message(c.client.side, f)], clientNonces := c.clientNonces + [c.client.side.nonce])
    case ServerWrites(f) =>
      c.(server := c.server.(side := Sent(c.server.side)), serverSent := c.serverSent + [f],
         toClient := c.toClient + [Message(c.server.side, f)], serverNonces := c.serverNonces + [c.server.side.nonce])
    case ToServer => ArriveAtServer(c)
    case ToClient => ArriveAtClient(c)
  }

  // ------------------------------------------------------------------ the beginning

  predicate Start(c: Conversation) {
    && GoodClient(c.client) && GoodServer(c.server) && c.client.serverKey == c.server.publicKey
    && c.client.state == SendHello && c.client.collected == NOTHING
    && c.client.side == Side(1, 1, c.client.cnPublic, [], Ascii("CurveZMQMESSAGEC"), Ascii("CurveZMQMESSAGES"))
    && c.server.state == WaitingForHello && c.server.collected == NOTHING
    && c.server.side == Side(1, 1, c.server.cnPublic, [], Ascii("CurveZMQMESSAGES"), Ascii("CurveZMQMESSAGEC"))
    && c.toServer == [] && c.toClient == []
    && c.clientSent == [] && c.serverSent == [] && c.clientGot == [] && c.serverGot == []
    && c.clientNonces == [] && c.serverNonces == [] && !c.failed && GoodFresh(c.drawn) && |c.vouchNonce| == 16
  }

  /** The client's announcement fits into the buffers of process_initiate. */
  predicate Roomy(start: Conversation) {
    M.BasicPropertiesLen(start.client.checks.socketType, |start.client.routingId|) <= MAX_METADATA
  }

  /** What the server makes of the client's announcement, and the other way round. */
  function ServerHears(start: Conversation): M.Outcome
    requires Start(start)
  {
    Heard(start.server.checks, start.client.checks.socketType, start.client.routingId)
  }

  function ClientHears(start: Conversation): M.Outcome
    requires Start(start)
  {
    Heard(start.client.checks, start.server.checks.socketType, start.server.routingId)
  }

  // ------------------------------------------------------------------ the stages of the handshake

  /** The server with the HELLO, after the WELCOME, with the INITIATE, and after the READY. */
  function Server1(start: Conversation): Server
    requires Start(start)
  {
    start.server.(cnClient := start.client.cnPublic, state := SendingWelcome)
  }

  function Server2(start: Conversation, f: Fresh): Server
    requires Start(start)
  {
    Server1(start).(cookieKey := f.cookieKey, state := WaitingForInitiate)
  }

  function Server3(start: Conversation, f: Fresh): Server
    requires Start(start)
  {
    var t := Server2(start, f);
    t.(side := t.side.(peerNonce := 2, peer := start.client.cnPublic), state := SendingReady,
      collected := ServerHears(start).c)
  }

  function Server4(start: Conversation, f: Fresh, sent: nat, got: nat): Server
    requires Start(start)
  {
    var t := Server3(start, f);
    t.(side := t.side.(nonce := 2 + sent, peerNonce := 2 + got), state := Ready)
  }

  /** The client after the HELLO, with the WELCOME, after the INITIATE, and with the READY. */
  function Client1(start: Conversation): Client
    requires Start(start)
  {
    start.client.(side := Sent(start.client.side), state := ExpectWelcome)
  }

  function Client2(start: Conversation, f: Fresh): Client
    requires Start(start) && GoodFresh(f)
  {
    var d := Client1(start);
    d.(cnServer := start.server.cnPublic, cnCookie := Cookie(Server1(start), f),
       side := d.side.(peer := start.server.cnPublic), state := SendInitiate)
  }

  function Client3(start: Conversation, f: Fresh): Client
    requires Start(start) && GoodFresh(f)
  {
    Client2(start, f).(side := Sent(Client2(start, f).side), state := ExpectReady)
  }

  function Client4(start: Conversation, f: Fresh, sent: nat, got: nat): Client
    requires Start(start) && GoodFresh(f)
  {
    var d := Client3(start, f);
    d.(side := d.side.(nonce := 3 + sent, peerNonce := 1 + got), state := Connected, collected := ClientHears(start).c)
  }

  function ClientAt(start: Conversation, f: Fresh, k: nat): Client
    requires Start(start) && GoodFresh(f)
  {
    if k == 0 then start.client else if k <= 3 then Client1(start) else if k == 4 then Client2(start, f)
      else Client3(start, f)
  }

  function ServerAt(start: Conversation, f: Fresh, k: nat): Server
    requires Start(start)
  {
    if k <= 1 then start.server else if k == 2 then Server1(start) else if k <= 5 then Server2(start, f)
      else Server3(start, f)
  }

  function ToServerAt(start: Conversation, f: Fresh, v: Cells, k: nat): seq<Cells>
    requires Start(start) && GoodFresh(f) && |v| == 16
  {
    if k == 1 then [Hello(start.client)] else if k == 5 then [Initiate(Client2(start, f), v)] else []
  }

  function ToClientAt(start: Conversation, f: Fresh, k: nat): seq<Cells>
    requires Start(start) && GoodFresh(f)
  {
    if k == 3 then [Welcome(Server1(start), f)] else []
  }

  predicate Quiet(c: Conversation) {
    c.clientSent == [] && c.serverSent == [] && c.clientGot == [] && c.serverGot == []
  }

  /** Up to the READY: the whole state is known. */
  ghost predicate Early(start: Conversation, c: Conversation, k: nat)
    requires Start(start)
  {
    && GoodFresh(c.drawn) && |c.vouchNonce| == 16
    && c.client == ClientAt(start, c.drawn, k) && c.server == ServerAt(start, c.drawn, k)
    && c.toServer == ToServerAt(start, c.drawn, c.vouchNonce, k) && c.toClient == ToClientAt(start, c.drawn, k)
    && Quiet(c)
  }

  /** What a queue of messages holds: what has been sent and not yet received. */
  ghost predicate Carries(queue: seq<Cells>, side: Side, first: nat, sent: seq<Frame>, got: seq<Frame>) {
    && |got| <= |sent| && got == sent[..|got|] && |queue| == |sent| - |got| && first + |sent| + 1 < NONCE_LIMIT
    && forall i | 0 <= i < |queue| :: queue[i] == Message(At(side, first, |got| + i), sent[|got| + i])
  }

  /** The server is ready; the READY is on its way, with messages behind it. */
  ghost predicate Almost(start: Conversation, c: Conversation)
    requires Start(start)
  {
    && GoodFresh(c.drawn) && c.client == Client3(start, c.drawn)
    && c.server == Server4(start, c.drawn, |c.serverSent|, 0)
    && c.toServer == [] && c.clientSent == [] && c.serverGot == [] && c.clientGot == []
    && c.toClient != [] && c.toClient[0] == ReadyCommand(Server3(start, c.drawn))
    && Carries(c.toClient[1..], c.server.side, 2, c.serverSent, [])
  }

  /** Both are ready. */
  ghost predicate BothReady(start: Conversation, c: Conversation)
    requires Start(start)
  {
    && GoodFresh(c.drawn) && c.client == Client4(start, c.drawn, |c.clientSent|, |c.clientGot|)
    && c.server == Server4(start, c.drawn, |c.serverSent|, |c.serverGot|)
    && Carries(c.toServer, c.client.side, 3, c.clientSent, c.serverGot)
    && Carries(c.toClient, c.server.side, 2, c.serverSent, c.clientGot)
  }

  ghost predicate Phase(start: Conversation, c: Conversation, k: nat)
    requires Start(start)
  {
    && (k >= 6 ==> ServerHears(start).Ok?) && (k >= 8 ==> ClientHears(start).Ok?)
    && if k <= 6 then Early(start, c, k) else if k == 7 then Almost(start, c) else k == 8 && BothReady(start, c)
  }

  /** How far the handshake has come. */
  function Stage(c: Conversation): nat {
    match c.client.state
    case SendHello => 0
    case ExpectWelcome => if c.toServer != [] then 1 else if c.toClient != [] then 3 else 2
    case SendInitiate => 4
    case Connected => 8
    case _ => if c.toServer != [] then 5 else if c.server.state == Ready then 7 else 6
  }

  function ClientStateAt(k: nat): ClientState {
    if k == 0 then SendHello else if k <= 3 then ExpectWelcome else if k == 4 then SendInitiate else ExpectReady
  }

  function ServerStateAt(k: nat): ServerState {
    if k <= 1 then WaitingForHello else if k == 2 then SendingWelcome else if k <= 5 then WaitingForInitiate
      else SendingReady
  }

  lemma StatesAt(start: Conversation, f: Fresh, k: nat)
    requires Start(start) && GoodFresh(f)
    ensures ClientAt(start, f, k).state == ClientStateAt(k) && ServerAt(start, f, k).state == ServerStateAt(k)
  {
  }

  lemma EarlyIsStage(start: Conversation, c: Conversation, k: nat)
    requires Start(start) && Early(start, c, k) && k <= 6
    ensures Stage(c) == k
  {
    StatesAt(start, c.drawn, k);
    assert c.toServer == ToServerAt(start, c.drawn, c.vouchNonce, k) && c.toClient == ToClientAt(start, c.drawn, k);
    assert c.client.state == ClientStateAt(k) && c.server.state == ServerStateAt(k);
  }

  lemma AlmostIsStage(start: Conversation, c: Conversation)
    requires Start(start) && Almost(start, c)
    ensures Stage(c) == 7
  {
    assert c.client.state == ExpectReady && c.server.state == Ready && c.toServer == [];
  }

  lemma BothReadyIsStage(start: Conversation, c: Conversation)
    requires Start(start) && BothReady(start, c)
    ensures Stage(c) == 8
  {
    assert c.client.state == Connected;
  }

  lemma PhaseIsStage(start: Conversation, c: Conversation, k: nat)
    requires Start(start) && Phase(start, c, k)
    ensures Stage(c) == k
  {
    if k <= 6 {
      EarlyIsStage(start, c, k);
    } else if k == 7 {
      AlmostIsStage(start, c);
    } else {
      BothReadyIsStage(start, c);
    }
  }

  lemma InitiateOverruns(start: Conversation, f: Fresh, v: Cells)
    requires Start(start) && GoodFresh(f) && |v| == 16
    ensures Overruns(Server2(start, f), Initiate(Client2(start, f), v)) <==> !Roomy(start)
  {
    InitiateNotRefused(Client2(start, f), Server2(start, f), f, v);
  }

  /** With the INITIATE on its way, it overflows unless the client's announcement fits. */
  lemma OnItsWay(start: Conversation, c: Conversation)
    requires Start(start) && Early(start, c, 5)
    ensures GoodClient(c.client) && GoodServer(c.server) && (Overflows(c) <==> !Roomy(start))
  {
    InitiateOverruns(start, c.drawn, c.vouchNonce);
  }

  lemma EarlySound(start: Conversation, c: Conversation, k: nat)
    requires Start(start) && Early(start, c, k)
    ensures k != 5 || Roomy(start) ==> Sound(c)
    ensures k == 5 && !Roomy(start) ==> Overflows(c)
  {
    if k == 5 {
      OnItsWay(start, c);
    }
  }

  lemma LateSound(start: Conversation, c: Conversation)
    requires Start(start) && (Almost(start, c) || BothReady(start, c))
    ensures Sound(c)
  {
  }

  lemma PhaseSound(start: Conversation, c: Conversation, k: nat)
    requires Start(start) && Phase(start, c, k) && (k == 5 ==> Roomy(start))
    ensures Sound(c)
  {
    if k <= 6 {
      EarlySound(start, c, k);
    } else {
      LateSound(start, c);
    }
  }

  // ------------------------------------------------------------------ queues of messages

  lemma QueueSent(queue: seq<Cells>, side: Side, first: nat, sent: seq<Frame>, got: seq<Frame>, f: Frame)
    requires Carries(queue, side, first, sent, got) && side.nonce == first + |sent| && side.nonce + 2 < NONCE_LIMIT
    ensures Carries(queue + [Message(side, f)], Sent(side), first, sent + [f], got)
  {
    var q, s := queue + [Message(side, f)], sent + [f];
    forall i | 0 <= i < |q|
      ensures q[i] == Message(At(Sent(side), first, |got| + i), s[|got| + i])
    {
      SameMessage(side, Sent(side), first, |got| + i, s[|got| + i]);
      assert i == |queue| ==> At(side, first, |got| + i) == side;
    }
  }

  lemma FirstOfQueue(queue: seq<Cells>, side: Side, first: nat, sent: seq<Frame>, got: seq<Frame>, r: Side)
    requires Carries(queue, side, first, sent, got) && queue != [] && Facing(side, r)
    requires first > 0 && r.peerNonce == first + |got| - 1
    ensures |got| < |sent| && Decoded(r, queue[0]) == (r.(peerNonce := first + |got|), Accepted(sent[|got|]))
  {
    DecodeUndoesEncode(At(side, first, |got|), r, sent[|got|]);
    assert queue[0] == Message(At(side, first, |got| + 0), sent[|got| + 0]);
  }

  lemma RestOfQueue(queue: seq<Cells>, side: Side, first: nat, sent: seq<Frame>, got: seq<Frame>)
    requires Carries(queue, side, first, sent, got) && queue != []
    ensures Carries(queue[1..], side, first, sent, got + [sent[|got|]])
  {
    assert sent[..|got| + 1] == sent[..|got|] + [sent[|got|]];
    forall i | 0 <= i < |queue[1..]|
      ensures queue[1..][i] == Message(At(side, first, |got| + 1 + i), sent[|got| + 1 + i])
    {
      assert queue[1..][i] == queue[i + 1];
    }
  }

  lemma QueueSame(queue: seq<Cells>, side: Side, t: Side, first: nat, sent: seq<Frame>, got: seq<Frame>)
    requires Carries(queue, side, first, sent, got)
    requires side.me == t.me && side.peer == t.peer && side.encodePrefix == t.encodePrefix
    ensures Carries(queue, t, first, sent, got)
  {
    forall i | 0 <= i < |queue|
      ensures queue[i] == Message(At(t, first, |got| + i), sent[|got| + i])
    {
      assert queue[i] == Message(At(side, first, |got| + i), sent[|got| + i]);
      SameMessage(side, t, first, |got| + i, sent[|got| + i]);
    }
  }

  // ------------------------------------------------------------------ each action takes one phase to one phase

  lemma HelloLeaves(start: Conversation, c: Conversation, v: Cells)
    requires Start(start) && Phase(start, c, 0) && Sound(c) && |v| == 16
    ensures Phase(start, TurnOfClient(c, v), 1)
  {
  }

  lemma InitiateLeaves(start: Conversation, c: Conversation, v: Cells)
    requires Start(start) && Phase(start, c, 4) && Sound(c) && |v| == 16
    ensures Phase(start, TurnOfClient(c, v), 5)
  {
  }

  lemma WelcomeLeaves(start: Conversation, c: Conversation, f: Fresh)
    requires Start(start) && Phase(start, c, 2) && Sound(c) && GoodFresh(f)
    ensures Phase(start, TurnOfServer(c, f), 3)
  {
  }

  lemma ReadyLeaves(start: Conversation, c: Conversation, f: Fresh)
    requires Start(start) && Phase(start, c, 6) && Sound(c) && GoodFresh(f)
    ensures Phase(start, TurnOfServer(c, f), 7)
  {
    AtReady(start, c);
    ServerSendsReady(c, f);
    ReadyIsAlmost(start, TurnOfServer(c, f));
  }

  lemma AtReady(start: Conversation, c: Conversation)
    requires Start(start) && Phase(start, c, 6)
    ensures GoodFresh(c.drawn) && c.client == Client3(start, c.drawn) && c.server == Server3(start, c.drawn)
    ensures c.toServer == [] && c.toClient == [] && Quiet(c) && c.server.state == SendingReady
    ensures c.server.(state := Ready, side := Sent(c.server.side)) == Server4(start, c.drawn, 0, 0)
  {
  }

  lemma ServerSendsReady(c: Conversation, f: Fresh)
    requires Sound(c) && GoodFresh(f) && c.server.state == SendingReady && c.toClient == []
    ensures TurnOfServer(c, f) == c.(
      server := c.server.(state := Ready, side := Sent(c.server.side)), toClient := [ReadyCommand(c.server)],
      serverNonces := c.serverNonces + [c.server.side.nonce])
  {
    assert [] + [ReadyCommand(c.server)] == [ReadyCommand(c.server)];
  }

  /** The READY is all that is on its way. */
  lemma ReadyIsAlmost(start: Conversation, d: Conversation)
    requires Start(start) && GoodFresh(d.drawn) && d.client == Client3(start, d.drawn)
    requires d.server == Server4(start, d.drawn, 0, 0) && d.toServer == [] && Quiet(d)
    requires d.toClient == [ReadyCommand(Server3(start, d.drawn))]
    ensures Almost(start, d)
  {
    assert d.toClient[1..] == [];
  }

  lemma HelloArrives(start: Conversation, c: Conversation)
    requires Start(start) && Phase(start, c, 1) && Sound(c)
    ensures c.toServer != [] && Phase(start, ArriveAtServer(c), 2) && ArriveAtServer(c).failed == c.failed
  {
    HelloAccepted(start.client, start.server);
  }

  lemma WelcomeArrives(start: Conversation, c: Conversation)
    requires Start(start) && Phase(start, c, 3) && Sound(c)
    ensures c.toClient != [] && Phase(start, ArriveAtClient(c), 4) && ArriveAtClient(c).failed == c.failed
  {
    WelcomeAccepted(Client1(start), Server1(start), c.drawn);
  }

  lemma InitiateArrives(start: Conversation, c: Conversation)
    requires Start(start) && Phase(start, c, 5) && Sound(c) && !c.failed
    ensures c.toServer != [] && (ArriveAtServer(c).failed <==> !ServerHears(start).Ok?)
    ensures !ArriveAtServer(c).failed ==> Phase(start, ArriveAtServer(c), 6)
  {
    OnItsWay(start, c);
    var a, b := Client2(start, c.drawn), Server2(start, c.drawn);
    InitiateAccepted(a, b, c.drawn, c.vouchNonce);
    InitiateProcessed(c, Initiate(a, c.vouchNonce));
  }

  /** What the server makes of an INITIATE that is all that is on its way. */
  lemma InitiateProcessed(c: Conversation, msg: Cells)
    requires Sound(c) && c.server.state == WaitingForInitiate && c.toServer == [msg]
    ensures !Overruns(c.server, msg)
    ensures var (t, failure) := ProcessInitiate(c.server, msg);
      ArriveAtServer(c) == c.(toServer := [], server := t, failed := c.failed || failure.Some?)
  {
    assert [msg][1..] == [];
  }

  lemma ReadyArrives(start: Conversation, c: Conversation)
    requires Start(start) && Phase(start, c, 7) && Sound(c) && !c.failed
    ensures c.toClient != [] && (ArriveAtClient(c).failed <==> !ClientHears(start).Ok?)
    ensures !ArriveAtClient(c).failed ==> Phase(start, ArriveAtClient(c), 8)
  {
    ReadyAccepted(Client3(start, c.drawn), Server3(start, c.drawn));
  }

  lemma MessageArrivesAtServer(start: Conversation, c: Conversation)
    requires Start(start) && Phase(start, c, 8) && Sound(c) && c.toServer != []
    ensures Phase(start, ArriveAtServer(c), 8) && ArriveAtServer(c).failed == c.failed
  {
    FirstOfQueue(c.toServer, c.client.side, 3, c.clientSent, c.serverGot, c.server.side);
    RestOfQueue(c.toServer, c.client.side, 3, c.clientSent, c.serverGot);
    QueueSame(c.toClient, c.server.side, ArriveAtServer(c).server.side, 2, c.serverSent, c.clientGot);
  }

  lemma MessageArrivesAtClient(start: Conversation, c: Conversation)
    requires Start(start) && Phase(start, c, 8) && Sound(c) && c.toClient != []
    ensures Phase(start, ArriveAtClient(c), 8) && ArriveAtClient(c).failed == c.failed
  {
    FirstOfQueue(c.toClient, c.server.side, 2, c.serverSent, c.clientGot, c.client.side);
    RestOfQueue(c.toClient, c.server.side, 2, c.serverSent, c.clientGot);
    QueueSame(c.toServer, c.client.side, ArriveAtClient(c).client.side, 3, c.clientSent, c.serverGot);
  }

  lemma ClientWritesKeeps(start: Conversation, c: Conversation, f: Frame)
    requires Start(start) && Phase(start, c, 8) && Sound(c) && Allowed(c, ClientWrites(f))
    ensures Phase(start, Step(c, ClientWrites(f)), 8)
  {
    QueueSent(c.toServer, c.client.side, 3, c.clientSent, c.serverGot, f);
  }

  lemma Behind(queue: seq<Cells>, command: Cells)
    requires queue != []
    ensures (queue + [command])[0] == queue[0] && (queue + [command])[1..] == queue[1..] + [command]
  {
  }

  lemma ServerWritesEarly(start: Conversation, c: Conversation, f: Frame)
    requires Start(start) && Phase(start, c, 7) && Sound(c) && Allowed(c, ServerWrites(f))
    ensures Phase(start, Step(c, ServerWrites(f)), 7)
  {
    QueueSent(c.toClient[1..], c.server.side, 2, c.serverSent, [], f);
    Behind(c.toClient, Message(c.server.side, f));
  }

  lemma ServerWritesKeeps(start: Conversation, c: Conversation, f: Frame)
    requires Start(start) && Phase(start, c, 8) && Sound(c) && Allowed(c, ServerWrites(f))
    ensures Phase(start, Step(c, ServerWrites(f)), 8)
  {
    QueueSent(c.toClient, c.server.side, 2, c.serverSent, c.clientGot, f);
  }

  // ------------------------------------------------------------------ every action, in every reachable state

  /** An action leaves the phase, takes it one on, or ends the conversation. */
  ghost predicate Onwards(start: Conversation, d: Conversation, k: nat)
    requires Start(start)
  {
    if d.failed then (k == 5 && !ServerHears(start).Ok?) || (k == 7 && !ClientHears(start).Ok?)
    else Phase(start, d, k) || Phase(start, d, k + 1)
  }

  lemma ClientTurnGoesOn(start: Conversation, c: Conversation, k: nat, v: Cells)
    requires Start(start) && Phase(start, c, k) && Sound(c) && !c.failed && |v| == 16
    ensures Onwards(start, TurnOfClient(c, v), k)
  {
    PhaseIsStage(start, c, k);
    if k == 0 {
      HelloLeaves(start, c, v);
    } else if k == 4 {
      InitiateLeaves(start, c, v);
    } else {
      assert TurnOfClient(c, v) == c;
    }
  }

  lemma ServerTurnGoesOn(start: Conversation, c: Conversation, k: nat, f: Fresh)
    requires Start(start) && Phase(start, c, k) && Sound(c) && !c.failed && GoodFresh(f)
    ensures Onwards(start, TurnOfServer(c, f), k)
  {
    if k == 2 {
      WelcomeLeaves(start, c, f);
    } else if k == 6 {
      ReadyLeaves(start, c, f);
    } else {
      ServerIdle(start, c, k, f);
    }
  }

  lemma ServerIdle(start: Conversation, c: Conversation, k: nat, f: Fresh)
    requires Start(start) && Phase(start, c, k) && Sound(c) && GoodFresh(f) && k != 2 && k != 6
    ensures TurnOfServer(c, f) == c
  {
    if k <= 6 {
      StatesAt(start, c.drawn, k);
    } else {
      assert c.server.state == Ready;
    }
    NothingToSend(c, f);
  }

  lemma NothingToSend(c: Conversation, f: Fresh)
    requires Sound(c) && GoodFresh(f)
    requires c.server.state != SendingWelcome && c.server.state != SendingReady && c.server.state != SendingError
    ensures TurnOfServer(c, f) == c
  {
  }

  lemma ToServerGoesOn(start: Conversation, c: Conversation, k: nat)
    requires Start(start) && Phase(start, c, k) && Sound(c) && !c.failed && c.toServer != []
    ensures Onwards(start, ArriveAtServer(c), k)
  {
    if k == 1 {
      HelloArrives(start, c);
    } else if k == 5 {
      InitiateArrives(start, c);
    } else {
      MessageArrivesAtServer(start, c);
    }
  }

  lemma ToClientGoesOn(start: Conversation, c: Conversation, k: nat)
    requires Start(start) && Phase(start, c, k) && Sound(c) && !c.failed && c.toClient != []
    ensures Onwards(start, ArriveAtClient(c), k)
  {
    if k == 3 {
      WelcomeArrives(start, c);
    } else if k == 7 {
      ReadyArrives(start, c);
    } else {
      MessageArrivesAtClient(start, c);
    }
  }

  lemma ArrivalsGoOn(start: Conversation, c: Conversation, k: nat, op: Action)
    requires Start(start) && Phase(start, c, k) && Sound(c) && Allowed(c, op) && (op.ToServer? || op.ToClient?)
    ensures Onwards(start, Step(c, op), k)
  {
    if op.ToServer? {
      ToServerGoesOn(start, c, k);
    } else {
      ToClientGoesOn(start, c, k);
    }
  }

  lemma ClientWritesGoOn(start: Conversation, c: Conversation, k: nat, f: Frame)
    requires Start(start) && Phase(start, c, k) && Sound(c) && Allowed(c, ClientWrites(f))
    ensures Onwards(start, Step(c, ClientWrites(f)), k)
  {
    PhaseIsStage(start, c, k);
    ClientWritesKeeps(start, c, f);
  }

  lemma ServerWritesGoOn(start: Conversation, c: Conversation, k: nat, f: Frame)
    requires Start(start) && Phase(start, c, k) && Sound(c) && Allowed(c, ServerWrites(f))
    ensures Onwards(start, Step(c, ServerWrites(f)), k)
  {
    NotReadyEarly(start, c, k);
    if k == 7 {
      ServerWritesEarly(start, c, f);
    } else {
      ServerWritesKeeps(start, c, f);
    }
  }

  lemma ActionsGoOn(start: Conversation, c: Conversation, k: nat, op: Action)
    requires Start(start) && Phase(start, c, k) && Sound(c) && Allowed(c, op)
    ensures Onwards(start, Step(c, op), k)
  {
    match op
    case ClientTurn(v) => ClientTurnGoesOn(start, c, k, v);
    case ServerTurn(f) => ServerTurnGoesOn(start, c, k, f);
    case ClientWrites(f) => ClientWritesGoOn(start, c, k, f);
    case ServerWrites(f) => ServerWritesGoOn(start, c, k, f);
    case ToServer => ArrivalsGoOn(start, c, k, op);
    case ToClient => ArrivalsGoOn(start, c, k, op);
  }

  // ------------------------------------------------------------------ nonces and order

  predicate Counting(log: seq<nat>) {
    forall i | 0 <= i < |log| :: log[i] == i + 1
  }

  predicate Logged(c: Conversation) {
    && Counting(c.clientNonces) && |c.clientNonces| + 1 == c.client.side.nonce
    && Counting(c.serverNonces) && |c.serverNonces| + 1 == c.server.side.nonce
  }

  /** What has been received is a beginning of what has been sent. */
  predicate InOrder(c: Conversation) {
    && |c.serverGot| <= |c.clientSent| && c.serverGot == c.clientSent[..|c.serverGot|]
    && |c.clientGot| <= |c.serverSent| && c.clientGot == c.serverSent[..|c.clientGot|]
  }

  lemma ProcessKeepsNonce(c: Client, s: Server, msg: Cells)
    requires s.state == WaitingForInitiate ==> !Overruns(s, msg)
    ensures ClientProcess(c, msg).0.side.nonce == c.side.nonce
    ensures ServerProcess(s, msg).0.side.nonce == s.side.nonce
  {
  }

  lemma TurnsKeepLogs(c: Conversation, op: Action)
    requires Sound(c) && Allowed(c, op) && Logged(c) && (op.ClientTurn? || op.ServerTurn?)
    ensures Logged(Step(c, op))
  {
    match op
    case ClientTurn(v) =>
      if TurnOfClient(c, v) != c {
        assert TurnOfClient(c, v).clientNonces == c.clientNonces + [c.client.side.nonce];
      }
    case ServerTurn(f) =>
      if c.server.state == SendingReady {
        assert TurnOfServer(c, f).serverNonces == c.serverNonces + [c.server.side.nonce];
      } else {
        assert TurnOfServer(c, f).serverNonces == c.serverNonces;
      }
    case _ =>
  }

  lemma ServerKeepsNonce(c: Conversation)
    requires Sound(c) && c.toServer != []
    ensures ArriveAtServer(c).server.side.nonce == c.server.side.nonce
  {
    if c.server.state != Ready {
      ProcessKeepsNonce(c.client, c.server, c.toServer[0]);
    }
  }

  lemma ClientKeepsNonce(c: Conversation)
    requires c.toClient != []
    ensures ArriveAtClient(c).client.side.nonce == c.client.side.nonce
  {
    if c.client.state != Connected {
      ProcessKeepsNonce(c.client, c.server.(state := Ready), c.toClient[0]);
    }
  }

  lemma StepKeepsLogs(c: Conversation, op: Action)
    requires Sound(c) && Allowed(c, op) && Logged(c)
    ensures Logged(Step(c, op))
  {
    match op
    case ToServer => ServerKeepsNonce(c);
    case ToClient => ClientKeepsNonce(c);
    case ClientTurn(_) => TurnsKeepLogs(c, op);
    case ServerTurn(_) => TurnsKeepLogs(c, op);
    case _ =>
  }

  lemma FailureKeepsOrder(c: Conversation, op: Action)
    requires Sound(c) && Allowed(c, op) && InOrder(c) && Step(c, op).failed
    ensures InOrder(Step(c, op))
  {
  }

  lemma PhaseInOrder(start: Conversation, c: Conversation, k: nat)
    requires Start(start) && Phase(start, c, k)
    ensures InOrder(c)
  {
  }

  ghost predicate Inv(start: Conversation, c: Conversation)
    requires Start(start)
  {
    && Logged(c) && InOrder(c)
    && if c.failed then !ServerHears(start).Ok? || !ClientHears(start).Ok? else Phase(start, c, Stage(c))
  }

  lemma InPhase(start: Conversation, c: Conversation, k: nat)
    requires Start(start) && Phase(start, c, k) && Logged(c) && !c.failed
    ensures Inv(start, c)
  {
    PhaseIsStage(start, c, k);
    PhaseInOrder(start, c, k);
  }

  lemma StepKeeps(start: Conversation, c: Conversation, op: Action)
    requires Start(start) && Roomy(start) && Inv(start, c) && Allowed(c, op)
    ensures Sound(c) && Inv(start, Step(c, op))
  {
    var k := Stage(c);
    PhaseSound(start, c, k);
    ActionsGoOn(start, c, k, op);
    StepKeepsLogs(c, op);
    var d := Step(c, op);
    if d.failed {
      FailureKeepsOrder(c, op);
    } else if Phase(start, d, k) {
      InPhase(start, d, k);
    } else {
      InPhase(start, d, k + 1);
    }
  }

  // ------------------------------------------------------------------ runs

  /** Where an INITIATE overflows, nothing is said about what comes next. */
  ghost predicate Moves(c: Conversation, op: Action, d: Conversation) {
    Allowed(c, op) && (Sound(c) ==> d == Step(c, op))
  }

  ghost predicate Run(trace: seq<Conversation>, ops: seq<Action>) {
    && |trace| == |ops| + 1 && Start(trace[0])
    && forall i {:trigger ops[i]} | 0 <= i < |ops| :: Moves(trace[i], ops[i], trace[i + 1])
  }

  lemma StartKeeps(start: Conversation)
    requires Start(start)
    ensures Inv(start, start)
  {
    assert Phase(start, start, 0);
    InPhase(start, start, 0);
  }

  lemma {:induction false} RunKeeps(trace: seq<Conversation>, ops: seq<Action>, k: nat)
    requires Run(trace, ops) && Roomy(trace[0]) && k < |trace|
    ensures Inv(trace[0], trace[k])
    decreases k
  {
    if k > 0 {
      RunKeeps(trace, ops, k - 1);
      assert Moves(trace[k - 1], ops[k - 1], trace[k]);
      StepKeeps(trace[0], trace[k - 1], ops[k - 1]);
    } else {
      StartKeeps(trace[0]);
    }
  }

  /** In every run each side's nonces are 1, 2, 3 and so on through handshake and messages, none used twice. */
  lemma NoncesAreFresh(trace: seq<Conversation>, ops: seq<Action>, k: nat, i: nat, j: nat)
    requires Run(trace, ops) && Roomy(trace[0]) && k < |trace|
    ensures i < j < |trace[k].clientNonces| ==>
      trace[k].clientNonces[i] < trace[k].clientNonces[j] < trace[k].client.side.nonce
    ensures i < j < |trace[k].serverNonces| ==>
      trace[k].serverNonces[i] < trace[k].serverNonces[j] < trace[k].server.side.nonce
  {
    RunKeeps(trace, ops, k);
  }

  /** In every run each side has received a beginning of what the other has sent, nothing lost, repeated,
      reordered or changed. */
  lemma ReceivedIsSent(trace: seq<Conversation>, ops: seq<Action>, k: nat)
    requires Run(trace, ops) && Roomy(trace[0]) && k < |trace|
    ensures InOrder(trace[k])
  {
    RunKeeps(trace, ops, k);
  }

  lemma NothingOverflows(trace: seq<Conversation>, ops: seq<Action>, k: nat)
    requires Run(trace, ops) && Roomy(trace[0]) && k < |trace|
    ensures trace[k].failed || Sound(trace[k])
  {
    RunKeeps(trace, ops, k);
    if !trace[k].failed {
      PhaseSound(trace[0], trace[k], Stage(trace[k]));
    }
  }

  /** A client that is connected faces a server that is ready: they have one secret, and each knows what the
      other has announced. */
  lemma ConnectedFacesReady(trace: seq<Conversation>, ops: seq<Action>, k: nat)
    requires Run(trace, ops) && Roomy(trace[0]) && k < |trace| && !trace[k].failed && trace[k].client.state == Connected
    ensures var c := trace[k];
      && c.server.state == Ready && Facing(c.client.side, c.server.side) && Facing(c.server.side, c.client.side)
      && ServerHears(trace[0]) == M.Ok(c.server.collected) && ClientHears(trace[0]) == M.Ok(c.client.collected)
  {
    RunKeeps(trace, ops, k);
    FacingWhenReady(trace[0], trace[k]);
  }

  lemma FacingWhenReady(start: Conversation, c: Conversation)
    requires Start(start) && Phase(start, c, 8)
    ensures c.server.state == Ready && Facing(c.client.side, c.server.side) && Facing(c.server.side, c.client.side)
    ensures ServerHears(start) == M.Ok(c.server.collected) && ClientHears(start) == M.Ok(c.client.collected)
  {
  }

  // ------------------------------------------------------------------ when it fails and when it succeeds

  ghost predicate HooksAccept(k: M.Checks) {
    forall n, v :: k.hook(n, v)
  }

  predicate Compatible(start: Conversation) {
    start.client.checks.socketType in M.Partners(start.server.checks.socketType)
  }

  lemma HeardIfCompatible(start: Conversation)
    requires Start(start) && HooksAccept(start.client.checks) && HooksAccept(start.server.checks)
    ensures ServerHears(start).Ok? <==> Compatible(start)
    ensures ClientHears(start).Ok? <==> Compatible(start)
  {
    M.AnnouncementsAreUnderstood(start.server.checks, start.client.checks.socketType, start.client.routingId);
    M.AnnouncementsAreUnderstood(start.client.checks, start.server.checks.socketType, start.server.routingId);
    M.PartnersAreMutual(start.server.checks.socketType, start.client.checks.socketType);
    M.PartnersAreMutual(start.client.checks.socketType, start.server.checks.socketType);
  }

  /** With hooks that accept, no conversation between compatible sockets fails, and no other one gets as far as
      a READY. */
  lemma OnlyIncompatibleFail(trace: seq<Conversation>, ops: seq<Action>, k: nat)
    requires Run(trace, ops) && Roomy(trace[0]) && k < |trace|
    requires HooksAccept(trace[0].client.checks) && HooksAccept(trace[0].server.checks)
    ensures trace[k].failed ==> !Compatible(trace[0])
    ensures !trace[k].failed && (trace[k].server.state == Ready || trace[k].client.state == Connected) ==>
      Compatible(trace[0])
  {
    RunKeeps(trace, ops, k);
    HeardIfCompatible(trace[0]);
    if !trace[k].failed {
      NotReadyEarly(trace[0], trace[k], Stage(trace[k]));
    }
  }

  lemma NotReadyEarly(start: Conversation, c: Conversation, k: nat)
    requires Start(start) && Phase(start, c, k)
    ensures k <= 6 ==> c.client.state != Connected && c.server.state != Ready
  {
  }

  /** What the two sides do next of their own accord, when the handshake has come that far. */
  function NextAction(stage: nat, f: Fresh, v: Cells): Action {
    match stage
    case 0 => ClientTurn(v)
    case 2 => ServerTurn(f)
    case 4 => ClientTurn(v)
    case 6 => ServerTurn(f)
    case 1 => ToServer
    case 5 => ToServer
    case _ => ToClient
  }

  lemma NextTurn(start: Conversation, c: Conversation, k: nat, f: Fresh, v: Cells)
    requires Start(start) && Phase(start, c, k) && Sound(c) && !c.failed && GoodFresh(f) && |v| == 16
    requires k == 0 || k == 2 || k == 4 || k == 6
    ensures Allowed(c, NextAction(k, f, v)) && Phase(start, Step(c, NextAction(k, f, v)), k + 1)
  {
    if k == 0 {
      HelloLeaves(start, c, v);
    } else if k == 2 {
      WelcomeLeaves(start, c, f);
    } else if k == 4 {
      InitiateLeaves(start, c, v);
    } else {
      ReadyLeaves(start, c, f);
    }
  }

  lemma NextArrival(start: Conversation, c: Conversation, k: nat, f: Fresh, v: Cells)
    requires Start(start) && Phase(start, c, k) && Sound(c) && !c.failed && GoodFresh(f) && |v| == 16
    requires ServerHears(start).Ok? && ClientHears(start).Ok?
    requires k == 1 || k == 3 || k == 5 || k == 7
    ensures Allowed(c, NextAction(k, f, v)) && Phase(start, Step(c, NextAction(k, f, v)), k + 1)
    ensures !Step(c, NextAction(k, f, v)).failed
  {
    if k == 1 {
      HelloArrives(start, c);
    } else if k == 3 {
      WelcomeArrives(start, c);
    } else if k == 5 {
      InitiateArrives(start, c);
    } else {
      ReadyArrives(start, c);
    }
  }

  lemma TurnsDoNotFail(c: Conversation, op: Action)
    requires Sound(c) && Allowed(c, op) && (op.ClientTurn? || op.ServerTurn?)
    ensures !Step(c, op).failed
  {
  }

  lemma EvenOrOdd(k: nat)
    requires k < 8
    ensures k == 0 || k == 2 || k == 4 || k == 6 || k == 1 || k == 3 || k == 5 || k == 7
  {
  }

  lemma NextGoesOn(start: Conversation, c: Conversation, f: Fresh, v: Cells)
    requires Start(start) && Roomy(start) && Inv(start, c) && !c.failed && Stage(c) < 8 && GoodFresh(f) && |v| == 16
    requires ServerHears(start).Ok? && ClientHears(start).Ok?
    ensures Allowed(c, NextAction(Stage(c), f, v)) && Sound(c)
    ensures !Step(c, NextAction(Stage(c), f, v)).failed && Stage(Step(c, NextAction(Stage(c), f, v))) == Stage(c) + 1
  {
    var k := Stage(c);
    PhaseSound(start, c, k);
    EvenOrOdd(k);
    if k == 0 || k == 2 || k == 4 || k == 6 {
      NextTurn(start, c, k, f, v);
      TurnsDoNotFail(c, NextAction(k, f, v));
    } else {
      NextArrival(start, c, k, f, v);
    }
    PhaseIsStage(start, Step(c, NextAction(k, f, v)), k + 1);
  }

  /** Between compatible sockets the handshake is never stuck: in every state of every run there is an action,
      with any random values, that takes it on by one of its eight stages. */
  lemma NeverStuck(trace: seq<Conversation>, ops: seq<Action>, k: nat, f: Fresh, v: Cells)
    requires Run(trace, ops) && Roomy(trace[0]) && k < |trace| && GoodFresh(f) && |v| == 16 && Compatible(trace[0])
    requires HooksAccept(trace[0].client.checks) && HooksAccept(trace[0].server.checks)
    ensures !trace[k].failed && (trace[k].client.state == Connected || Stage(trace[k]) < 8)
    ensures Stage(trace[k]) < 8 ==>
      && Allowed(trace[k], NextAction(Stage(trace[k]), f, v)) && Sound(trace[k])
      && !Step(trace[k], NextAction(Stage(trace[k]), f, v)).failed
      && Stage(Step(trace[k], NextAction(Stage(trace[k]), f, v))) == Stage(trace[k]) + 1
  {
    RunKeeps(trace, ops, k);
    HeardIfCompatible(trace[0]);
    StageAtMost(trace[k]);
    if Stage(trace[k]) < 8 {
      NextGoesOn(trace[0], trace[k], f, v);
    }
  }

  lemma StageAtMost(c: Conversation)
    ensures Stage(c) <= 8 && (Stage(c) == 8 <==> c.client.state == Connected)
  {
  }

  /** No action takes the handshake back, or on by more than one stage. */
  lemma NeverBack(trace: seq<Conversation>, ops: seq<Action>, k: nat)
    requires Run(trace, ops) && Roomy(trace[0]) && k < |ops| && !trace[k + 1].failed
    ensures Stage(trace[k]) <= Stage(trace[k + 1]) <= Stage(trace[k]) + 1
  {
    RunKeeps(trace, ops, k);
    assert Moves(trace[k], ops[k], trace[k + 1]);
    PhaseSound(trace[0], trace[k], Stage(trace[k]));
    ActionsGoOn(trace[0], trace[k], Stage(trace[k]), ops[k]);
    if Phase(trace[0], trace[k + 1], Stage(trace[k])) {
      PhaseIsStage(trace[0], trace[k + 1], Stage(trace[k]));
    } else {
      PhaseIsStage(trace[0], trace[k + 1], Stage(trace[k]) + 1);
    }
  }

  // ------------------------------------------------------------------ when an INITIATE is too long

  lemma RunMore(trace: seq<Conversation>, ops: seq<Action>, op: Action)
    requires Run(trace, ops) && Sound(trace[|ops|]) && Allowed(trace[|ops|], op)
    ensures Run(trace + [Step(trace[|ops|], op)], ops + [op])
  {
    var longer, more := trace + [Step(trace[|ops|], op)], ops + [op];
    forall i {:trigger more[i]} | 0 <= i < |more|
      ensures Moves(longer[i], more[i], longer[i + 1])
    {
      if i < |ops| {
        assert Moves(trace[i], ops[i], trace[i + 1]);
      }
    }
  }

  /** From every start there is a run that has the INITIATE on its way. */
  lemma {:induction false} RunToInitiate(start: Conversation, f: Fresh, v: Cells, k: nat)
      returns (trace: seq<Conversation>, ops: seq<Action>)
    requires Start(start) && GoodFresh(f) && |v| == 16 && k <= 5
    ensures Run(trace, ops) && trace[0] == start && !trace[|ops|].failed && Phase(start, trace[|ops|], k)
    decreases k
  {
    if k == 0 {
      trace, ops := [start], [];
      assert Phase(start, start, 0);
    } else {
      trace, ops := RunToInitiate(start, f, v, k - 1);
      trace, ops := RunOn(start, trace, ops, f, v, k - 1);
    }
  }

  lemma RunOn(start: Conversation, trace: seq<Conversation>, ops: seq<Action>, f: Fresh, v: Cells, k: nat)
      returns (trace': seq<Conversation>, ops': seq<Action>)
    requires Start(start) && GoodFresh(f) && |v| == 16 && k <= 4
    requires Run(trace, ops) && trace[0] == start && !trace[|ops|].failed && Phase(start, trace[|ops|], k)
    ensures Run(trace', ops') && trace'[0] == start && !trace'[|ops'|].failed && Phase(start, trace'[|ops'|], k + 1)
  {
    var c, op := trace[|ops|], NextAction(k, f, v);
    PhaseSound(start, c, k);
    NextEarly(start, c, k, f, v);
    RunMore(trace, ops, op);
    trace', ops' := trace + [Step(c, op)], ops + [op];
  }

  lemma NextEarly(start: Conversation, c: Conversation, k: nat, f: Fresh, v: Cells)
    requires Start(start) && Phase(start, c, k) && Sound(c) && !c.failed && GoodFresh(f) && |v| == 16 && k <= 4
    ensures Allowed(c, NextAction(k, f, v)) && Phase(start, Step(c, NextAction(k, f, v)), k + 1)
    ensures !Step(c, NextAction(k, f, v)).failed
  {
    if k == 1 {
      HelloArrives(start, c);
    } else if k == 3 {
      WelcomeArrives(start, c);
    } else {
      NextTurn(start, c, k, f, v);
      TurnsDoNotFail(c, NextAction(k, f, v));
    }
  }

  /** Some run from this start brings an INITIATE that is too long. */
  ghost predicate CanOverflow(start: Conversation) {
    exists trace: seq<Conversation>, ops: seq<Action> ::
      Run(trace, ops) && trace[0] == start && !trace[|ops|].failed && Overflows(trace[|ops|])
  }

  /** The INITIATE of an honest client overflows the buffers of process_initiate exactly if the client's socket
      type sends its routing id, and the routing id is longer than 227 bytes less the name of the type. */
  lemma OverflowExactly(start: Conversation)
    requires Start(start)
    ensures var t := start.client.checks.socketType;
      CanOverflow(start) <==> M.SendsIdentity(t) && |start.client.routingId| > 227 - |M.Name(t)|
  {
    var t := start.client.checks.socketType;
    assert |M.Name(t)| <= 6;
    assert Roomy(start) <==> !(M.SendsIdentity(t) && |start.client.routingId| > 227 - |M.Name(t)|);
    if !Roomy(start) {
      var trace, ops := RunToInitiate(start, Fresh(Zeros(32), Zeros(16), Zeros(16)), Zeros(16), 5);
      EarlySound(start, trace[|ops|], 5);
    } else {
      forall trace: seq<Conversation>, ops: seq<Action> | Run(trace, ops) && trace[0] == start && !trace[|ops|].failed
        ensures !Overflows(trace[|ops|])
      {
        NothingOverflows(trace, ops, |ops|);
      }
    }
  }

  /** A client of type DEALER with a routing id of n bytes, and a server of type ROUTER. */
  function Example(n: nat): Conversation {
    Conversation(
      Client(SendHello, Side(1, 1, PublicKey(0), [], Ascii("CurveZMQMESSAGEC"), Ascii("CurveZMQMESSAGES")),
             PublicKey(1), PublicKey(0), PublicKey(2), [], [],
             M.Checks(true, M.Dealer, (name, value) => true), seq(n, _ => 0), NOTHING),
      Server(WaitingForHello, Side(1, 1, PublicKey(3), [], Ascii("CurveZMQMESSAGES"), Ascii("CurveZMQMESSAGEC")),
             PublicKey(2), PublicKey(3), SecretKey(3), [], [],
             M.Checks(true, M.Router, (name, value) => true), [], NOTHING),
      [], [], [], [], [], [], [], [], Fresh(Randoms(0, 32), Randoms(1, 16), Randoms(2, 16)), Randoms(3, 16), false)
  }

  /** Routing ids of up to 255 bytes may be set; one of 222 is too long for a DEALER, and one of 221 is not. */
  lemma LongRoutingIdOverflows()
    ensures Start(Example(222)) && CanOverflow(Example(222))
    ensures Start(Example(221)) && !CanOverflow(Example(221)) && Compatible(Example(221))
  {
    OverflowExactly(Example(222));
    OverflowExactly(Example(221));
  }
}
