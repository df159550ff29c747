/**
 * What a peer must have done before CURVE lets it in, whatever messages arrive and from whomever: a server that is
 * ready has been shown the cookie it gave out and a vouch for the client's short-term key, and a client that is
 * connected has opened a READY made with the secret it shares with the server.
 */
module CurveAuthenticity {
  import opened Wrappers
  import opened Bytes
  import opened CurveBox
  import opened CurveMessages
  import opened CurveHandshake
  import M = Metadata

  // ------------------------------------------------------------------ one message

  /** One of the two owners of these keys has made the box. */
  predicate MadeBy(c: Cells, me: Cells, peer: Cells, nonce: Cells, plain: Cells) {
    c == Seal(me, peer, nonce, plain) || c == Seal(peer, me, nonce, plain)
  }

  lemma Opened(me: Cells, peer: Cells, nonce: Cells, c: Cells, plain: Cells)
    requires MadeBy(c, me, peer, nonce, plain)
    ensures Open(me, peer, nonce, c) == Some(plain)
  {
    assert c[0].box == PublicBox(me, peer, nonce, plain) || c[0].box == PublicBox(peer, me, nonce, plain);
  }

  /** A box opens exactly for the owners of its keys, and with what it was made of. */
  lemma OpensOnly(me: Cells, peer: Cells, nonce: Cells, c: Cells)
    ensures Open(me, peer, nonce, c).Some? ==> MadeBy(c, me, peer, nonce, Open(me, peer, nonce, c).value)
    ensures forall plain | MadeBy(c, me, peer, nonce, plain) :: Open(me, peer, nonce, c) == Some(plain)
  {
    if Open(me, peer, nonce, c).Some? {
      var plain := Open(me, peer, nonce, c).value;
      assert c[0].box == PublicBox(me, peer, nonce, plain) || c[0].box == PublicBox(peer, me, nonce, plain);
    }
    forall plain | MadeBy(c, me, peer, nonce, plain)
      ensures Open(me, peer, nonce, c) == Some(plain)
    {
      Opened(me, peer, nonce, c, plain);
    }
  }

  lemma OpensSecretOnly(key: Cells, nonce: Cells, c: Cells)
    ensures OpenSecret(key, nonce, c).Some? ==> c == SealSecret(key, nonce, OpenSecret(key, nonce, c).value)
  {
    if OpenSecret(key, nonce, c).Some? {
      assert c[0].box == SecretBox(key, nonce, OpenSecret(key, nonce, c).value);
    }
  }

  /** A HELLO of version 1.0 with a box that the owner of the short-term key in it has made for the server. */
  ghost predicate GoodHello(s: Server, msg: Cells) {
    && |msg| == 200 && Begins(msg, Named(5, "HELLO")) && ByteOf(msg[6]) == 1 && ByteOf(msg[7]) == 0
    && exists plain :: MadeBy(msg[120..], s.publicKey, msg[80..112], BoxNonce("CurveZMQHELLO---", msg[112..120]), plain)
  }

  /** The server goes on after exactly those, with that key, and otherwise stays where it is. */
  lemma HelloExactly(s: Server, msg: Cells)
    ensures ProcessHello(s, msg).1.None? <==> GoodHello(s, msg)
    ensures var r := ProcessHello(s, msg).0;
      if GoodHello(s, msg) then r.state == SendingWelcome && r.cnClient == msg[80..112] else r.state == s.state
  {
    if |msg| == 200 && Begins(msg, Named(5, "HELLO")) {
      OpensOnly(s.publicKey, msg[80..112], BoxNonce("CurveZMQHELLO---", msg[112..120]), msg[120..]);
      assert msg[0] == msg[..6][0] == B(5);
    }
  }

  /** A WELCOME with a box that was made with the server's long-term key for this client: what it holds. */
  ghost predicate WelcomeHolds(c: Client, msg: Cells, plain: Cells) {
    && |msg| == 168
    && MadeBy(msg[24..], c.cnPublic, c.serverKey, BoxNonce("WELCOME-", msg[8..24]), plain)
  }

  lemma WelcomeExactly(c: Client, msg: Cells)
    ensures ProcessWelcome(c, msg).1.None? <==> exists plain :: WelcomeHolds(c, msg, plain)
    ensures ProcessWelcome(c, msg).1.Some? ==> ProcessWelcome(c, msg).0 == c
    ensures ProcessWelcome(c, msg).1.None? ==>
      exists plain :: WelcomeHolds(c, msg, plain) && |plain| >= 32 && ProcessWelcome(c, msg).0.side.peer == plain[..32]
  {
    if |msg| == 168 {
      OpensOnly(c.cnPublic, c.serverKey, BoxNonce("WELCOME-", msg[8..24]), msg[24..]);
      if ProcessWelcome(c, msg).1.None? {
        var plain := Open(c.cnPublic, c.serverKey, BoxNonce("WELCOME-", msg[8..24]), msg[24..]).value;
        assert WelcomeHolds(c, msg, plain);
      }
    }
  }

  /** The cookie in an INITIATE is the one made for this client's short-term key with the key kept for it. */
  ghost predicate GoodCookie(s: Server, msg: Cells) {
    |msg| >= 257 && exists cookie: Cells ::
      && msg[25..105] == SealSecret(s.cookieKey, BoxNonce("COOKIE--", msg[9..25]), cookie)
      && |cookie| == 64 && cookie[..32] == s.cnClient && cookie[32..] == s.cnSecret
  }

  /** The owner of a long-term key, plain[..32], has vouched for the client's short-term key, to this server, inside a
      box made with that short-term key. */
  ghost predicate Vouches(s: Server, msg: Cells, plain: Cells, vouch: Cells) {
    && |msg| >= 257 && |plain| >= 128
    && MadeBy(msg[113..], s.cnPublic, s.cnClient, BoxNonce("CurveZMQINITIATE", msg[105..113]), plain)
    && MadeBy(plain[48..128], s.cnPublic, plain[..32], BoxNonce("VOUCH---", plain[32..48]), vouch)
    && |vouch| == 64 && vouch[..32] == s.cnClient
  }

  ghost predicate Vouched(s: Server, msg: Cells) {
    GoodCookie(s, msg) && exists plain, vouch :: Vouches(s, msg, plain, vouch)
  }

  lemma CookieIsGood(s: Server, msg: Cells)
    requires InitiateRefused(s, msg).None?
    ensures GoodCookie(s, msg)
  {
    OpensSecretOnly(s.cookieKey, BoxNonce("COOKIE--", msg[9..25]), msg[25..105]);
    var cookie := OpenSecret(s.cookieKey, BoxNonce("COOKIE--", msg[9..25]), msg[25..105]).value;
    assert |cookie| == 64;
  }

  /** The server gets past INITIATE only with the cookie and the vouch, and accepts it only with metadata that it
      accepts as well; without them its state stays what it was. */
  lemma OnlyVouchedGoOn(s: Server, msg: Cells)
    requires s.state == WaitingForInitiate && !Overruns(s, msg)
    ensures var (r, f) := ProcessInitiate(s, msg);
      && r.cnClient == s.cnClient
      && (r.state != s.state ==> r.state == SendingReady && Vouched(s, msg) && r.side.peer == s.cnClient)
      && (f.None? ==> r.state == SendingReady && exists plain, vouch ::
            Vouches(s, msg, plain, vouch) && M.Parse(s.checks, ToBytes(plain[128..]), s.collected) == M.Ok(r.collected))
  {
    if InitiateRefused(s, msg).None? {
      CookieIsGood(s, msg);
      var nonce := BoxNonce("CurveZMQINITIATE", msg[105..113]);
      OpensOnly(s.cnPublic, s.cnClient, nonce, msg[113..]);
      if Open(s.cnPublic, s.cnClient, nonce, msg[113..]).Some? {
        var plain := Open(s.cnPublic, s.cnClient, nonce, msg[113..]).value;
        OpensOnly(s.cnPublic, plain[..32], BoxNonce("VOUCH---", plain[32..48]), plain[48..128]);
        var inner := Open(s.cnPublic, plain[..32], BoxNonce("VOUCH---", plain[32..48]), plain[48..128]);
        if inner.Some? && inner.value[..32] == s.cnClient {
          assert Vouches(s, msg, plain, inner.value);
        }
      }
    }
  }

  /** A READY made with the secret of the two short-term keys, with metadata that the client accepts. */
  ghost predicate GoodReady(c: Client, msg: Cells) {
    && |msg| >= 30
    && exists plain ::
         && MadeBy(msg[14..], c.side.me, c.side.peer, BoxNonce("CurveZMQREADY---", msg[6..14]), plain)
         && M.Parse(c.checks, ToBytes(plain), c.collected).Ok?
  }

  lemma ReadyExactly(c: Client, msg: Cells)
    ensures ProcessReady(c, msg).1.None? <==> GoodReady(c, msg)
    ensures ProcessReady(c, msg).0.state == if GoodReady(c, msg) then Connected else c.state
    ensures ProcessReady(c, msg).0.side.peer == c.side.peer
  {
    if |msg| >= 30 {
      var nonce := BoxNonce("CurveZMQREADY---", msg[6..14]);
      OpensOnly(c.side.me, c.side.peer, nonce, msg[14..]);
    }
  }

  /** An ERROR that a client waiting for the server can read. */
  predicate GoodError(c: Client, msg: Cells) {
    (c.state == ExpectWelcome || c.state == ExpectReady) && |msg| >= 7 && 7 + ByteOf(msg[6]) as int <= |msg|
  }

  /** The client goes on exactly after a WELCOME, a READY or an ERROR that is right, each known by its name; any other
      command is refused and leaves its state and its peer as they are. */
  lemma ClientGoesOnExactly(c: Client, msg: Cells)
    ensures ClientProcess(c, msg).1.None? <==>
      || (Begins(msg, Named(7, "WELCOME")) && exists plain :: WelcomeHolds(c, msg, plain))
      || (Begins(msg, Named(5, "READY")) && GoodReady(c, msg))
      || (Begins(msg, Named(5, "ERROR")) && GoodError(c, msg))
    ensures ClientProcess(c, msg).1.Some? ==>
      ClientProcess(c, msg).0.state == c.state && ClientProcess(c, msg).0.side.peer == c.side.peer
  {
    WelcomeExactly(c, msg);
    ReadyExactly(c, msg);
    NamesApart(msg);
  }

  lemma NamesApart(msg: Cells)
    ensures Begins(msg, Named(7, "WELCOME")) ==> !Begins(msg, Named(5, "READY")) && !Begins(msg, Named(5, "ERROR"))
    ensures Begins(msg, Named(5, "READY")) ==> !Begins(msg, Named(5, "ERROR"))
  {
    if Begins(msg, Named(7, "WELCOME")) {
      assert msg[0] == msg[..8][0] == B(7);
    }
    if Begins(msg, Named(5, "READY")) {
      assert msg[0] == msg[..6][0] == B(5) && msg[1] == msg[..6][1] == Named(5, "READY")[1];
    }
    if Begins(msg, Named(5, "ERROR")) {
      assert msg[0] == msg[..6][0] == B(5) && msg[1] == msg[..6][1] == Named(5, "ERROR")[1];
    }
  }

  /** The server goes on only after a right HELLO, while it waits for one, or a right INITIATE, while it waits for that;
      in any other state it refuses every command and does not change at all. */
  lemma ServerGoesOnOnly(s: Server, msg: Cells)
    requires s.state == WaitingForInitiate ==> !Overruns(s, msg)
    ensures ServerProcess(s, msg).1.None? ==>
      || (s.state == WaitingForHello && GoodHello(s, msg))
      || (s.state == WaitingForInitiate && Vouched(s, msg))
    ensures s.state != WaitingForHello && s.state != WaitingForInitiate ==> ServerProcess(s, msg) == (s, Some(BadState))
  {
    HelloExactly(s, msg);
    if s.state == WaitingForInitiate {
      OnlyVouchedGoOn(s, msg);
    }
  }

  // ------------------------------------------------------------------ whole runs of the server

  /** What can happen to a server: a command arrives, or it is asked for the next one. */
  datatype Op = Receive(msg: Cells) | Turn(drawn: Fresh, status: Cells)

  predicate Allowed(s: Server, op: Op) {
    match op
    case Receive(msg) => s.state == WaitingForInitiate ==> !Overruns(s, msg)
    case Turn(drawn, status) => GoodServer(s) && GoodFresh(drawn)
  }

  function Step(s: Server, op: Op): Server
    requires Allowed(s, op)
  {
    match op
    case Receive(msg) => ServerProcess(s, msg).0
    case Turn(drawn, status) => ServerNext(s, drawn, status).0
  }

  ghost predicate Run(trace: seq<Server>, ops: seq<Op>) {
    && |trace| == |ops| + 1 && trace[0].state == WaitingForHello
    && forall i {:trigger ops[i]} | 0 <= i < |ops| ::
         Allowed(trace[i], ops[i]) && trace[i + 1] == Step(trace[i], ops[i])
  }

  /** In the first k steps the server has accepted a HELLO with the key it now takes for the client's. */
  ghost predicate Greeted(trace: seq<Server>, ops: seq<Op>, k: nat, client: Cells)
    requires |trace| > |ops|
  {
    exists i {:trigger ops[i]} :: 0 <= i < k && i < |ops| && Greets(trace[i], ops[i], client)
  }

  /** A HELLO arrives that the owner of that key has made. */
  ghost predicate Greets(s: Server, op: Op, client: Cells) {
    op.Receive? && GoodHello(s, op.msg) && op.msg[80..112] == client
  }

  /** An INITIATE arrives with the cookie and a vouch for that key. */
  ghost predicate Shows(s: Server, op: Op, client: Cells) {
    op.Receive? && s.state == WaitingForInitiate && s.cnClient == client && Vouched(s, op.msg)
  }

  ghost predicate Shown(trace: seq<Server>, ops: seq<Op>, k: nat, client: Cells)
    requires |trace| > |ops|
  {
    exists i {:trigger ops[i]} :: 0 <= i < k && i < |ops| && Shows(trace[i], ops[i], client)
  }

  predicate PastHello(state: ServerState) {
    state == SendingWelcome || state == WaitingForInitiate || PastInitiate(state)
  }

  predicate PastInitiate(state: ServerState) {
    state == SendingReady || state == Ready
  }

  ghost predicate Earned(trace: seq<Server>, ops: seq<Op>, k: nat)
    requires |trace| > |ops| && k < |trace|
  {
    && (PastHello(trace[k].state) ==> Greeted(trace, ops, k, trace[k].cnClient))
    && (PastInitiate(trace[k].state) ==> Shown(trace, ops, k, trace[k].cnClient))
    && trace[k].state != SendingError && trace[k].state != ErrorSent
  }

  /** What one step does to the state and the client's key. */
  lemma StepIs(s: Server, op: Op, r: Server)
    requires Allowed(s, op) && r == Step(s, op) && s.state != SendingError && s.state != ErrorSent
    ensures r.state != SendingError && r.state != ErrorSent
    ensures PastHello(r.state) ==>
      if PastHello(s.state) then r.cnClient == s.cnClient
      else Greets(s, op, r.cnClient)
    ensures PastInitiate(r.state) && !PastInitiate(s.state) ==> Shows(s, op, r.cnClient)
  {
    if op.Receive? {
      HelloExactly(s, op.msg);
      if s.state == WaitingForInitiate {
        OnlyVouchedGoOn(s, op.msg);
      }
    }
  }

  lemma {:induction false} RunEarns(trace: seq<Server>, ops: seq<Op>, k: nat)
    requires Run(trace, ops) && k < |trace|
    ensures Earned(trace, ops, k)
    decreases k
  {
    if k > 0 {
      RunEarns(trace, ops, k - 1);
      assert Allowed(trace[k - 1], ops[k - 1]);
      StepIs(trace[k - 1], ops[k - 1], trace[k]);
    }
  }

  /** Whatever commands arrive, from whomever, and whatever random values are drawn: a server that is ready has received
      a HELLO made with the short-term key it takes for the client's, and afterwards the cookie it gave out for that key
      in an INITIATE with a vouch of some long-term key for it. */
  lemma ReadyServerWasShown(trace: seq<Server>, ops: seq<Op>, k: nat)
    requires Run(trace, ops) && k < |trace| && trace[k].state == Ready
    ensures exists i, j {:trigger ops[i], ops[j]} ::
      0 <= i < j < k && Greets(trace[i], ops[i], trace[k].cnClient) && Shows(trace[j], ops[j], trace[k].cnClient)
  {
    var client := trace[k].cnClient;
    RunEarns(trace, ops, k);
    var j :| 0 <= j < k && j < |ops| && Shows(trace[j], ops[j], client);
    RunEarns(trace, ops, j);
    var i :| 0 <= i < j && i < |ops| && Greets(trace[i], ops[i], client);
    assert Greets(trace[i], ops[i], client) && Shows(trace[j], ops[j], client);
  }
}
