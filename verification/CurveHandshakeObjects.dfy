/**
 * The two sides of the CURVE handshake as objects (curve_client.cpp, curve_client_tools.hpp,
 * curve_server.cpp) that fill the commands piece by piece and update their state, keys and counters,
 * proved against module CurveHandshake.
 */
module CurveHandshakeObjects {
  import opened Sequences
  import opened Wrappers
  import opened Bytes
  import opened CurveBox
  import opened CurveMessages
  import opened CurveHandshake
  import M = Metadata
  import MetadataObjects

  /** memcpy to the end of what has been filled so far. */
  method Append(bytes: Cells, buf: array<Cell>, at: nat) returns (end: nat)
    requires at + |bytes| <= buf.Length
    modifies buf
    ensures end == at + |bytes| && buf[..end] == old(buf[..at]) + bytes
  {
    forall j | at <= j < at + |bytes| {
      buf[j] := bytes[j - at];
    }
    end := at + |bytes|;
    assert buf[..at] == old(buf[..at]) && buf[at..end] == bytes;
    assert buf[..end] == buf[..at] + buf[at..end];
  }

  /** A new buffer filled by three copies one behind the other. */
  method FillThree(a: Cells, b: Cells, c: Cells) returns (r: Cells)
    ensures r == a + b + c
  {
    var buf := new Cell[|a| + |b| + |c|](_ => B(0));
    var end := Append(a, buf, 0);
    end := Append(b, buf, end);
    end := Append(c, buf, end);
    r := buf[..];
  }

  method FillFour(a: Cells, b: Cells, c: Cells, d: Cells) returns (r: Cells)
    ensures r == a + b + c + d
  {
    var buf := new Cell[|a| + |b| + |c| + |d|](_ => B(0));
    var end := Append(a, buf, 0);
    end := Append(b, buf, end);
    end := Append(c, buf, end);
    end := Append(d, buf, end);
    r := buf[..];
  }

  /** add_basic_properties into a new buffer of basic_properties_len bytes. */
  method Announce(mechanism: MetadataObjects.Mechanism) returns (metadata: Cells)
    requires |mechanism.routingId| < 0x8000_0000
    ensures metadata == Announcement(mechanism.Options(), mechanism.routingId)
    ensures |metadata| == M.BasicPropertiesLen(mechanism.socketType, |mechanism.routingId|)
  {
    var length := M.BasicPropertiesLen(mechanism.socketType, |mechanism.routingId|);
    var plaintext := new Byte[length](_ => 0);
    var total := mechanism.AddBasicProperties(plaintext, 0, length);
    metadata := FromBytes(plaintext[0..total]);
  }

  class CurveClient {
    const base: CurveMechanismBase
    const mechanism: MetadataObjects.Mechanism
    const publicKey: Cells
    const serverKey: Cells
    const cnPublic: Cells
    var state: ClientState
    var cnServer: Cells
    var cnCookie: Cells

    constructor (mechanism: MetadataObjects.Mechanism, publicKey: Cells, serverKey: Cells, cnPublic: Cells)
      ensures this.mechanism == mechanism && fresh(base)
      ensures View() == Client(
        SendHello, Side(1, 1, cnPublic, [], Ascii("CurveZMQMESSAGEC"), Ascii("CurveZMQMESSAGES")),
        publicKey, cnPublic, serverKey, [], [], mechanism.Options(), mechanism.routingId, mechanism.View(false))
    {
      base := new CurveMechanismBase(Ascii("CurveZMQMESSAGEC"), Ascii("CurveZMQMESSAGES"), cnPublic);
      this.mechanism, this.publicKey, this.serverKey, this.cnPublic := mechanism, publicKey, serverKey, cnPublic;
      state, cnServer, cnCookie := SendHello, [], [];
    }

    ghost function View(): Client
      reads this, base, mechanism
    {
      Client(state, base.View(), publicKey, cnPublic, serverKey, cnServer, cnCookie,
             mechanism.Options(), mechanism.routingId, mechanism.View(false))
    }

    method ProduceHello() returns (msg: Cells)
      requires GoodClient(View())
      modifies base`cnNonce
      ensures msg == Hello(old(View())) && View() == old(View()).(side := Sent(old(View()).side))
    {
      var short := PutNonce(base.cnNonce);
      var helloBox := Seal(cnPublic, serverKey, Ascii("CurveZMQHELLO---") + short, Zeros(64));
      var head := FillThree(Named(5, "HELLO"), [B(1), B(0)], Zeros(72));
      msg := FillFour(head, cnPublic, short, helloBox);
      base.cnNonce := base.cnNonce + 1;
    }

    method ProcessWelcome(msg: Cells) returns (failure: Option<Failure>)
      modifies this, base
      ensures (View(), failure) == CurveHandshake.ProcessWelcome(old(View()), msg)
    {
      if |msg| != 168 {
        return Some(Cryptographic);
      }
      match Open(cnPublic, serverKey, Ascii("WELCOME-") + msg[8..24], msg[24..]) {
        case None => return Some(Cryptographic);
        case Some(plain) =>
          cnServer, cnCookie := plain[..32], plain[32..];
          base.peer := cnServer;
          state := SendInitiate;
          return None;
      }
    }

    method ProduceInitiate(vouchNonce: Cells) returns (msg: Cells)
      requires GoodClient(View()) && |cnCookie| == 96 && |vouchNonce| == 16
      modifies base`cnNonce
      ensures msg == Initiate(old(View()), vouchNonce) && View() == old(View()).(side := Sent(old(View()).side))
    {
      var metadata := Announce(mechanism);
      var vouchBox := Seal(publicKey, cnServer, Ascii("VOUCH---") + vouchNonce, cnPublic + serverKey);
      var plaintext := FillFour(publicKey, vouchNonce, vouchBox, metadata);
      var short := PutNonce(base.cnNonce);
      var initiateBox := Seal(cnPublic, cnServer, Ascii("CurveZMQINITIATE") + short, plaintext);
      msg := FillFour(Named(8, "INITIATE"), cnCookie, short, initiateBox);
      base.cnNonce := base.cnNonce + 1;
    }

    method ProcessReady(msg: Cells) returns (failure: Option<Failure>)
      modifies this, base, mechanism
      ensures (View(), failure) == CurveHandshake.ProcessReady(old(View()), msg)
    {
      if |msg| < 30 {
        return Some(Malformed);
      }
      var readyNonce := Ascii("CurveZMQREADY---") + msg[6..14];
      base.cnPeerNonce := GetNonce(msg[6..14]);
      match Open(base.me, base.peer, readyNonce, msg[14..]) {
        case None => return Some(Cryptographic);
        case Some(plaintext) =>
          var rc := mechanism.ParseMetadata(ToBytes(plaintext), false);
          if rc == 0 {
            state := Connected;
            return None;
          }
          return Some(InvalidMetadata);
      }
    }

    method ProcessError(msg: Cells) returns (failure: Option<Failure>)
      modifies this`state
      ensures (View(), failure) == CurveHandshake.ProcessError(old(View()), msg)
    {
      if state != ExpectWelcome && state != ExpectReady {
        return Some(UnexpectedCommand);
      }
      if |msg| < 7 {
        return Some(Malformed);
      }
      var errorReasonLen := ByteOf(msg[6]) as int;
      if errorReasonLen > |msg| - 7 {
        return Some(Malformed);
      }
      state := ErrorReceived;
      return None;
    }

    /** next_handshake_command; None is EAGAIN. */
    method NextHandshakeCommand(vouchNonce: Cells) returns (msg: Option<Cells>)
      requires GoodClient(View()) && |vouchNonce| == 16
      modifies this`state, base`cnNonce
      ensures (View(), msg) == ClientNext(old(View()), vouchNonce)
    {
      match state {
        case SendHello =>
          var hello := ProduceHello();
          state := ExpectWelcome;
          return Some(hello);
        case SendInitiate =>
          var initiate := ProduceInitiate(vouchNonce);
          state := ExpectReady;
          return Some(initiate);
        case _ => return None;
      }
    }

    method ProcessHandshakeCommand(msg: Cells) returns (failure: Option<Failure>)
      modifies this, base, mechanism
      ensures (View(), failure) == ClientProcess(old(View()), msg)
    {
      if Begins(msg, Named(7, "WELCOME")) {
        failure := ProcessWelcome(msg);
      } else if Begins(msg, Named(5, "READY")) {
        failure := ProcessReady(msg);
      } else if Begins(msg, Named(5, "ERROR")) {
        failure := ProcessError(msg);
      } else {
        failure := Some(UnexpectedCommand);
      }
    }
  }

  class CurveServer {
    const base: CurveMechanismBase
    const mechanism: MetadataObjects.Mechanism
    const publicKey: Cells
    const cnPublic: Cells
    const cnSecret: Cells
    var state: ServerState
    var cnClient: Cells
    var cookieKey: Cells

    constructor (mechanism: MetadataObjects.Mechanism, publicKey: Cells, cnPublic: Cells, cnSecret: Cells)
      ensures this.mechanism == mechanism && fresh(base)
      ensures View() == Server(
        WaitingForHello, Side(1, 1, cnPublic, [], Ascii("CurveZMQMESSAGES"), Ascii("CurveZMQMESSAGEC")),
        publicKey, cnPublic, cnSecret, [], [], mechanism.Options(), mechanism.routingId, mechanism.View(false))
    {
      base := new CurveMechanismBase(Ascii("CurveZMQMESSAGES"), Ascii("CurveZMQMESSAGEC"), cnPublic);
      this.mechanism, this.publicKey, this.cnPublic, this.cnSecret := mechanism, publicKey, cnPublic, cnSecret;
      state, cnClient, cookieKey := WaitingForHello, [], [];
    }

    ghost function View(): Server
      reads this, base, mechanism
    {
      Server(state, base.View(), publicKey, cnPublic, cnSecret, cnClient, cookieKey,
             mechanism.Options(), mechanism.routingId, mechanism.View(false))
    }

    method ProcessHello(msg: Cells) returns (failure: Option<Failure>)
      modifies this, base
      ensures (View(), failure) == CurveHandshake.ProcessHello(old(View()), msg)
    {
      if !Structured(msg) {
        return Some(Malformed);
      }
      if !Begins(msg, Named(5, "HELLO")) {
        return Some(UnexpectedCommand);
      }
      if |msg| != 200 {
        return Some(Malformed);
      }
      var major, minor := ByteOf(msg[6]), ByteOf(msg[7]);
      if major != 1 || minor != 0 {
        return Some(Malformed);
      }
      cnClient := msg[80..112];
      var helloNonce := Ascii("CurveZMQHELLO---") + msg[112..120];
      base.cnPeerNonce := GetNonce(msg[112..120]);
      match Open(publicKey, cnClient, helloNonce, msg[120..]) {
        case None => return Some(Cryptographic);
        case Some(_) =>
          state := SendingWelcome;
          return None;
      }
    }

    method ProduceWelcome(f: Fresh) returns (msg: Cells)
      requires GoodServer(View()) && GoodFresh(f) && |cnClient| == 32
      modifies this`cookieKey
      ensures msg == Welcome(old(View()), f) && View() == old(View()).(cookieKey := f.cookieKey)
    {
      var cookiePlaintext := cnClient + cnSecret;
      cookieKey := f.cookieKey;
      var cookieCiphertext := SealSecret(cookieKey, Ascii("COOKIE--") + f.cookieNonce, cookiePlaintext);
      var plaintext := FillThree(cnPublic, f.cookieNonce, cookieCiphertext);
      Assoc(cnPublic, f.cookieNonce, cookieCiphertext);
      var ciphertext := Seal(publicKey, cnClient, Ascii("WELCOME-") + f.welcomeNonce, plaintext);
      msg := FillThree(Named(7, "WELCOME"), f.welcomeNonce, ciphertext);
    }

    /** The checks of process_initiate up to the cookie. */
    method CheckInitiate(msg: Cells) returns (failure: Option<Failure>)
      ensures failure == InitiateRefused(View(), msg)
    {
      if !Structured(msg) {
        return Some(Malformed);
      }
      if !Begins(msg, Named(8, "INITIATE")) {
        return Some(UnexpectedCommand);
      }
      if |msg| < 257 {
        return Some(Malformed);
      }
      var cookie := OpenSecret(cookieKey, Ascii("COOKIE--") + msg[9..25], msg[25..105]);
      if cookie.None? {
        return Some(Cryptographic);
      }
      if cookie.value[..32] != cnClient || cookie.value[32..] != cnSecret {
        return Some(Cryptographic);
      }
      return None;
    }

    /** process_initiate; `overrun` is the copying of the box past the end of the buffers, after which nothing is
        known. */
    method ProcessInitiate(msg: Cells) returns (failure: Option<Failure>, overrun: bool)
      modifies this, base, mechanism
      ensures overrun <==> Overruns(old(View()), msg)
      ensures !overrun ==> (View(), failure) == CurveHandshake.ProcessInitiate(old(View()), msg)
    {
      overrun := false;
      failure := CheckInitiate(msg);
      if failure.Some? {
        return;
      }
      if |msg| > 257 + MAX_METADATA {
        return None, true;
      }
      var initiateNonce := Ascii("CurveZMQINITIATE") + msg[105..113];
      base.cnPeerNonce := GetNonce(msg[105..113]);
      match Open(cnPublic, cnClient, initiateNonce, msg[113..]) {
        case None => return Some(Cryptographic), false;
        case Some(plaintext) => failure := ProcessVouch(plaintext);
      }
    }

    /** The rest of process_initiate, from the vouch on. */
    method ProcessVouch(plaintext: Cells) returns (failure: Option<Failure>)
      requires |plaintext| >= 128
      modifies this`state, base`peer, mechanism
      ensures (View(), failure) == CurveHandshake.ProcessVouch(old(View()), plaintext)
    {
      var clientKey := plaintext[..32];
      var vouch := Open(cnPublic, clientKey, Ascii("VOUCH---") + plaintext[32..48], plaintext[48..128]);
      if vouch.None? {
        return Some(Cryptographic);
      }
      if vouch.value[..32] != cnClient {
        return Some(KeyExchange);
      }
      base.peer := cnClient;
      state := SendingReady;
      var rc := mechanism.ParseMetadata(ToBytes(plaintext[128..]), false);
      return if rc == 0 then None else Some(InvalidMetadata);
    }

    method ProduceReady() returns (msg: Cells)
      requires GoodServer(View())
      modifies base`cnNonce
      ensures msg == ReadyCommand(old(View())) && View() == old(View()).(side := Sent(old(View()).side))
    {
      var metadata := Announce(mechanism);
      var short := PutNonce(base.cnNonce);
      var readyBox := Seal(base.me, base.peer, Ascii("CurveZMQREADY---") + short, metadata);
      msg := FillThree(Named(5, "READY"), short, readyBox);
      base.cnNonce := base.cnNonce + 1;
    }

    method ProduceError(statusCode: Cells) returns (msg: Cells)
      requires |statusCode| == 3
      ensures msg == Named(5, "ERROR") + [B(3)] + statusCode
    {
      msg := FillThree(Named(5, "ERROR"), [B(3)], statusCode);
    }

    /** next_handshake_command; None is EAGAIN. */
    method NextHandshakeCommand(f: Fresh, statusCode: Cells) returns (msg: Option<Cells>)
      requires GoodServer(View()) && GoodFresh(f) && |statusCode| == 3
      modifies this, base`cnNonce
      ensures (View(), msg) == ServerNext(old(View()), f, statusCode)
    {
      match state {
        case SendingWelcome =>
          var welcome := ProduceWelcome(f);
          state := WaitingForInitiate;
          return Some(welcome);
        case SendingReady =>
          var ready := ProduceReady();
          state := Ready;
          return Some(ready);
        case SendingError =>
          var error := ProduceError(statusCode);
          state := ErrorSent;
          return Some(error);
        case _ => return None;
      }
    }

    method ProcessHandshakeCommand(msg: Cells) returns (failure: Option<Failure>, overrun: bool)
      modifies this, base, mechanism
      ensures overrun <==> old(state) == WaitingForInitiate && Overruns(old(View()), msg)
      ensures !overrun ==> (View(), failure) == ServerProcess(old(View()), msg)
    {
      overrun := false;
      match state {
        case WaitingForHello => failure := ProcessHello(msg);
        case WaitingForInitiate => failure, overrun := ProcessInitiate(msg);
        case _ => failure := Some(BadState);
      }
    }
  }
}
