/**
 * The MESSAGE layer of CURVE (curve_mechanism_base.cpp; ZeroMQ RFC 26/CURVEZMQ, MESSAGE command): each
 * frame is boxed with its flags under a nonce that counts up, and a nonce that is not larger than the last
 * one is refused.
 */
module CurveMessages {
  import opened Wrappers
  import opened Bytes
  import opened CurveBox

  const NONCE_LIMIT: nat := 0x1_0000_0000_0000_0000

  /** A frame of the application. */
  datatype Frame = Frame(body: Cells, more: bool, command: bool)

  /** One side: cn_nonce is the nonce of the next command it sends, cn_peer_nonce that of the last one it has
      received; `me` and `peer` are the short-term public keys whose common secret is cn_precom. */
  datatype Side = Side(
    nonce: nat,
    peerNonce: nat,
    me: Cells,
    peer: Cells,
    encodePrefix: Cells,
    decodePrefix: Cells)

  datatype Failure = Malformed | UnexpectedCommand | InvalidSequence | Cryptographic | KeyExchange | InvalidMetadata
    | BadState

  datatype Outcome = Accepted(frame: Frame) | Refused(why: Failure)

  function Header(): (r: Cells)
    ensures |r| == 8
  {
    [B(7)] + Ascii("MESSAGE")
  }

  function Flags(f: Frame): Byte {
    (if f.more then 1 else 0) + (if f.command then 2 else 0)
  }

  /** encode: the command on the wire. */
  function Message(s: Side, f: Frame): (r: Cells)
    requires s.nonce < NONCE_LIMIT
    ensures |r| == 33 + |f.body|
  {
    Header() + PutNonce(s.nonce)
    + Seal(s.me, s.peer, s.encodePrefix + PutNonce(s.nonce), [B(Flags(f))] + f.body)
  }

  function Sent(s: Side): Side {
    s.(nonce := s.nonce + 1)
  }

  /** check_basic_command_structure. */
  predicate Structured(msg: Cells) {
    |msg| > 1 && |msg| > ByteOf(msg[0]) as int
  }

  /** decode: the new state and the frame, or why it is refused. */
  function Decoded(s: Side, msg: Cells): (Side, Outcome) {
    if !Structured(msg) then (s, Refused(Malformed))
    else if |msg| < 8 || msg[..8] != Header() then (s, Refused(UnexpectedCommand))
    else if |msg| < 33 then (s, Refused(Malformed))
    else if GetNonce(msg[8..16]) <= s.peerNonce then (s, Refused(InvalidSequence))
    else
      var t := s.(peerNonce := GetNonce(msg[8..16]));
      match Open(s.me, s.peer, s.decodePrefix + msg[8..16], msg[16..])
      case None => (t, Refused(Cryptographic))
      case Some(plain) =>
        var flags := ByteOf(plain[0]) as int;
        (t, Accepted(Frame(plain[1..], flags % 2 == 1, flags / 2 % 2 == 1)))
  }

  /** The two sides have the same secret, and what one boxes the other opens. */
  predicate Facing(s: Side, r: Side) {
    r.me == s.peer && r.peer == s.me && r.decodePrefix == s.encodePrefix
  }

  lemma MessageParts(s: Side, f: Frame)
    requires s.nonce < NONCE_LIMIT
    ensures Message(s, f)[0] == B(7) && Message(s, f)[..8] == Header()
    ensures Message(s, f)[8..16] == PutNonce(s.nonce) && GetNonce(Message(s, f)[8..16]) == s.nonce
    ensures Message(s, f)[16..] == Seal(s.me, s.peer, s.encodePrefix + PutNonce(s.nonce), [B(Flags(f))] + f.body)
  {
    NonceRoundTrip(s.nonce);
  }

  /** A command with a larger nonce whose box opens. */
  lemma DecodedByParts(r: Side, msg: Cells, nonce: nat, f: Frame)
    requires |msg| >= 33 && msg[0] == B(7) && msg[..8] == Header()
    requires GetNonce(msg[8..16]) == nonce > r.peerNonce
    requires Open(r.me, r.peer, r.decodePrefix + msg[8..16], msg[16..]) == Some([B(Flags(f))] + f.body)
    ensures Decoded(r, msg) == (r.(peerNonce := nonce), Accepted(f))
  {
    assert ([B(Flags(f))] + f.body)[1..] == f.body;
  }

  /** Decoding undoes encoding, for a body of any length and all flags. */
  lemma DecodeUndoesEncode(s: Side, r: Side, f: Frame)
    requires Facing(s, r) && r.peerNonce < s.nonce < NONCE_LIMIT
    ensures Decoded(r, Message(s, f)) == (r.(peerNonce := s.nonce), Accepted(f))
  {
    MessageParts(s, f);
    OpensForPeer(s.me, s.peer, s.encodePrefix + PutNonce(s.nonce), [B(Flags(f))] + f.body);
    DecodedByParts(r, Message(s, f), s.nonce, f);
  }

  /** A nonce that is not larger than the last one is refused, whoever made the message, and changes nothing. */
  lemma OldNoncesAreRefused(r: Side, msg: Cells)
    requires |msg| >= 33 && GetNonce(msg[8..16]) <= r.peerNonce
    ensures Decoded(r, msg).0 == r && Decoded(r, msg).1.Refused?
  {
  }

  /** The receiver's nonce moves to that of every command that looks like a message and has a larger one, whether or not
      its box opens, and nothing else of the receiver ever changes. */
  lemma NonceMovesExactly(r: Side, msg: Cells)
    ensures Decoded(r, msg).0 ==
      if |msg| >= 33 && msg[..8] == Header() && GetNonce(msg[8..16]) > r.peerNonce
      then r.(peerNonce := GetNonce(msg[8..16])) else r
  {
    if |msg| >= 33 && msg[..8] == Header() {
      assert msg[0] == msg[..8][0] == B(7);
    }
  }

  /** The receiver's nonce never goes back, and a message is accepted only with a larger nonce. */
  lemma NoncesGoUp(r: Side, msg: Cells)
    ensures Decoded(r, msg).0.peerNonce >= r.peerNonce
    ensures Decoded(r, msg).1.Accepted? ==>
      |msg| >= 33 && Decoded(r, msg).0.peerNonce == GetNonce(msg[8..16]) > r.peerNonce
  {
  }

  /** The receiver after any messages whatsoever. */
  function AfterAll(r: Side, msgs: seq<Cells>): Side {
    if msgs == [] then r else Decoded(AfterAll(r, msgs[..|msgs| - 1]), msgs[|msgs| - 1]).0
  }

  lemma {:induction false} AfterAllGrows(r: Side, msgs: seq<Cells>, i: nat, j: nat)
    requires i <= j <= |msgs|
    ensures AfterAll(r, msgs[..i]).peerNonce <= AfterAll(r, msgs[..j]).peerNonce
    decreases j
  {
    if i < j {
      AfterAllGrows(r, msgs, i, j - 1);
      assert msgs[..j][..j - 1] == msgs[..j - 1];
      NoncesGoUp(AfterAll(r, msgs[..j - 1]), msgs[j - 1]);
    }
  }

  /** Whatever arrives, from whomever: of two messages that are accepted the later one has the larger nonce, so
      no message is ever accepted twice. */
  lemma NothingIsAcceptedTwice(r: Side, msgs: seq<Cells>, i: nat, j: nat)
    requires i < j < |msgs|
    requires Decoded(AfterAll(r, msgs[..i]), msgs[i]).1.Accepted?
    requires Decoded(AfterAll(r, msgs[..j]), msgs[j]).1.Accepted?
    ensures |msgs[i]| >= 33 && |msgs[j]| >= 33 && GetNonce(msgs[i][8..16]) < GetNonce(msgs[j][8..16])
    ensures msgs[i] != msgs[j]
  {
    NoncesGoUp(AfterAll(r, msgs[..i]), msgs[i]);
    assert msgs[..i + 1][..i] == msgs[..i];
    AfterAllGrows(r, msgs, i + 1, j);
    NoncesGoUp(AfterAll(r, msgs[..j]), msgs[j]);
  }

  /** Only the peer's box under the same nonce is accepted: a message that is accepted is one that the peer or
      this side itself has made for it. */
  lemma OnlyBoxesAreAccepted(r: Side, msg: Cells)
    ensures Decoded(r, msg).1.Accepted? ==>
      |msg| >= 33 && msg[..8] == Header() && exists plain ::
        msg[16..] == Seal(r.peer, r.me, r.decodePrefix + msg[8..16], plain)
        || msg[16..] == Seal(r.me, r.peer, r.decodePrefix + msg[8..16], plain)
  {
    if Decoded(r, msg).1.Accepted? {
      var plain := Open(r.me, r.peer, r.decodePrefix + msg[8..16], msg[16..]).value;
      var box := msg[16..][0].box;
      assert box == PublicBox(r.peer, r.me, r.decodePrefix + msg[8..16], plain)
          || box == PublicBox(r.me, r.peer, r.decodePrefix + msg[8..16], plain);
      assert msg[16..] == Seal(r.peer, r.me, r.decodePrefix + msg[8..16], plain)
          || msg[16..] == Seal(r.me, r.peer, r.decodePrefix + msg[8..16], plain);
    }
  }

  // ------------------------------------------------------------------ one direction of a conversation

  /** Everything sent in one direction: the frames, the commands on the wire, what the receiver has made of
      them, which commands it has accepted, in this order, and the first one that can still be accepted. */
  datatype Direction = Direction(
    sender: Side,
    receiver: Side,
    sent: seq<Frame>,
    wire: seq<Cells>,
    received: seq<Frame>,
    accepted: seq<nat>,
    next: nat)

  /** Any command that has been sent may arrive at any time, and any number of times. */
  datatype Op =
    | Send(f: Frame)
    | Arrive(i: nat)
    | OtherWay(peerNonce: nat, nonce: nat) // the other direction moves on

  predicate Allowed(d: Direction, op: Op) {
    match op
    case Send(_) => d.sender.nonce + 1 < NONCE_LIMIT
    case Arrive(i) => i < |d.wire|
    case OtherWay(_, _) => true
  }

  function Arrival(d: Direction, i: nat): Direction
    requires i < |d.wire|
  {
    match Decoded(d.receiver, d.wire[i])
    case (r, Accepted(f)) => d.(receiver := r, received := d.received + [f], accepted := d.accepted + [i],
      next := i + 1)
    case (r, Refused(_)) => d.(receiver := r)
  }

  function Step(d: Direction, op: Op): Direction
    requires Allowed(d, op) && d.sender.nonce < NONCE_LIMIT
  {
    match op
    case Send(f) => d.(sender := Sent(d.sender), sent := d.sent + [f], wire := d.wire + [Message(d.sender, f)])
    case Arrive(i) => Arrival(d, i)
    case OtherWay(peerNonce, nonce) =>
      d.(sender := d.sender.(peerNonce := peerNonce), receiver := d.receiver.(nonce := nonce))
  }

  /** The sender as it was when it sent frame i; its counter began at `first`. */
  function At(s: Side, first: nat, i: nat): Side {
    s.(nonce := first + i)
  }

  predicate Increasing(s: seq<nat>, limit: nat) {
    && (forall i | 0 <= i < |s| :: s[i] < limit)
    && forall i, j | 0 <= i < j < |s| :: s[i] < s[j]
  }

  ghost predicate Inv(d: Direction, first: nat) {
    && first > 0
    && Facing(d.sender, d.receiver)
    && |d.wire| == |d.sent| && d.sender.nonce == first + |d.sent| < NONCE_LIMIT
    && (forall i | 0 <= i < |d.wire| :: d.wire[i] == Message(At(d.sender, first, i), d.sent[i]))
    && (if d.next == 0 then d.receiver.peerNonce < first else d.receiver.peerNonce == first + d.next - 1)
    && d.next <= |d.wire| && Increasing(d.accepted, d.next) && Picked(d.received, d.sent, d.accepted)
  }

  /** `some` are the elements of `all` at these places. */
  ghost predicate Picked(some: seq<Frame>, all: seq<Frame>, places: seq<nat>) {
    |some| == |places| && forall i | 0 <= i < |places| :: places[i] < |all| && some[i] == all[places[i]]
  }

  lemma OneMorePicked(some: seq<Frame>, all: seq<Frame>, places: seq<nat>, limit: nat, i: nat)
    requires Increasing(places, limit) && Picked(some, all, places) && limit <= i < |all|
    ensures Increasing(places + [i], i + 1) && Picked(some + [all[i]], all, places + [i])
  {
  }

  lemma SameMessage(s: Side, t: Side, first: nat, i: nat, f: Frame)
    requires s.me == t.me && s.peer == t.peer && s.encodePrefix == t.encodePrefix && first + i < NONCE_LIMIT
    ensures Message(At(s, first, i), f) == Message(At(t, first, i), f)
  {
  }

  lemma SendKeeps(d: Direction, first: nat, f: Frame)
    requires Inv(d, first) && Allowed(d, Send(f))
    ensures Inv(Step(d, Send(f)), first)
  {
    var r := Step(d, Send(f));
    forall i | 0 <= i < |r.wire|
      ensures r.wire[i] == Message(At(r.sender, first, i), r.sent[i])
    {
      SameMessage(d.sender, r.sender, first, i, r.sent[i]);
    }
  }

  /** A command is accepted, as the frame it was made from, exactly if no later one, nor itself, has been
      accepted before; otherwise it is refused and nothing changes. */
  lemma ArrivalExact(d: Direction, first: nat, i: nat)
    requires Inv(d, first) && i < |d.wire|
    ensures Decoded(d.receiver, d.wire[i]) ==
      if i >= d.next then (d.receiver.(peerNonce := first + i), Accepted(d.sent[i]))
        else (d.receiver, Refused(InvalidSequence))
  {
    if i >= d.next {
      DecodeUndoesEncode(At(d.sender, first, i), d.receiver, d.sent[i]);
    } else {
      MessageParts(At(d.sender, first, i), d.sent[i]);
      OldNoncesAreRefused(d.receiver, d.wire[i]);
    }
  }

  lemma ArrivalKeeps(d: Direction, first: nat, i: nat)
    requires Inv(d, first) && i < |d.wire|
    ensures Inv(Arrival(d, i), first)
  {
    ArrivalExact(d, first, i);
    if i >= d.next {
      OneMorePicked(d.received, d.sent, d.accepted, d.next, i);
    }
  }

  lemma OtherWayKeeps(d: Direction, first: nat, op: Op)
    requires Inv(d, first) && op.OtherWay?
    ensures Inv(Step(d, op), first)
  {
    var e := Step(d, op);
    forall i | 0 <= i < |d.wire|
      ensures e.wire[i] == Message(At(e.sender, first, i), d.sent[i])
    {
      SameMessage(d.sender, e.sender, first, i, d.sent[i]);
    }
  }

  lemma StepKeeps(d: Direction, first: nat, op: Op)
    requires Inv(d, first) && Allowed(d, op)
    ensures Inv(Step(d, op), first)
  {
    match op
    case Send(f) => SendKeeps(d, first, f);
    case Arrive(i) => ArrivalKeeps(d, first, i);
    case OtherWay(_, _) => OtherWayKeeps(d, first, op);
  }

  ghost predicate Run(trace: seq<Direction>, ops: seq<Op>) {
    && |trace| == |ops| + 1
    && trace[0].sent == [] && trace[0].wire == [] && trace[0].received == [] && trace[0].accepted == []
    && trace[0].next == 0
    && Facing(trace[0].sender, trace[0].receiver) && trace[0].receiver.peerNonce < trace[0].sender.nonce < NONCE_LIMIT
    && forall i {:trigger ops[i]} | 0 <= i < |ops| ::
         Allowed(trace[i], ops[i]) && trace[i].sender.nonce < NONCE_LIMIT && trace[i + 1] == Step(trace[i], ops[i])
  }

  lemma {:induction false} RunKeeps(trace: seq<Direction>, ops: seq<Op>, k: nat)
    requires Run(trace, ops) && k < |trace|
    ensures Inv(trace[k], trace[0].sender.nonce)
    decreases k
  {
    if k > 0 {
      RunKeeps(trace, ops, k - 1);
      assert Allowed(trace[k - 1], ops[k - 1]);
      StepKeeps(trace[k - 1], trace[0].sender.nonce, ops[k - 1]);
    }
  }

  /** In every run, with commands lost, repeated and reordered at will: what has been received are frames that
      have been sent, each at most once and in the order in which they were sent. */
  lemma ReceivedInOrder(trace: seq<Direction>, ops: seq<Op>, k: nat)
    requires Run(trace, ops) && k < |trace|
    ensures var d := trace[k];
      Increasing(d.accepted, |d.sent|) && Picked(d.received, d.sent, d.accepted)
  {
    RunKeeps(trace, ops, k);
  }

  /** The nonces of the commands sent are consecutive, so none is used twice. */
  lemma NoncesAreConsecutive(trace: seq<Direction>, ops: seq<Op>, k: nat, i: nat)
    requires Run(trace, ops) && k < |trace| && i < |trace[k].wire|
    ensures |trace[k].wire[i]| >= 33 && GetNonce(trace[k].wire[i][8..16]) == trace[0].sender.nonce + i
  {
    RunKeeps(trace, ops, k);
    MessageParts(At(trace[k].sender, trace[0].sender.nonce, i), trace[k].sent[i]);
  }

  /** In every run a command that arrives is accepted exactly if neither it nor a later one has been accepted
      before: a command that has been skipped is refused for ever, and so is a repeated one. */
  lemma AcceptedExactly(trace: seq<Direction>, ops: seq<Op>, k: nat, i: nat)
    requires Run(trace, ops) && k < |trace| && i < |trace[k].wire|
    ensures |trace[k].sent| == |trace[k].wire|
    ensures Decoded(trace[k].receiver, trace[k].wire[i]).1 ==
      if exists j | 0 <= j < |trace[k].accepted| :: i <= trace[k].accepted[j]
      then Refused(InvalidSequence) else Accepted(trace[k].sent[i])
  {
    RunKeeps(trace, ops, k);
    ArrivalExact(trace[k], trace[0].sender.nonce, i);
    NextIsLast(trace, ops, k);
  }

  lemma {:induction false} NextIsLast(trace: seq<Direction>, ops: seq<Op>, k: nat)
    requires Run(trace, ops) && k < |trace|
    ensures var d := trace[k]; d.next == if d.accepted == [] then 0 else d.accepted[|d.accepted| - 1] + 1
    decreases k
  {
    if k > 0 {
      NextIsLast(trace, ops, k - 1);
      assert Allowed(trace[k - 1], ops[k - 1]);
    }
  }

  /** Every command arrives once, and in order. */
  ghost predicate Fifo(trace: seq<Direction>, ops: seq<Op>)
    requires |trace| == |ops| + 1
  {
    forall i {:trigger ops[i]} | 0 <= i < |ops| :: ops[i].Arrive? ==> ops[i].i == trace[i].next
  }

  /** Over a FIFO nothing is refused: what has been received is what has been sent, as far as it has arrived. */
  lemma {:induction false} FifoLosesNothing(trace: seq<Direction>, ops: seq<Op>, k: nat)
    requires Run(trace, ops) && Fifo(trace, ops) && k < |trace|
    ensures trace[k].next <= |trace[k].sent| && trace[k].received == trace[k].sent[..trace[k].next]
    decreases k
  {
    if k > 0 {
      var d, op := trace[k - 1], ops[k - 1];
      assert Allowed(d, op) && trace[k] == Step(d, op);
      FifoLosesNothing(trace, ops, k - 1);
      RunKeeps(trace, ops, k - 1);
      FifoStep(d, trace[0].sender.nonce, op);
    }
  }

  lemma FifoStep(d: Direction, first: nat, op: Op)
    requires Inv(d, first) && Allowed(d, op) && (op.Arrive? ==> op.i == d.next) && d.received == d.sent[..d.next]
    ensures Step(d, op).next <= |Step(d, op).sent| && Step(d, op).received == Step(d, op).sent[..Step(d, op).next]
  {
    match op
    case Arrive(i) => FifoArrival(d, first);
    case Send(f) => Longer(d.sent, f, d.next);
    case OtherWay(_, _) =>
  }

  lemma Extended(sent: seq<Frame>, k: nat)
    requires k < |sent|
    ensures sent[..k + 1] == sent[..k] + [sent[k]]
  {
  }

  lemma FifoArrival(d: Direction, first: nat)
    requires Inv(d, first) && d.next < |d.wire| && d.received == d.sent[..d.next]
    ensures Arrival(d, d.next).next == d.next + 1 && Arrival(d, d.next).sent == d.sent
    ensures Arrival(d, d.next).received == d.sent[..d.next + 1]
  {
    ArrivalExact(d, first, d.next);
    Extended(d.sent, d.next);
  }

  lemma Longer(sent: seq<Frame>, f: Frame, k: nat)
    requires k <= |sent|
    ensures (sent + [f])[..k] == sent[..k]
  {
  }

  // ------------------------------------------------------------------ the mechanism as an object

  class CurveMechanismBase {
    var cnNonce: nat
    var cnPeerNonce: nat
    var me: Cells
    var peer: Cells
    const encodeNoncePrefix: Cells
    const decodeNoncePrefix: Cells

    constructor (encodeNoncePrefix: Cells, decodeNoncePrefix: Cells, me: Cells)
      ensures View() == Side(1, 1, me, [], encodeNoncePrefix, decodeNoncePrefix)
    {
      this.encodeNoncePrefix, this.decodeNoncePrefix := encodeNoncePrefix, decodeNoncePrefix;
      cnNonce, cnPeerNonce, this.me, peer := 1, 1, me, [];
    }

    function View(): Side reads this {
      Side(cnNonce, cnPeerNonce, me, peer, encodeNoncePrefix, decodeNoncePrefix)
    }

    method Encode(f: Frame) returns (msg: Cells)
      requires cnNonce < NONCE_LIMIT
      modifies this`cnNonce
      ensures msg == Message(old(View()), f) && View() == Sent(old(View()))
    {
      var messageNonce := encodeNoncePrefix + PutNonce(cnNonce);
      var flags := 0;
      if f.more {
        flags := flags + 1;
      }
      if f.command {
        flags := flags + 2;
      }
      var plaintext := [B(flags)] + f.body;
      var box := Seal(me, peer, messageNonce, plaintext);
      msg := Header() + PutNonce(cnNonce) + box;
      cnNonce := cnNonce + 1;
    }

    method Decode(msg: Cells) returns (outcome: Outcome)
      modifies this`cnPeerNonce
      ensures (View(), outcome) == Decoded(old(View()), msg)
    {
      if !Structured(msg) {
        return Refused(Malformed);
      }
      if |msg| < 8 || msg[..8] != Header() {
        return Refused(UnexpectedCommand);
      }
      if |msg| < 33 {
        return Refused(Malformed);
      }
      var messageNonce := decodeNoncePrefix + msg[8..16];
      var nonce := GetNonce(msg[8..16]);
      if nonce <= cnPeerNonce {
        return Refused(InvalidSequence);
      }
      cnPeerNonce := nonce;
      match Open(me, peer, messageNonce, msg[16..]) {
        case None => return Refused(Cryptographic);
        case Some(plaintext) =>
          var flags := ByteOf(plaintext[0]) as int;
          return Accepted(Frame(plaintext[1..], flags % 2 == 1, flags / 2 % 2 == 1));
      }
    }
  }
}
