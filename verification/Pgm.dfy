/**
 * The PGM packetiser (pgm_sender.cpp, out_event) and joiner (pgm_receiver.cpp, in_event).  The sender
 * packs the encoded frames into packets of at most `room` bytes, each with the offset of the first
 * whole-message boundary in it; a receiver that joins by an offset sees a suffix of the messages.
 */
module Pgm {
  import opened Sequences
  import opened Wrappers
  import opened Bytes
  import opened Encoding
  import D = Decoding

  /** The offset of a packet in which no message begins. */
  const NO_OFFSET: nat := 0xffff

  /** A message part in the session's queue. */
  datatype Part<M> = Part(msg: M, more: bool)

  datatype Packet = Packet(offset: nat, payload: seq<Byte>)

  /** A frame as it goes over the wire. */
  datatype Frame = Frame(bytes: seq<Byte>, more: bool)

  /** `frames` are the frames loaded into the encoder so far. */
  datatype Sender<S, M> = Sender(
    e: Encoder<S, M>,
    moreFlag: bool,
    queue: seq<Part<M>>,
    frames: seq<Frame>,
    packets: seq<Packet>)

  /** The local variables of out_event: the buffer filled so far, and `offset`. */
  datatype Packing<S, M> = Packing(s: Sender<S, M>, payload: seq<Byte>, offset: nat)

  /** Messages end in an idle state, and every message that is loaded in one has at least one byte. */
  ghost predicate NeverEmpty<S(!new), M(!new)>(step: StepFunction<S, M>, rank: S -> nat, idle: S -> bool) {
    && Progress(step, rank)
    && (forall s, m :: step(s, m).last ==> idle(step(s, m).next))
    && forall e: Encoder<S, M>, m: M {:trigger Load(step, e, m)} ::
         e.inProgress.None? && idle(e.state) ==> Remaining(step, rank, Load(step, e, m)) != []
  }

  predicate Idle<S, M>(idle: S -> bool, e: Encoder<S, M>) {
    e.last ==> idle(e.state)
  }

  lemma {:induction false} FillKeepsIdle<S(!new), M(!new)>(step: StepFunction<S, M>, rank: S -> nat, idle: S -> bool,
                                                           e: Encoder<S, M>, room: nat)
    requires NeverEmpty(step, rank, idle) && Consistent(e) && e.inProgress.Some? && Idle(idle, e)
    ensures Idle(idle, Fill(step, rank, e, room).e)
    decreases !e.last, rank(e.state), |e.pending|
  {
    if room > 0 && e.pending == [] && !e.last {
      FillKeepsIdle(step, rank, idle, CallStep(step, e, e.inProgress.value), room);
    } else if room > 0 && e.pending != [] {
      var k := Min(|e.pending|, room);
      FillKeepsIdle(step, rank, idle, e.(pending := e.pending[k..]), room - k);
    }
  }

  lemma EncodeKeepsIdle<S(!new), M(!new)>(step: StepFunction<S, M>, rank: S -> nat, idle: S -> bool,
                                          e: Encoder<S, M>, room: nat)
    requires NeverEmpty(step, rank, idle) && Consistent(e) && Idle(idle, e)
    ensures Idle(idle, Encode(step, rank, e, room, true).e)
  {
    if e.inProgress.Some? {
      FillKeepsIdle(step, rank, idle, e, room);
    }
  }

  /** Loads the next part and encodes as much of it as there is room for. */
  function PackNext<S(!new), M(!new)>(step: StepFunction<S, M>, ghost rank: S -> nat, k: Packing<S, M>,
                                      room: nat): Packing<S, M>
    requires Progress(step, rank) && k.s.e.inProgress.None? && k.s.queue != [] && |k.payload| <= room
  {
    var part := k.s.queue[0];
    var e := Load(step, k.s.e, part.msg);
    var r := Encode(step, rank, e, room - |k.payload|, true);
    Packing(Sender(r.e, part.more, k.s.queue[1..], k.s.frames + [Frame(Remaining(step, rank, e), part.more)],
      k.s.packets),
            k.payload + r.out, k.offset)
  }

  /** A message begins here unless the last frame announced another one. */
  function Marked<S, M>(k: Packing<S, M>): Packing<S, M> {
    if !k.s.moreFlag && k.offset == NO_OFFSET then k.(offset := |k.payload|) else k
  }

  /** The loop of out_event. */
  function Pack<S(!new), M(!new)>(step: StepFunction<S, M>, ghost rank: S -> nat, k: Packing<S, M>,
                                  room: nat): Packing<S, M>
    requires Progress(step, rank) && |k.payload| <= room && Consistent(k.s.e)
    requires |k.payload| < room ==> k.s.e.inProgress.None?
    decreases |k.s.queue|
  {
    if |k.payload| == room then k
    else if k.s.queue == [] then Marked(k)
    else
      var n := PackNext(step, rank, Marked(k), room);
      EncodeKeeps(step, rank, Load(step, k.s.e, k.s.queue[0].msg), room - |k.payload|, true);
      Pack(step, rank, n, room)
  }

  /** out_event when the previous packet has been sent: a new packet, unless there is nothing to send. */
  function OutEvent<S(!new), M(!new)>(step: StepFunction<S, M>, ghost rank: S -> nat, s: Sender<S, M>,
                                      room: nat): Sender<S, M>
    requires Progress(step, rank) && Consistent(s.e) && room > 0
  {
    EncodeKeeps(step, rank, s.e, room, true);
    var r := Encode(step, rank, s.e, room, true);
    Posted(Pack(step, rank, Packing(s.(e := r.e), r.out, NO_OFFSET), room))
  }

  function Posted<S, M>(k: Packing<S, M>): Sender<S, M> {
    if k.payload == [] then k.s else k.s.(packets := k.s.packets + [Packet(k.offset, k.payload)])
  }

  // ------------------------------------------------------------------ streams and boundaries

  function Stream(frames: seq<Frame>): seq<Byte> {
    if frames == [] then [] else Stream(frames[..|frames| - 1]) + frames[|frames| - 1].bytes
  }

  function Payloads(packets: seq<Packet>): seq<Byte> {
    if packets == [] then [] else Payloads(packets[..|packets| - 1]) + packets[|packets| - 1].payload
  }

  predicate NonEmpty(frames: seq<Frame>) {
    forall i | 0 <= i < |frames| :: frames[i].bytes != []
  }

  /** Position in the stream where frame j begins. */
  function Start(frames: seq<Frame>, j: nat): nat
    requires j <= |frames|
  {
    |Stream(frames[..j])|
  }

  /** A message begins with frame j. */
  predicate WholeAt(frames: seq<Frame>, j: nat) {
    j <= |frames| && (j == 0 || !frames[j - 1].more)
  }

  ghost predicate NoBoundary(frames: seq<Frame>, lo: nat, hi: nat) {
    forall j: nat | WholeAt(frames, j) :: !(lo <= Start(frames, j) < hi)
  }

  ghost predicate BoundaryAt(frames: seq<Frame>, pos: nat) {
    exists j: nat :: WholeAt(frames, j) && Start(frames, j) == pos
  }

  /** The offset is that of the first whole-message boundary in a packet that begins at `lo`. */
  ghost predicate FirstBoundary(frames: seq<Frame>, lo: nat, packet: Packet) {
    if packet.offset == NO_OFFSET then NoBoundary(frames, lo, lo + |packet.payload|)
    else
      && packet.offset <= |packet.payload|
      && NoBoundary(frames, lo, lo + packet.offset)
      && BoundaryAt(frames, lo + packet.offset)
  }

  lemma StreamStep(frames: seq<Frame>, f: Frame)
    ensures Stream(frames + [f]) == Stream(frames) + f.bytes
    ensures Start(frames, |frames|) == |Stream(frames)|
  {
    assert (frames + [f])[..|frames|] == frames;
    assert frames[..|frames|] == frames;
  }

  lemma {:induction false} StartGrows(frames: seq<Frame>, i: nat, j: nat)
    requires NonEmpty(frames) && i < j <= |frames|
    ensures Start(frames, i) < Start(frames, j)
    decreases j
  {
    assert frames[..j][..j - 1] == frames[..j - 1];
    if i < j - 1 {
      StartGrows(frames, i, j - 1);
    }
  }

  lemma StartStays(frames: seq<Frame>, f: Frame, j: nat)
    requires j <= |frames|
    ensures Start(frames + [f], j) == Start(frames, j)
    ensures WholeAt(frames + [f], j) == WholeAt(frames, j)
  {
    assert (frames + [f])[..j] == frames[..j];
  }

  /** One more frame brings no boundary before the end of the frames there were. */
  lemma NoBoundaryStays(frames: seq<Frame>, f: Frame, lo: nat, hi: nat)
    requires NonEmpty(frames) && f.bytes != [] && NoBoundary(frames, lo, hi)
    requires hi <= |Stream(frames)| + |f.bytes|
    ensures NoBoundary(frames + [f], lo, hi)
  {
    var r := frames + [f];
    StreamStep(frames, f);
    assert r[..|r|] == r;
    forall j: nat | WholeAt(r, j)
      ensures !(lo <= Start(r, j) < hi)
    {
      if j <= |frames| {
        StartStays(frames, f, j);
      }
    }
  }

  lemma FirstBoundaryStays(frames: seq<Frame>, f: Frame, lo: nat, packet: Packet)
    requires NonEmpty(frames) && f.bytes != [] && FirstBoundary(frames, lo, packet)
    requires lo + |packet.payload| <= |Stream(frames)|
    ensures FirstBoundary(frames + [f], lo, packet)
  {
    if packet.offset == NO_OFFSET {
      NoBoundaryStays(frames, f, lo, lo + |packet.payload|);
    } else {
      NoBoundaryStays(frames, f, lo, lo + packet.offset);
      var j :| WholeAt(frames, j) && Start(frames, j) == lo + packet.offset;
      StartStays(frames, f, j);
    }
  }

  // ------------------------------------------------------------------ the sender's invariant

  predicate Framed<S(!new), M(!new)>(step: StepFunction<S, M>, ghost rank: S -> nat, s: Sender<S, M>) {
    && NonEmpty(s.frames)
    && s.moreFlag == (s.frames != [] && s.frames[|s.frames| - 1].more)
  }

  /** What is left in the encoder is the end of the last frame, which has been begun. */
  ghost predicate Begun<S(!new), M(!new)>(step: StepFunction<S, M>, rank: S -> nat, s: Sender<S, M>)
    requires Progress(step, rank) && Consistent(s.e)
  {
    Remaining(step, rank, s.e) != [] ==>
      s.frames != [] && |Remaining(step, rank, s.e)| < |s.frames[|s.frames| - 1].bytes|
  }

  ghost predicate Offsets(frames: seq<Frame>, packets: seq<Packet>) {
    forall i | 0 <= i < |packets| ::
      && FirstBoundary(frames, |Payloads(packets[..i])|, packets[i])
      && |Payloads(packets[..i])| + |packets[i].payload| <= |Stream(frames)|
  }

  ghost predicate SenderInv<S(!new), M(!new)>(step: StepFunction<S, M>, rank: S -> nat, idle: S -> bool,
                                              s: Sender<S, M>) {
    && NeverEmpty(step, rank, idle) && Consistent(s.e) && Idle(idle, s.e) && Framed(step, rank, s)
    && Begun(step, rank, s)
    && Stream(s.frames) == Payloads(s.packets) + Remaining(step, rank, s.e)
    && Offsets(s.frames, s.packets)
  }

  ghost predicate PackingInv<S(!new), M(!new)>(step: StepFunction<S, M>, rank: S -> nat, idle: S -> bool,
                                               k: Packing<S, M>, room: nat) {
    && NeverEmpty(step, rank, idle) && Consistent(k.s.e) && Idle(idle, k.s.e) && Framed(step, rank, k.s)
    && Begun(step, rank, k.s)
    && Stream(k.s.frames) == (Payloads(k.s.packets) + k.payload) + Remaining(step, rank, k.s.e)
    && Offsets(k.s.frames, k.s.packets)
    && |k.payload| <= room <= NO_OFFSET
    && (|k.payload| < room ==> k.s.e.inProgress.None?)
    && FirstBoundary(k.s.frames, |Payloads(k.s.packets)|, Packet(k.offset, k.payload))
  }

  lemma MarkedKeeps<S(!new), M(!new)>(step: StepFunction<S, M>, rank: S -> nat, idle: S -> bool, k: Packing<S, M>,
                                      room: nat)
    requires PackingInv(step, rank, idle, k, room) && |k.payload| < room
    ensures PackingInv(step, rank, idle, Marked(k), room)
    ensures Marked(k).offset == NO_OFFSET ==> k.s.moreFlag
  {
    var lo := |Payloads(k.s.packets)|;
    assert k.s.frames[..|k.s.frames|] == k.s.frames;
    if !k.s.moreFlag && k.offset == NO_OFFSET {
      assert WholeAt(k.s.frames, |k.s.frames|);
      assert Start(k.s.frames, |k.s.frames|) == lo + |k.payload|;
    }
  }

  lemma OffsetsStay(frames: seq<Frame>, f: Frame, packets: seq<Packet>)
    requires NonEmpty(frames) && f.bytes != [] && Offsets(frames, packets)
    ensures Offsets(frames + [f], packets)
  {
    StreamStep(frames, f);
    forall i | 0 <= i < |packets|
      ensures FirstBoundary(frames + [f], |Payloads(packets[..i])|, packets[i])
    {
      FirstBoundaryStays(frames, f, |Payloads(packets[..i])|, packets[i]);
    }
  }

  /** The frame that is loaded next begins no message if the last one announced it. */
  lemma NextBoundary(frames: seq<Frame>, f: Frame, lo: nat, before: Packet, after: Packet)
    requires NonEmpty(frames) && f.bytes != [] && FirstBoundary(frames, lo, before)
    requires lo + |before.payload| == |Stream(frames)| && after.offset == before.offset
    requires |before.payload| <= |after.payload| <= |before.payload| + |f.bytes|
    requires before.offset == NO_OFFSET ==> frames != [] && frames[|frames| - 1].more
    ensures FirstBoundary(frames + [f], lo, after)
  {
    if before.offset == NO_OFFSET {
      forall j: nat | WholeAt(frames, j)
        ensures !(lo <= Start(frames, j) < lo + |after.payload|)
      {
        StartGrows(frames, j, |frames|);
        assert frames[..|frames|] == frames;
      }
      NoBoundaryStays(frames, f, lo, lo + |after.payload|);
    } else {
      FirstBoundaryStays(frames, f, lo, before);
    }
  }

  /** What loading and encoding the next part does to the bytes. */
  lemma PackNextBytes<S(!new), M(!new)>(step: StepFunction<S, M>, rank: S -> nat, idle: S -> bool, k: Packing<S, M>,
                                        room: nat)
    requires NeverEmpty(step, rank, idle) && Consistent(k.s.e) && k.s.e.inProgress.None? && Idle(idle, k.s.e)
    requires k.s.queue != [] && |k.payload| < room
    ensures var n := PackNext(step, rank, k, room);
      && Consistent(n.s.e) && Idle(idle, n.s.e) && n.s.frames != []
      && |k.payload| < |n.payload| <= room && (|n.payload| < room ==> n.s.e.inProgress.None?)
      && n.payload == k.payload + n.payload[|k.payload|..]
      && n.payload[|k.payload|..] + Remaining(step, rank, n.s.e) == n.s.frames[|n.s.frames| - 1].bytes
  {
    var e := Load(step, k.s.e, k.s.queue[0].msg);
    var r := Encode(step, rank, e, room - |k.payload|, true);
    EncodeKeeps(step, rank, e, room - |k.payload|, true);
    EncodeKeepsIdle(step, rank, idle, e, room - |k.payload|);
    assert (k.payload + r.out)[|k.payload|..] == r.out;
  }

  lemma PackNextKeeps<S(!new), M(!new)>(step: StepFunction<S, M>, rank: S -> nat, idle: S -> bool, k: Packing<S, M>,
                                        room: nat)
    requires PackingInv(step, rank, idle, k, room) && |k.payload| < room && k.s.queue != []
    requires k.offset == NO_OFFSET ==> k.s.moreFlag
    ensures PackingInv(step, rank, idle, PackNext(step, rank, k, room), room)
  {
    PackNextBytes(step, rank, idle, k, room);
    PackNextFrames(step, rank, k, PackNext(step, rank, k, room));
  }

  lemma PackNextFrames<S(!new), M(!new)>(step: StepFunction<S, M>, rank: S -> nat, k: Packing<S, M>, n: Packing<S, M>)
    requires Progress(step, rank) && Consistent(k.s.e) && Consistent(n.s.e)
    requires NonEmpty(k.s.frames) && n.s.frames != [] && n.s.frames == k.s.frames + [n.s.frames[|n.s.frames| - 1]]
    requires k.s.moreFlag == (k.s.frames != [] && k.s.frames[|k.s.frames| - 1].more)
    requires Stream(k.s.frames) == (Payloads(k.s.packets) + k.payload) + Remaining(step, rank, k.s.e)
    requires Remaining(step, rank, k.s.e) == [] && Offsets(k.s.frames, k.s.packets)
    requires FirstBoundary(k.s.frames, |Payloads(k.s.packets)|, Packet(k.offset, k.payload))
    requires k.offset == NO_OFFSET ==> k.s.moreFlag
    requires n.s.packets == k.s.packets && n.offset == k.offset
    requires |k.payload| < |n.payload| && n.payload == k.payload + n.payload[|k.payload|..]
    requires n.payload[|k.payload|..] + Remaining(step, rank, n.s.e) == n.s.frames[|n.s.frames| - 1].bytes
    ensures Stream(n.s.frames) == (Payloads(n.s.packets) + n.payload) + Remaining(step, rank, n.s.e)
    ensures Offsets(n.s.frames, n.s.packets)
    ensures FirstBoundary(n.s.frames, |Payloads(n.s.packets)|, Packet(n.offset, n.payload))
  {
    var f := n.s.frames[|n.s.frames| - 1];
    StreamStep(k.s.frames, f);
    Joined(Payloads(k.s.packets), k.payload, n.payload[|k.payload|..], Remaining(step, rank, n.s.e));
    OffsetsStay(k.s.frames, f, k.s.packets);
    NextBoundary(k.s.frames, f, |Payloads(k.s.packets)|, Packet(k.offset, k.payload), Packet(n.offset, n.payload));
  }

  lemma Joined(a: seq<Byte>, b: seq<Byte>, c: seq<Byte>, d: seq<Byte>)
    ensures ((a + b) + []) + (c + d) == (a + (b + c)) + d
  {
  }

  lemma {:induction false} PackKeeps<S(!new), M(!new)>(step: StepFunction<S, M>, rank: S -> nat, idle: S -> bool,
                                                       k: Packing<S, M>, room: nat)
    requires PackingInv(step, rank, idle, k, room)
    ensures PackingInv(step, rank, idle, Pack(step, rank, k, room), room)
    decreases |k.s.queue|
  {
    if |k.payload| < room {
      MarkedKeeps(step, rank, idle, k, room);
      if k.s.queue != [] {
        PackNextKeeps(step, rank, idle, Marked(k), room);
        PackKeeps(step, rank, idle, PackNext(step, rank, Marked(k), room), room);
      }
    }
  }

  /** What is left of a frame that has been begun contains no boundary before its end. */
  lemma RestHasNoBoundary(frames: seq<Frame>, lo: nat, n: nat, rest: nat)
    requires NonEmpty(frames) && |Stream(frames)| == lo + rest && n <= rest
    requires rest > 0 ==> frames != [] && rest < |frames[|frames| - 1].bytes|
    ensures NoBoundary(frames, lo, lo + n)
  {
    forall j: nat | WholeAt(frames, j)
      ensures !(lo <= Start(frames, j) < lo + n)
    {
      assert frames[..|frames|] == frames;
      if n > 0 && j < |frames| {
        var front := frames[..|frames| - 1];
        if j < |front| {
          StartGrows(frames, j, |front|);
        }
      }
    }
  }

  /** out_event keeps the invariant: in particular every packet carries the offset of the first
      whole-message boundary in it. */
  lemma OutEventKeeps<S(!new), M(!new)>(step: StepFunction<S, M>, rank: S -> nat, idle: S -> bool, s: Sender<S, M>,
                                        room: nat)
    requires SenderInv(step, rank, idle, s) && 0 < room <= NO_OFFSET
    ensures SenderInv(step, rank, idle, OutEvent(step, rank, s, room))
  {
    var r := Encode(step, rank, s.e, room, true);
    EncodeKeeps(step, rank, s.e, room, true);
    EncodeKeepsIdle(step, rank, idle, s.e, room);
    var k := Packing(s.(e := r.e), r.out, NO_OFFSET);
    RestHasNoBoundary(s.frames, |Payloads(s.packets)|, |r.out|, |Remaining(step, rank, s.e)|);
    Assoc(Payloads(s.packets), r.out, Remaining(step, rank, r.e));
    PackKeeps(step, rank, idle, k, room);
    PostedKeeps(step, rank, idle, Pack(step, rank, k, room), room);
  }

  lemma OffsetsGrow(frames: seq<Frame>, packets: seq<Packet>, packet: Packet)
    requires Offsets(frames, packets) && FirstBoundary(frames, |Payloads(packets)|, packet)
    requires |Payloads(packets)| + |packet.payload| <= |Stream(frames)|
    ensures Offsets(frames, packets + [packet])
    ensures Payloads(packets + [packet]) == Payloads(packets) + packet.payload
  {
    var r := packets + [packet];
    assert r[..|packets|] == packets;
    forall i | 0 <= i < |r|
      ensures FirstBoundary(frames, |Payloads(r[..i])|, r[i])
      ensures |Payloads(r[..i])| + |r[i].payload| <= |Stream(frames)|
    {
      if i < |packets| {
        assert r[..i] == packets[..i];
      }
    }
  }

  lemma PostedKeeps<S(!new), M(!new)>(step: StepFunction<S, M>, rank: S -> nat, idle: S -> bool, k: Packing<S, M>,
                                      room: nat)
    requires PackingInv(step, rank, idle, k, room)
    ensures SenderInv(step, rank, idle, Posted(k))
  {
    if k.payload == [] {
      assert Payloads(k.s.packets) + k.payload == Payloads(k.s.packets);
    } else {
      OffsetsGrow(k.s.frames, k.s.packets, Packet(k.offset, k.payload));
    }
  }

  // ------------------------------------------------------------------ the receiver

  /** What one peer's decoder has been given since it was created. */
  datatype Receiver = Receiver(joined: bool, fed: seq<Byte>)

  /** in_event for one packet: a peer joins at the first boundary it is told of. */
  function Receive(r: Receiver, packet: Packet): Receiver
    requires packet.offset == NO_OFFSET || packet.offset <= |packet.payload|
  {
    if r.joined then r.(fed := r.fed + packet.payload)
    else if packet.offset == NO_OFFSET then r
    else Receiver(true, packet.payload[packet.offset..])
  }

  predicate Sane(packets: seq<Packet>) {
    forall i | 0 <= i < |packets| :: packets[i].offset == NO_OFFSET || packets[i].offset <= |packets[i].payload|
  }

  /** A peer that is not joined, and the packets from number i on up to number n. */
  function ReceiveAll(packets: seq<Packet>, i: nat, n: nat): Receiver
    requires i <= n <= |packets| && Sane(packets)
    decreases n
  {
    if n == i then Receiver(false, []) else Receive(ReceiveAll(packets, i, n - 1), packets[n - 1])
  }

  /** Joined at the first message that begins at or after the beginning of packet i. */
  ghost predicate JoinedAt(frames: seq<Frame>, packets: seq<Packet>, i: nat, n: nat, fed: seq<Byte>, j: nat)
    requires i <= n <= |packets|
  {
    && WholeAt(frames, j)
    && |Payloads(packets[..i])| <= Start(frames, j)
    && NoBoundary(frames, |Payloads(packets[..i])|, Start(frames, j))
    && Stream(frames[..j]) + fed == Payloads(packets[..n])
  }

  lemma PayloadsStep(packets: seq<Packet>, n: nat)
    requires 0 < n <= |packets|
    ensures Payloads(packets[..n]) == Payloads(packets[..n - 1]) + packets[n - 1].payload
  {
    assert packets[..n][..n - 1] == packets[..n - 1];
  }

  lemma {:induction false} PayloadsGrow(packets: seq<Packet>, i: nat, n: nat)
    requires i <= n <= |packets|
    ensures |Payloads(packets[..i])| <= |Payloads(packets[..n])|
    decreases n
  {
    if i < n {
      PayloadsGrow(packets, i, n - 1);
      PayloadsStep(packets, n);
    }
  }

  lemma {:induction false} PayloadsPrefix(packets: seq<Packet>, n: nat)
    requires n <= |packets|
    ensures Payloads(packets[..n]) <= Payloads(packets)
    decreases |packets| - n
  {
    if n == |packets| {
      assert packets[..n] == packets;
    } else {
      PayloadsPrefix(packets, n + 1);
      PayloadsStep(packets, n + 1);
    }
  }

  lemma {:induction false} StreamPrefix(frames: seq<Frame>, j: nat)
    requires j <= |frames|
    ensures Stream(frames[..j]) <= Stream(frames)
    decreases |frames| - j
  {
    if j == |frames| {
      assert frames[..j] == frames;
    } else {
      StreamPrefix(frames, j + 1);
      assert frames[..j + 1][..j] == frames[..j];
    }
  }

  /** The packet at which a peer joins: what it is given begins with a whole message. */
  lemma JoinsHere(frames: seq<Frame>, packets: seq<Packet>, i: nat, n: nat) returns (j: nat)
    requires i < n <= |packets| && packets[n - 1].offset != NO_OFFSET
    requires Payloads(packets) <= Stream(frames) && Offsets(frames, packets)
    requires NoBoundary(frames, |Payloads(packets[..i])|, |Payloads(packets[..n - 1])|)
    requires |Payloads(packets[..i])| <= |Payloads(packets[..n - 1])|
    ensures packets[n - 1].offset <= |packets[n - 1].payload|
    ensures JoinedAt(frames, packets, i, n, packets[n - 1].payload[packets[n - 1].offset..], j)
  {
    var lo, pk := |Payloads(packets[..n - 1])|, packets[n - 1];
    assert FirstBoundary(frames, lo, pk);
    j :| WholeAt(frames, j) && Start(frames, j) == lo + pk.offset;
    PayloadsStep(packets, n);
    PayloadsPrefix(packets, n);
    StreamPrefix(frames, j);
    CutAt(Stream(frames), Stream(frames[..j]), Payloads(packets[..n - 1]), pk.payload, pk.offset);
  }

  lemma CutAt(whole: seq<Byte>, x: seq<Byte>, before: seq<Byte>, payload: seq<Byte>, offset: nat)
    requires before + payload <= whole && x <= whole && offset <= |payload| && |x| == |before| + offset
    ensures x + payload[offset..] == before + payload
  {
    var sent := before + payload;
    assert x == whole[..|x|] == sent[..|x|];
    assert sent[|x|..] == payload[offset..];
  }

  lemma StaysJoined(frames: seq<Frame>, packets: seq<Packet>, i: nat, n: nat, fed: seq<Byte>, j: nat)
    requires i < n <= |packets| && JoinedAt(frames, packets, i, n - 1, fed, j)
    ensures JoinedAt(frames, packets, i, n, fed + packets[n - 1].payload, j)
  {
    PayloadsStep(packets, n);
    Assoc(Stream(frames[..j]), fed, packets[n - 1].payload);
  }

  lemma StillNoBoundary(frames: seq<Frame>, packets: seq<Packet>, i: nat, n: nat)
    requires i < n <= |packets| && packets[n - 1].offset == NO_OFFSET && Offsets(frames, packets)
    requires NoBoundary(frames, |Payloads(packets[..i])|, |Payloads(packets[..n - 1])|)
    ensures NoBoundary(frames, |Payloads(packets[..i])|, |Payloads(packets[..n])|)
  {
    PayloadsStep(packets, n);
    assert FirstBoundary(frames, |Payloads(packets[..n - 1])|, packets[n - 1]);
  }

  /** One more packet, for a peer that is r before it. */
  lemma JoinsNext(frames: seq<Frame>, packets: seq<Packet>, i: nat, n: nat, r: Receiver, j: nat) returns (j': nat)
    requires i < n <= |packets| && Payloads(packets) <= Stream(frames) && Offsets(frames, packets) && Sane(packets)
    requires r.joined ==> JoinedAt(frames, packets, i, n - 1, r.fed, j)
    requires !r.joined ==> NoBoundary(frames, |Payloads(packets[..i])|, |Payloads(packets[..n - 1])|)
    ensures var r' := Receive(r, packets[n - 1]);
      if r'.joined then JoinedAt(frames, packets, i, n, r'.fed, j')
      else NoBoundary(frames, |Payloads(packets[..i])|, |Payloads(packets[..n])|)
  {
    j' := j;
    if r.joined {
      StaysJoined(frames, packets, i, n, r.fed, j);
    } else if packets[n - 1].offset != NO_OFFSET {
      PayloadsGrow(packets, i, n - 1);
      j' := JoinsHere(frames, packets, i, n);
    } else {
      StillNoBoundary(frames, packets, i, n);
    }
  }

  /** A peer that listens from packet i on has joined at the first message beginning there or later, and
      its decoder has been given exactly the stream from that message on; or no message has begun. */
  lemma {:induction false} JoinsAtFirstMessage(frames: seq<Frame>, packets: seq<Packet>, i: nat, n: nat)
    returns (j: nat)
    requires i <= n <= |packets| && Payloads(packets) <= Stream(frames) && Offsets(frames, packets) && Sane(packets)
    ensures ReceiveAll(packets, i, n).joined ==>
      JoinedAt(frames, packets, i, n, ReceiveAll(packets, i, n).fed, j)
    ensures !ReceiveAll(packets, i, n).joined ==>
      NoBoundary(frames, |Payloads(packets[..i])|, |Payloads(packets[..n])|)
    decreases n
  {
    j := 0;
    if i < n {
      j := JoinsAtFirstMessage(frames, packets, i, n - 1);
      j := JoinsNext(frames, packets, i, n, ReceiveAll(packets, i, n - 1), j);
    }
  }

  // ------------------------------------------------------------------ whole runs

  datatype Op<M> = Enqueue(part: Part<M>) | Send(room: nat)

  predicate Allowed<M>(op: Op<M>) {
    op.Send? ==> 0 < op.room <= NO_OFFSET
  }

  function Step<S(!new), M(!new)>(step: StepFunction<S, M>, ghost rank: S -> nat, s: Sender<S, M>,
                                  op: Op<M>): Sender<S, M>
    requires Progress(step, rank) && Consistent(s.e) && Allowed(op)
  {
    match op
    case Enqueue(part) => s.(queue := s.queue + [part])
    case Send(room) => OutEvent(step, rank, s, room)
  }

  ghost predicate Run<S(!new), M(!new)>(step: StepFunction<S, M>, rank: S -> nat, idle: S -> bool,
                                        trace: seq<Sender<S, M>>, ops: seq<Op<M>>) {
    && NeverEmpty(step, rank, idle)
    && |trace| == |ops| + 1
    && trace[0].e.inProgress.None? && Consistent(trace[0].e) && Idle(idle, trace[0].e) && !trace[0].moreFlag
    && trace[0].frames == [] && trace[0].packets == []
    && forall i {:trigger ops[i]} | 0 <= i < |ops| ::
         Allowed(ops[i]) && Consistent(trace[i].e) && trace[i + 1] == Step(step, rank, trace[i], ops[i])
  }

  lemma {:induction false} RunKeeps<S(!new), M(!new)>(step: StepFunction<S, M>, rank: S -> nat, idle: S -> bool,
                                                      trace: seq<Sender<S, M>>, ops: seq<Op<M>>, k: nat)
    requires Run(step, rank, idle, trace, ops) && k < |trace|
    ensures SenderInv(step, rank, idle, trace[k])
    decreases k
  {
    if k > 0 {
      RunKeeps(step, rank, idle, trace, ops, k - 1);
      assert Allowed(ops[k - 1]);
      if ops[k - 1].Send? {
        OutEventKeeps(step, rank, idle, trace[k - 1], ops[k - 1].room);
      } else {
        EnqueueKeeps(step, rank, idle, trace[k - 1], ops[k - 1].part);
      }
    }
  }

  lemma EnqueueKeeps<S(!new), M(!new)>(step: StepFunction<S, M>, rank: S -> nat, idle: S -> bool, s: Sender<S, M>,
                                       part: Part<M>)
    requires SenderInv(step, rank, idle, s)
    ensures SenderInv(step, rank, idle, s.(queue := s.queue + [part]))
  {
  }

  lemma {:induction false} StreamSplit(frames: seq<Frame>, j: nat)
    requires j <= |frames|
    ensures Stream(frames) == Stream(frames[..j]) + Stream(frames[j..])
    decreases |frames| - j
  {
    if j == |frames| {
      assert frames[..j] == frames;
    } else {
      var front := frames[..|frames| - 1];
      StreamSplit(front, j);
      assert frames[..j] == front[..j];
      assert frames[j..][..|frames[j..]| - 1] == front[j..];
      Assoc(Stream(frames[..j]), Stream(front[j..]), frames[|frames| - 1].bytes);
    }
  }

  /** At any time of any run, for a receiver that listens from packet i on without loss: if it has joined,
      its decoder has been given the frames from number j on, up to what is still in the encoder, where
      frame j begins the first message to begin at or after packet i; otherwise none has begun. */
  lemma ReceiverSeesSuffix<S(!new), M(!new)>(step: StepFunction<S, M>, rank: S -> nat, idle: S -> bool,
                                             trace: seq<Sender<S, M>>, ops: seq<Op<M>>, k: nat, i: nat)
    requires Run(step, rank, idle, trace, ops) && k < |trace| && i <= |trace[k].packets|
    ensures SenderInv(step, rank, idle, trace[k]) && Sane(trace[k].packets)
    ensures var packets, frames := trace[k].packets, trace[k].frames;
      var r := ReceiveAll(packets, i, |packets|);
      if r.joined then
        exists j: nat ::
          && WholeAt(frames, j)
          && |Payloads(packets[..i])| <= Start(frames, j)
          && NoBoundary(frames, |Payloads(packets[..i])|, Start(frames, j))
          && r.fed + Remaining(step, rank, trace[k].e) == Stream(frames[j..])
      else NoBoundary(frames, |Payloads(packets[..i])|, |Payloads(packets)|)
  {
    RunKeeps(step, rank, idle, trace, ops, k);
    var packets, frames, rest := trace[k].packets, trace[k].frames, Remaining(step, rank, trace[k].e);
    forall n | 0 <= n < |packets|
      ensures packets[n].offset == NO_OFFSET || packets[n].offset <= |packets[n].payload|
    {
      assert FirstBoundary(frames, |Payloads(packets[..n])|, packets[n]);
    }
    var j := JoinsAtFirstMessage(frames, packets, i, |packets|);
    assert packets[..|packets|] == packets;
    var r := ReceiveAll(packets, i, |packets|);
    if r.joined {
      StreamSplit(frames, j);
      Assoc(Stream(frames[..j]), r.fed, rest);
      Cancel(Stream(frames[..j]), r.fed + rest, Stream(frames[j..]));
    }
  }

  lemma Cancel(a: seq<Byte>, b: seq<Byte>, c: seq<Byte>)
    requires a + b == a + c
    ensures b == c
  {
    assert (a + b)[|a|..] == b;
    assert (a + c)[|a|..] == c;
  }

  /** The chunks in which the bytes reach the decoder. */
  function Chunks(packets: seq<Packet>, i: nat, n: nat): seq<seq<Byte>>
    requires i <= n <= |packets| && Sane(packets)
    decreases n
  {
    if n == i then []
    else if ReceiveAll(packets, i, n - 1).joined then Chunks(packets, i, n - 1) + [packets[n - 1].payload]
    else if packets[n - 1].offset == NO_OFFSET then []
    else [packets[n - 1].payload[packets[n - 1].offset..]]
  }

  lemma {:induction false} ChunksAreFed(packets: seq<Packet>, i: nat, n: nat)
    requires i <= n <= |packets| && Sane(packets)
    ensures Concat(Chunks(packets, i, n)) == ReceiveAll(packets, i, n).fed
    decreases n
  {
    if i < n {
      ChunksAreFed(packets, i, n - 1);
      if ReceiveAll(packets, i, n - 1).joined {
        ConcatMore(Chunks(packets, i, n - 1), packets[n - 1].payload);
      } else if packets[n - 1].offset != NO_OFFSET {
        var none: seq<seq<Byte>> := [];
        ConcatMore(none, packets[n - 1].payload[packets[n - 1].offset..]);
      } else {
        NotJoinedNotFed(packets, i, n);
      }
    }
  }

  lemma {:induction false} NotJoinedNotFed(packets: seq<Packet>, i: nat, n: nat)
    requires i <= n <= |packets| && Sane(packets) && !ReceiveAll(packets, i, n).joined
    ensures ReceiveAll(packets, i, n).fed == []
    decreases n
  {
    if i < n {
      NotJoinedNotFed(packets, i, n - 1);
    }
  }

  /** The packets do not show: the decoder of a receiver that has joined ends where it would if it were
      given the bytes from the first message on in one piece. */
  lemma PacketsDoNotShow<T(!new)>(step: D.StepFunction<T>, rank: T -> nat, d: D.Decoder<T>,
                                  packets: seq<Packet>, i: nat, n: nat)
    requires D.Progress(step, rank) && D.AtRest(d) && i <= n <= |packets| && Sane(packets)
    ensures D.FeedChunks(step, rank, d, Chunks(packets, i, n))
         == D.Feed(step, rank, d, ReceiveAll(packets, i, n).fed)
  {
    ChunksAreFed(packets, i, n);
    D.ChunksDoNotMatter(step, rank, d, Chunks(packets, i, n));
  }
}
