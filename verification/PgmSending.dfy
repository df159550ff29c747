/**
 * What the PGM sender makes of its queue: the parts go out in the order in which they were enqueued, each as the
 * encoder says, and every packet holds as much as there is and as fits.
 */
module PgmSending {
  import opened Sequences
  import opened Wrappers
  import opened Bytes
  import opened Encoding
  import opened EncodingMessages
  import opened Pgm

  /** The frames of some parts, and the state in which the encoder is after them. */
  datatype Framing<S> = Framing(frames: seq<Frame>, next: S)

  function FramesOf<S(!new), M(!new)>(step: StepFunction<S, M>, ghost rank: S -> nat, initial: S, parts: seq<Part<M>>)
      : Framing<S>
    requires Progress(step, rank)
  {
    if parts == [] then Framing([], initial)
    else
      var last := parts[|parts| - 1];
      var r := FramesOf(step, rank, initial, parts[..|parts| - 1]);
      var p := Script(step, rank, r.next, last.msg);
      Framing(r.frames + [Frame(p.bytes, last.more)], p.next)
  }

  lemma FramesStep<S(!new), M(!new)>(step: StepFunction<S, M>, rank: S -> nat, initial: S, parts: seq<Part<M>>,
                                     part: Part<M>)
    requires Progress(step, rank)
    ensures var r := FramesOf(step, rank, initial, parts);
      var p := Script(step, rank, r.next, part.msg);
      FramesOf(step, rank, initial, parts + [part]) == Framing(r.frames + [Frame(p.bytes, part.more)], p.next)
  {
    assert (parts + [part])[..|parts|] == parts;
  }

  /** The frames loaded so far are those of the parts in `done`, and the encoder is at the last of them. */
  ghost predicate Loaded<S(!new), M(!new)>(step: StepFunction<S, M>, rank: S -> nat, initial: S, s: Sender<S, M>,
                                           done: seq<Part<M>>)
    requires Progress(step, rank) && Consistent(s.e)
  {
    Framing(s.frames, EndOf(step, rank, s.e)) == FramesOf(step, rank, initial, done)
  }

  lemma EncodeEnds<S(!new), M(!new)>(step: StepFunction<S, M>, rank: S -> nat, e: Encoder<S, M>, room: nat)
    requires Progress(step, rank) && Consistent(e)
    ensures EndOf(step, rank, Encode(step, rank, e, room, true).e) == EndOf(step, rank, e)
  {
    if e.inProgress.Some? {
      FillEnds(step, rank, e, room);
    }
  }

  /** Loading the next part of the queue. */
  lemma NextLoaded<S(!new), M(!new)>(step: StepFunction<S, M>, rank: S -> nat, initial: S, k: Packing<S, M>,
                                     room: nat, done: seq<Part<M>>)
    requires Progress(step, rank) && Consistent(k.s.e) && k.s.e.inProgress.None? && k.s.queue != []
    requires |k.payload| <= room && Loaded(step, rank, initial, k.s, done)
    ensures var n := PackNext(step, rank, k, room);
      && Consistent(n.s.e) && n.s.queue == k.s.queue[1..]
      && Loaded(step, rank, initial, n.s, done + [k.s.queue[0]])
  {
    var part := k.s.queue[0];
    var e := Load(step, k.s.e, part.msg);
    LoadSays(step, rank, k.s.e, part.msg);
    EncodeEnds(step, rank, e, room - |k.payload|);
    FramesStep(step, rank, initial, done, part);
  }

  /** The loop is at k, and may go on. */
  ghost predicate Going<S(!new), M(!new)>(step: StepFunction<S, M>, rank: S -> nat, initial: S, k: Packing<S, M>,
                                          room: nat, done: seq<Part<M>>)
    requires Progress(step, rank)
  {
    && |k.payload| <= room && Consistent(k.s.e) && (|k.payload| < room ==> k.s.e.inProgress.None?)
    && Loaded(step, rank, initial, k.s, done)
  }

  /** One round of the loop of out_event. */
  lemma PackRound<S(!new), M(!new)>(step: StepFunction<S, M>, rank: S -> nat, initial: S, k: Packing<S, M>,
                                    room: nat, done: seq<Part<M>>, n: Packing<S, M>)
    requires Progress(step, rank) && Going(step, rank, initial, k, room, done)
    requires |k.payload| < room && k.s.queue != [] && n == PackNext(step, rank, Marked(k), room)
    ensures Going(step, rank, initial, n, room, done + [k.s.queue[0]])
    ensures Pack(step, rank, k, room) == Pack(step, rank, n, room)
    ensures n.s.queue == k.s.queue[1..] && n.s.packets == k.s.packets && k.payload <= n.payload
  {
    NextLoaded(step, rank, initial, Marked(k), room, done);
    EncodeKeeps(step, rank, Load(step, k.s.e, k.s.queue[0].msg), room - |k.payload|, true);
  }

  /** Where the loop ends: it has taken these parts from the front of the queue, and the packet is full or nothing
      is left. */
  ghost predicate Packed<S(!new), M(!new)>(
      step: StepFunction<S, M>, rank: S -> nat, initial: S, k: Packing<S, M>, r: Packing<S, M>, room: nat,
      done: seq<Part<M>>, taken: seq<Part<M>>)
    requires Progress(step, rank)
  {
    && Going(step, rank, initial, r, room, done + taken)
    && taken + r.s.queue == k.s.queue && r.s.packets == k.s.packets && k.payload <= r.payload
    && (|r.payload| == room || (r.s.queue == [] && r.s.e.inProgress.None?))
  }

  lemma PackedMore<S(!new), M(!new)>(
      step: StepFunction<S, M>, rank: S -> nat, initial: S, k: Packing<S, M>, n: Packing<S, M>, r: Packing<S, M>,
      room: nat, done: seq<Part<M>>, taken: seq<Part<M>>)
    requires Progress(step, rank) && k.s.queue != [] && n.s.queue == k.s.queue[1..]
    requires n.s.packets == k.s.packets && k.payload <= n.payload
    requires Packed(step, rank, initial, n, r, room, done + [k.s.queue[0]], taken)
    ensures Packed(step, rank, initial, k, r, room, done, [k.s.queue[0]] + taken)
  {
    assert (done + [k.s.queue[0]]) + taken == done + ([k.s.queue[0]] + taken);
    assert ([k.s.queue[0]] + taken) + r.s.queue == [k.s.queue[0]] + (taken + r.s.queue);
    assert k.s.queue == [k.s.queue[0]] + k.s.queue[1..];
    assert k.payload <= r.payload by {
      assert r.payload[..|k.payload|] == r.payload[..|n.payload|][..|k.payload|];
    }
  }

  lemma PackedNow<S(!new), M(!new)>(step: StepFunction<S, M>, rank: S -> nat, initial: S, k: Packing<S, M>,
                                    r: Packing<S, M>, room: nat, done: seq<Part<M>>)
    requires Progress(step, rank) && Going(step, rank, initial, k, room, done)
    requires |k.payload| == room || k.s.queue == []
    requires r.s == k.s && r.payload == k.payload
    ensures Packed(step, rank, initial, k, r, room, done, [])
  {
    assert done + [] == done && [] + k.s.queue == k.s.queue;
  }

  /** The loop takes parts from the front of the queue as long as there are some and the packet is not full. */
  lemma {:induction false} PackTakes<S(!new), M(!new)>(
      step: StepFunction<S, M>, rank: S -> nat, initial: S, k: Packing<S, M>, room: nat, done: seq<Part<M>>)
      returns (taken: seq<Part<M>>)
    requires Progress(step, rank) && Going(step, rank, initial, k, room, done)
    ensures Packed(step, rank, initial, k, Pack(step, rank, k, room), room, done, taken)
    decreases |k.s.queue|
  {
    if |k.payload| == room || k.s.queue == [] {
      taken := [];
      PackedNow(step, rank, initial, k, Pack(step, rank, k, room), room, done);
    } else {
      var n := PackNext(step, rank, Marked(k), room);
      PackRound(step, rank, initial, k, room, done, n);
      taken := PackTakes(step, rank, initial, n, room, done + [k.s.queue[0]]);
      PackedMore(step, rank, initial, k, n, Pack(step, rank, n, room), room, done, taken);
      taken := [k.s.queue[0]] + taken;
    }
  }

  // ------------------------------------------------------------------ one event

  /** What can be sent: bytes in the encoder, or parts in the queue. */
  predicate Pending<S(!new), M(!new)>(step: StepFunction<S, M>, ghost rank: S -> nat, s: Sender<S, M>)
    requires Progress(step, rank) && Consistent(s.e)
  {
    Remaining(step, rank, s.e) != [] || s.queue != []
  }

  /** out_event takes parts from the front of the queue, frames them, and sends one packet at most: it is full, or all
      there was has been sent. */
  lemma OutEventSends<S(!new), M(!new)>(step: StepFunction<S, M>, rank: S -> nat, initial: S, s: Sender<S, M>,
                                        room: nat, done: seq<Part<M>>) returns (taken: seq<Part<M>>)
    requires Progress(step, rank) && Consistent(s.e) && room > 0 && Loaded(step, rank, initial, s, done)
    ensures var r := OutEvent(step, rank, s, room);
      && Consistent(r.e) && taken + r.queue == s.queue && Loaded(step, rank, initial, r, done + taken)
      && (if r.packets == s.packets then r.queue == [] && r.e.inProgress.None?
          else
            && |r.packets| == |s.packets| + 1 && r.packets[..|s.packets|] == s.packets
            && 0 < |r.packets[|s.packets|].payload| <= room
            && (|r.packets[|s.packets|].payload| == room || (r.queue == [] && r.e.inProgress.None?)))
  {
    EncodeKeeps(step, rank, s.e, room, true);
    EncodeEnds(step, rank, s.e, room);
    var e := Encode(step, rank, s.e, room, true);
    var k := Packing(s.(e := e.e), e.out, NO_OFFSET);
    taken := PackTakes(step, rank, initial, k, room, done);
    PostedIs(Pack(step, rank, k, room));
  }

  lemma PostedIs<S, M>(k: Packing<S, M>)
    ensures var r := Posted(k);
      && r == k.s.(packets := r.packets)
      && (if k.payload == [] then r.packets == k.s.packets
          else |r.packets| == |k.s.packets| + 1 && r.packets[..|k.s.packets|] == k.s.packets
               && r.packets[|k.s.packets|].payload == k.payload)
  {
  }

  // ------------------------------------------------------------------ whole runs

  /** The parts that have been put into the queue. */
  function Enqueued<M>(ops: seq<Op<M>>): seq<Part<M>> {
    if ops == [] then []
    else
      var op := ops[|ops| - 1];
      Enqueued(ops[..|ops| - 1]) + if op.Enqueue? then [op.part] else []
  }

  /** One step: the parts that have been framed and those that wait are all there have been. */
  lemma StepLoads<S(!new), M(!new)>(step: StepFunction<S, M>, rank: S -> nat, initial: S, s: Sender<S, M>, op: Op<M>,
                                    done: seq<Part<M>>) returns (done': seq<Part<M>>)
    requires Progress(step, rank) && Consistent(s.e) && Allowed(op) && Loaded(step, rank, initial, s, done)
    ensures var r := Step(step, rank, s, op);
      && Consistent(r.e) && Loaded(step, rank, initial, r, done') && done <= done'
      && done' + r.queue == done + s.queue + if op.Enqueue? then [op.part] else []
  {
    match op
    case Enqueue(part) =>
      done' := done;
      assert done + (s.queue + [part]) == done + s.queue + [part];
    case Send(room) =>
      var taken := OutEventSends(step, rank, initial, s, room, done);
      done' := done + taken;
      var r := OutEvent(step, rank, s, room);
      assert (done + taken) + r.queue == done + (taken + r.queue);
      assert done + s.queue + [] == done + s.queue;
  }

  /** In every run of the sender: the parts that were queued at first and those enqueued since have gone out from the
      front, in this order, each framed once as the step machine says from the state in which the one before ended;
      and the bytes in the packets and those left in the encoder are these frames. */
  lemma {:induction false} QueueGoesOut<S(!new), M(!new)>(
      step: StepFunction<S, M>, rank: S -> nat, idle: S -> bool, trace: seq<Sender<S, M>>, ops: seq<Op<M>>, k: nat)
      returns (done: seq<Part<M>>)
    requires Run(step, rank, idle, trace, ops) && k < |trace|
    ensures var s := trace[k];
      && Consistent(s.e) && done + s.queue == trace[0].queue + Enqueued(ops[..k])
      && Loaded(step, rank, trace[0].e.state, s, done)
      && Stream(s.frames) == Payloads(s.packets) + Remaining(step, rank, s.e)
    decreases k
  {
    RunKeeps(step, rank, idle, trace, ops, k);
    if k == 0 {
      done := [];
      assert [] + trace[0].queue == trace[0].queue + [];
    } else {
      var before := QueueGoesOut(step, rank, idle, trace, ops, k - 1);
      var s, op := trace[k - 1], ops[k - 1];
      assert trace[k - 1 + 1] == Step(step, rank, s, op);
      done := StepLoads(step, rank, trace[0].e.state, s, op, before);
      assert ops[..k][..k - 1] == ops[..k - 1];
      Assoc(trace[0].queue, Enqueued(ops[..k - 1]), if op.Enqueue? then [op.part] else []);
    }
  }
}
