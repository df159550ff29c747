/**
 * fq_t by value: round-robin reading from an array whose first `active` pipes may have frames.
 */
module FairQueue {
  import opened Wrappers
  import opened Messages
  import opened Pipes
  import opened R = Rotation

  /** The fields of fq_t; `ring` is the array with its two counters. */
  datatype Fq<P> = Fq(ring: Ring<P>, more: bool, lastIn: Option<P>)

  function Terminate<P(==)>(q: Fq<P>, p: P): Fq<P>
    requires Valid(q.ring) && p in q.ring.items
  {
    Fq(Terminated(q.ring, p), q.more, if q.lastIn == Some(p) then None else q.lastIn)
  }

  /** What a frame read from the current pipe changes. */
  function Received<P(==)>(q: Fq<P>, more: bool): (r: Fq<P>)
    requires Valid(q.ring) && q.ring.active > 0
    ensures Valid(r.ring)
  {
    if more then q.(more := true)
    else Fq(Next(q.ring), false, Some(q.ring.items[q.ring.current]))
  }

  type Queues<P, C> = map<P, seq<Message<C>>>

  function Ready<P(==), C>(queues: Queues<P, C>): set<P> {
    set p | p in queues && queues[p] != []
  }

  predicate Fed<P(==), C>(q: Fq<P>, queues: Queues<P, C>) {
    Valid(q.ring) && queues.Keys == Prefix(q.ring.items, |q.ring.items|)
  }

  /** The state after looking for a frame, and the pipe it was found on; `more` is its flag. */
  function Fetched<P(==)>(q: Fq<P>, ready: set<P>, more: bool): (Fq<P>, Option<P>)
    requires Valid(q.ring)
  {
    var ring := Advance(q.ring, ready);
    if ring.active == 0 then (q.(ring := ring), None)
    else (Received(q.(ring := ring), more), Some(ring.items[ring.current]))
  }

  /** The pipe whose turn it is, if any is ready. */
  function Turn<P(==)>(ring: Ring<P>, ready: set<P>): (r: Option<P>)
    requires Valid(ring)
    ensures r.Some? ==> r.value in ready
  {
    var r := Advance(ring, ready);
    if r.active == 0 then None else Some(r.items[r.current])
  }

  /** recvpipe: the new state, the queues, and the frame with the pipe it came from. */
  function Recv<P(==), C>(q: Fq<P>, queues: Queues<P, C>): (Fq<P>, Queues<P, C>, Option<(P, Message<C>)>)
    requires Fed(q, queues)
  {
    var ready := Ready(queues);
    match Turn(q.ring, ready)
    case None => (Fetched(q, ready, false).0, queues, None)
    case Some(p) =>
      (Fetched(q, ready, queues[p][0].more).0, queues[p := queues[p][1..]], Some((p, queues[p][0])))
  }

  /** has_in. */
  function HasIn<P(==), C>(q: Fq<P>, queues: Queues<P, C>): (Fq<P>, bool)
    requires Fed(q, queues)
  {
    if q.more then (q, true)
    else
      var ring := Advance(q.ring, Ready(queues));
      (q.(ring := ring), ring.active > 0)
  }

  // ------------------------------------------------------------------ runs

  /** `out` is what recv returned; `arrived[p]` everything that ever became readable on p. */
  datatype System<P, C> = System(
    q: Fq<P>, queues: Queues<P, C>, out: seq<(P, Message<C>)>, arrived: map<P, seq<Message<C>>>)

  datatype Op<P, C> =
    | OpAttach(p: P)
    | OpActivated(p: P)
    | OpTerminated(p: P)
    | OpArrive(p: P, message: seq<Message<C>>)
    | OpRecv
    | OpHasIn

  /** In the middle of a message: not the pipe being read, and one that leaves it the turn. */
  predicate Harmless<P(==)>(ring: Ring<P>, p: P)
    requires p in ring.items
  {
    Valid(ring) && ring.active > 0 && ring.items[ring.current] != p && TurnKept(ring, p)
  }

  /** What pipe_t does: it makes whole messages readable, and reports readiness of passive pipes. */
  predicate Allowed<P(==), C>(s: System<P, C>, op: Op<P, C>) {
    match op
    case OpAttach(p) => p !in s.arrived && p !in s.q.ring.items
    case OpActivated(p) => p in s.q.ring.items && Position(s.q.ring.items, p) >= s.q.ring.active
    case OpTerminated(p) => p in s.q.ring.items && (s.q.more ==> Harmless(s.q.ring, p))
    case OpArrive(p, message) => p in s.queues && p in s.arrived && WholeMessage(message)
    case OpRecv => true
    case OpHasIn => true
  }

  function Step<P(==), C>(s: System<P, C>, op: Op<P, C>): System<P, C>
    requires Fed(s.q, s.queues) && Allowed(s, op)
  {
    match op
    case OpAttach(p) => System(s.q.(ring := Attach(s.q.ring, p)), s.queues[p := []], s.out, s.arrived[p := []])
    case OpActivated(p) => s.(q := s.q.(ring := Activated(s.q.ring, p)))
    case OpTerminated(p) => s.(q := Terminate(s.q, p), queues := s.queues - {p})
    case OpArrive(p, message) =>
      s.(queues := s.queues[p := s.queues[p] + message], arrived := s.arrived[p := s.arrived[p] + message])
    case OpRecv =>
      var (q, queues, got) := Recv(s.q, s.queues);
      System(q, queues, if got.Some? then s.out + [got.value] else s.out, s.arrived)
    case OpHasIn => s.(q := HasIn(s.q, s.queues).0)
  }

  // ------------------------------------------------------------------ whole messages in order

  /** The frames of `out` that came from p. */
  function From<P(==), C>(out: seq<(P, Message<C>)>, p: P): seq<Message<C>> {
    if out == [] then []
    else
      var front := From(out[..|out| - 1], p);
      if out[|out| - 1].0 == p then front + [out[|out| - 1].1] else front
  }

  /** After a frame that announces another one, the next frame is from the same pipe. */
  predicate Unmixed<P(==), C>(out: seq<(P, Message<C>)>) {
    forall i | 0 <= i < |out| - 1 :: out[i].1.more ==> out[i + 1].0 == out[i].0
  }

  predicate EndsWhole<C>(queue: seq<Message<C>>) {
    queue != [] ==> !queue[|queue| - 1].more
  }

  /** The output so far, and the message being read, which its pipe can go on with. */
  predicate Stream<P(==), C>(s: System<P, C>)
    requires Fed(s.q, s.queues)
  {
    && Unmixed(s.out)
    && (s.q.more <==> s.out != [] && s.out[|s.out| - 1].1.more)
    && (s.q.more ==> s.q.ring.active > 0 && s.out[|s.out| - 1].0 == s.q.ring.items[s.q.ring.current]
                     && s.q.ring.items[s.q.ring.current] in Ready(s.queues))
  }

  /** What was returned from p and what can still be read is what arrived on p, in order. */
  ghost predicate InOrder<P, C>(s: System<P, C>, p: P) {
    && p in s.arrived
    && (p in s.queues ==> EndsWhole(s.queues[p]) && From(s.out, p) + s.queues[p] == s.arrived[p])
    && From(s.out, p) <= s.arrived[p]
  }

  predicate Known<P(==), C>(s: System<P, C>) {
    && s.queues.Keys <= s.arrived.Keys
    && forall i | 0 <= i < |s.out| :: s.out[i].0 in s.arrived
  }

  ghost predicate Inv<P, C>(s: System<P, C>) {
    Fed(s.q, s.queues) && Known(s) && Stream(s) && forall p | p in s.arrived :: InOrder(s, p)
  }

  lemma RecvFed<P, C>(s: System<P, C>)
    requires Fed(s.q, s.queues) && Known(s)
    ensures Fed(Step(s, OpRecv).q, Step(s, OpRecv).queues) && Known(Step(s, OpRecv))
  {
    AdvanceItems(s.q.ring, Ready(s.queues));
  }

  /** Reading one frame keeps messages unmixed. */
  lemma RecvStream<P, C>(s: System<P, C>)
    requires Fed(s.q, s.queues) && Stream(s) && forall p | p in s.queues :: EndsWhole(s.queues[p])
    requires Fed(Step(s, OpRecv).q, Step(s, OpRecv).queues)
    ensures Stream(Step(s, OpRecv))
  {
    assert s.q.more ==> Advance(s.q.ring, Ready(s.queues)) == s.q.ring;
  }

  /** Reading one frame keeps every pipe's frames in order. */
  lemma RecvInOrder<P, C>(s: System<P, C>, p: P)
    requires Fed(s.q, s.queues) && InOrder(s, p)
    ensures InOrder(Step(s, OpRecv), p)
  {
    var a := Advance(s.q.ring, Ready(s.queues));
    var r := Step(s, OpRecv);
    if a.active > 0 {
      assert r.out[..|s.out|] == s.out;
      if p == a.items[a.current] {
        assert s.queues[p] == [s.queues[p][0]] + r.queues[p];
        assert From(r.out, p) == From(s.out, p) + [s.queues[p][0]];
        assert From(s.out, p) + s.queues[p] == From(r.out, p) + r.queues[p];
      } else {
        assert From(r.out, p) == From(s.out, p);
      }
    }
  }

  lemma TerminateFed<P, C>(q: Fq<P>, queues: Queues<P, C>, p: P)
    requires Fed(q, queues) && p in q.ring.items
    ensures Fed(Terminate(q, p), queues - {p})
    ensures p !in Terminate(q, p).ring.items
  {
    TerminatedItems(q.ring, p);
    var r := Terminate(q, p).ring;
    assert r.items[..|r.items|] == r.items;
  }

  lemma StepFed<P, C>(s: System<P, C>, op: Op<P, C>)
    requires Inv(s) && Allowed(s, op)
    ensures Fed(Step(s, op).q, Step(s, op).queues) && Known(Step(s, op))
  {
    match op
    case OpAttach(p) => AttachItems(s.q.ring, p);
    case OpActivated(p) => ActivatedItems(s.q.ring, p);
    case OpTerminated(p) => TerminateFed(s.q, s.queues, p);
    case OpArrive(p, message) =>
    case OpRecv => RecvFed(s);
    case OpHasIn => AdvanceItems(s.q.ring, Ready(s.queues));
  }

  lemma StepInOrder<P, C>(s: System<P, C>, op: Op<P, C>, p: P)
    requires Inv(s) && Allowed(s, op) && p in Step(s, op).arrived
    ensures InOrder(Step(s, op), p)
  {
    match op
    case OpRecv => RecvInOrder(s, p);
    case OpArrive(x, message) => ArriveInOrder(s, x, message, p);
    case _ => QuietInOrder(s, op, p);
  }

  lemma ArriveInOrder<P, C>(s: System<P, C>, x: P, message: seq<Message<C>>, p: P)
    requires Inv(s) && Allowed(s, OpArrive(x, message)) && p in s.arrived
    ensures InOrder(Step(s, OpArrive(x, message)), p)
  {
    if p == x {
      assert From(s.out, p) + (s.queues[p] + message) == s.arrived[p] + message;
    }
  }

  /** Pipes that are attached, activated or gone bring no frames. */
  lemma QuietInOrder<P, C>(s: System<P, C>, op: Op<P, C>, p: P)
    requires Inv(s) && Allowed(s, op) && p in Step(s, op).arrived && !op.OpRecv? && !op.OpArrive?
    ensures InOrder(Step(s, op), p)
  {
    if p !in s.arrived {
      NeverFrom(s.out, p);
    }
  }

  /** The same output, and the same pipe has the turn and can go on. */
  lemma SameTurn<P, C>(s: System<P, C>, r: System<P, C>)
    requires Fed(s.q, s.queues) && Stream(s) && Fed(r.q, r.queues)
    requires r.out == s.out && r.q.more == s.q.more
    requires s.q.more ==> r.q.ring.active > 0 && r.q.ring.items[r.q.ring.current] == s.q.ring.items[s.q.ring.current]
    requires s.q.more ==> s.q.ring.items[s.q.ring.current] in Ready(r.queues)
    ensures Stream(r)
  {
  }

  lemma TerminateStream<P, C>(s: System<P, C>, p: P)
    requires Fed(s.q, s.queues) && Stream(s) && Allowed(s, OpTerminated(p))
    requires Fed(Terminate(s.q, p), s.queues - {p})
    ensures Stream(s.(q := Terminate(s.q, p), queues := s.queues - {p}))
  {
    if s.q.more {
      TerminationAndTurn(s.q.ring, p);
    }
    SameTurn(s, s.(q := Terminate(s.q, p), queues := s.queues - {p}));
  }

  lemma JoinStream<P, C>(s: System<P, C>, r: System<P, C>)
    requires Fed(s.q, s.queues) && Stream(s) && Fed(r.q, r.queues)
    requires r.out == s.out && r.q.more == s.q.more
    requires s.q.more ==> r.q.ring.active > 0 && r.q.ring.items[r.q.ring.current] == s.q.ring.items[s.q.ring.current]
    requires s.queues.Keys <= r.queues.Keys && forall p | p in s.queues :: |s.queues[p]| <= |r.queues[p]|
    ensures Stream(r)
  {
  }

  lemma StepStream<P, C>(s: System<P, C>, op: Op<P, C>)
    requires Inv(s) && Allowed(s, op) && Fed(Step(s, op).q, Step(s, op).queues)
    ensures Stream(Step(s, op))
  {
    match op
    case OpAttach(p) =>
      AttachItems(s.q.ring, p);
      JoinStream(s, Step(s, op));
    case OpActivated(p) =>
      ActivatedItems(s.q.ring, p);
      JoinStream(s, Step(s, op));
    case OpTerminated(p) => TerminateStream(s, p);
    case OpArrive(p, message) => JoinStream(s, Step(s, op));
    case OpRecv =>
      forall p | p in s.queues
        ensures EndsWhole(s.queues[p])
      {
        assert InOrder(s, p);
      }
      RecvStream(s);
    case OpHasIn =>
  }

  lemma StepKeeps<P, C>(s: System<P, C>, op: Op<P, C>)
    requires Inv(s) && Allowed(s, op)
    ensures Inv(Step(s, op))
  {
    StepFed(s, op);
    StepStream(s, op);
    forall p | p in Step(s, op).arrived
      ensures InOrder(Step(s, op), p)
    {
      StepInOrder(s, op, p);
    }
  }

  lemma {:induction false} NeverFrom<P, C>(out: seq<(P, Message<C>)>, p: P)
    requires forall i | 0 <= i < |out| :: out[i].0 != p
    ensures From(out, p) == []
  {
    if out != [] {
      NeverFrom(out[..|out| - 1], p);
    }
  }

  function Start<P, C>(): System<P, C> {
    System(Fq(Ring([], 0, 0), false, None), map[], [], map[])
  }

  ghost predicate Run<P, C>(from: System<P, C>, trace: seq<System<P, C>>, ops: seq<Op<P, C>>) {
    && |trace| == |ops| + 1 && trace[0] == from
    && forall i {:trigger ops[i]} | 0 <= i < |ops| ::
         Fed(trace[i].q, trace[i].queues) && Allowed(trace[i], ops[i]) && trace[i + 1] == Step(trace[i], ops[i])
  }

  lemma {:induction false} RunKeeps<P, C>(from: System<P, C>, trace: seq<System<P, C>>, ops: seq<Op<P, C>>, k: nat)
    requires Inv(from) && Run(from, trace, ops) && k < |trace|
    ensures Inv(trace[k])
    decreases k
  {
    if k > 0 {
      RunKeeps(from, trace, ops, k - 1);
      StepKeeps(trace[k - 1], ops[k - 1]);
      assert trace[k - 1 + 1] == Step(trace[k - 1], ops[k - 1]);
    }
  }

  /** In every run, what recv returns is a concatenation of whole messages, each from one pipe, the
      last one possibly still being read; and each pipe's frames come out once each and in order. */
  lemma MessagesStayWhole<P, C>(trace: seq<System<P, C>>, ops: seq<Op<P, C>>, k: nat)
    requires Run(Start(), trace, ops) && k < |trace|
    ensures var s := trace[k];
      && Unmixed(s.out)
      && (s.q.more <==> s.out != [] && s.out[|s.out| - 1].1.more)
      && (forall p | p in s.queues :: p in s.arrived && From(s.out, p) + s.queues[p] == s.arrived[p])
      && (forall p | p in s.arrived :: From(s.out, p) <= s.arrived[p])
      && (forall i | 0 <= i < |s.out| :: s.out[i].0 in s.arrived)
  {
    RunKeeps(Start<P, C>(), trace, ops, k);
    forall p | p in trace[k].arrived
      ensures InOrder(trace[k], p)
    {
    }
  }

  /** In the middle of a message recv never fails and goes on with the same pipe, so the assertion
      that a failed read happens only between messages holds. */
  lemma MiddleNeverBlocks<P, C>(trace: seq<System<P, C>>, ops: seq<Op<P, C>>, k: nat)
    requires Run(Start(), trace, ops) && k < |trace| && trace[k].q.more
    ensures var s := trace[k];
      && Fed(s.q, s.queues) && s.q.ring.active > 0 && s.out != []
      && s.q.ring.items[s.q.ring.current] in Ready(s.queues)
      && Recv(s.q, s.queues).2.Some?
      && Recv(s.q, s.queues).2.value.0 == s.out[|s.out| - 1].0
  {
    RunKeeps(Start<P, C>(), trace, ops, k);
  }

  /** A pipe that terminates in the middle of a message leaves the queue able to go on with it exactly
      if it is harmless; otherwise the next frame would be taken from another pipe. */
  lemma TerminationExact<P, C>(s: System<P, C>, p: P)
    requires Inv(s) && p in s.q.ring.items && s.q.more
    ensures var r := s.(q := Terminate(s.q, p), queues := s.queues - {p});
      Fed(r.q, r.queues) && (Stream(r) <==> Harmless(s.q.ring, p))
  {
    TerminateFed(s.q, s.queues, p);
    if s.q.ring.items[s.q.ring.current] != p {
      TerminationAndTurn(s.q.ring, p);
    }
  }

  // ------------------------------------------------------------------ a run that mixes messages

  ghost predicate Reachable<P(!new), C(!new)>(s: System<P, C>) {
    exists trace: seq<System<P, C>>, ops: seq<Op<P, C>> :: Run(Start(), trace, ops) && trace[|ops|] == s
  }

  lemma ReachStart<P(!new), C(!new)>()
    ensures Reachable(Start<P, C>())
  {
    var ops: seq<Op<P, C>> := [];
    assert Run(Start<P, C>(), [Start<P, C>()], ops);
  }

  lemma ReachInv<P(!new), C(!new)>(s: System<P, C>)
    requires Reachable(s)
    ensures Inv(s)
  {
    var trace: seq<System<P, C>>, ops: seq<Op<P, C>> :| Run(Start(), trace, ops) && trace[|ops|] == s;
    RunKeeps(Start<P, C>(), trace, ops, |ops|);
  }

  lemma ReachStep<P(!new), C(!new)>(s: System<P, C>, op: Op<P, C>)
    requires Reachable(s) && Allowed(s, op)
    ensures Inv(s) && Reachable(Step(s, op))
  {
    ReachInv(s);
    var trace: seq<System<P, C>>, ops: seq<Op<P, C>> :| Run(Start(), trace, ops) && trace[|ops|] == s;
    RunLonger(Start(), trace, ops, op, Step(s, op));
    assert (trace + [Step(s, op)])[|ops + [op]|] == Step(s, op);
  }

  lemma RunLonger<P, C>(from: System<P, C>, trace: seq<System<P, C>>, ops: seq<Op<P, C>>, op: Op<P, C>,
                        r: System<P, C>)
    requires Run(from, trace, ops) && Fed(trace[|ops|].q, trace[|ops|].queues)
    requires Allowed(trace[|ops|], op) && r == Step(trace[|ops|], op)
    ensures Run(from, trace + [r], ops + [op])
  {
    var t, o := trace + [r], ops + [op];
    forall i {:trigger o[i]} {:trigger t[i]} | 0 <= i < |o|
      ensures Fed(t[i].q, t[i].queues) && Allowed(t[i], o[i]) && t[i + 1] == Step(t[i], o[i])
    {
      if i < |ops| {
        assert o[i] == ops[i] && t[i] == trace[i] && t[i + 1] == trace[i + 1];
      }
    }
  }

  const LAST: Message<nat> := Message(Vsm, false, false)
  const FIRST: Message<nat> := Message(Vsm, true, false)

  /** Three attached pipes. */
  function Three(active: nat, current: nat, more: bool, lastIn: Option<nat>): Fq<nat> {
    Fq(Ring([0, 1, 2], active, current), more, lastIn)
  }

  const NO_FRAMES: Queues<nat, nat> := map[0 := [], 1 := [], 2 := []]

  const ARRIVED: Queues<nat, nat> := map[0 := [LAST, LAST], 1 := [LAST], 2 := [FIRST, LAST]]

  const ATTACHED: System<nat, nat> := System(Three(3, 0, false, None), NO_FRAMES, [], NO_FRAMES)

  const WAITING: System<nat, nat> := System(Three(3, 0, false, None), ARRIVED, [], ARRIVED)

  /** One message of pipe 0 and one of pipe 1 have been read, and the first frame of pipe 2's. */
  const MIDDLE: System<nat, nat> := System(
    Three(3, 2, true, Some(1)), map[0 := [LAST], 1 := [], 2 := [LAST]], [(0, LAST), (1, LAST), (2, FIRST)], ARRIVED)

  /** Attaching a pipe to others that are all active. */
  lemma ReachAttach(s: System<nat, nat>, p: nat, r: System<nat, nat>)
    requires Reachable(s) && p !in s.arrived && p !in s.q.ring.items && s.q.ring.active == |s.q.ring.items|
    requires r.q.ring.items == s.q.ring.items + [p] && r.q.ring.active == |r.q.ring.items|
    requires r.q == s.q.(ring := Ring(r.q.ring.items, r.q.ring.active, s.q.ring.current)) && r.out == s.out
    requires r.queues == s.queues[p := []] && r.arrived == s.arrived[p := []]
    ensures Reachable(r)
  {
    ReachStep(s, OpAttach(p));
    assert Attach(s.q.ring, p).items == r.q.ring.items;
    assert Step(s, OpAttach(p)) == r;
  }

  lemma ReachArrive(s: System<nat, nat>, p: nat, message: seq<Message<nat>>, queue: seq<Message<nat>>,
                    r: System<nat, nat>)
    requires Reachable(s) && p in s.queues && s.queues == s.arrived && WholeMessage(message)
    requires r.q == s.q && r.out == s.out
    requires queue == s.queues[p] + message && r.queues == s.queues[p := queue] == r.arrived
    ensures Reachable(r)
  {
    ReachStep(s, OpArrive(p, message));
    assert Step(s, OpArrive(p, message)) == r;
  }

  /** Reading from the current pipe, which has a frame. */
  lemma ReachRecv(s: System<nat, nat>, x: nat, r: System<nat, nat>)
    requires Reachable(s) && x in s.queues && s.queues[x] != []
    requires s.q.ring.current < s.q.ring.active <= |s.q.ring.items| && s.q.ring.items[s.q.ring.current] == x
    requires var more := s.queues[x][0].more;
      r.q.ring == (if more then s.q.ring else s.q.ring.(current := (s.q.ring.current + 1) % s.q.ring.active))
      && r.q.more == more && r.q.lastIn == if more then s.q.lastIn else Some(x)
    requires r.queues == s.queues[x := s.queues[x][1..]]
    requires r.out == s.out + [(x, s.queues[x][0])] && r.arrived == s.arrived
    ensures Reachable(r)
  {
    ReachStep(s, OpRecv);
    assert x in Ready(s.queues);
    assert Advance(s.q.ring, Ready(s.queues)) == s.q.ring;
    assert Step(s, OpRecv) == r;
  }

  lemma ReachAttached()
    ensures Reachable(ATTACHED)
  {
    ReachStart<nat, nat>();
    var s1 := System(Fq(Ring([0], 1, 0), false, None), map[0 := []], [], map[0 := []]);
    ReachAttach(Start(), 0, s1);
    var s2 := System(Fq(Ring([0, 1], 2, 0), false, None), map[0 := [], 1 := []], [], map[0 := [], 1 := []]);
    ReachAttach(s1, 1, s2);
    ReachAttach(s2, 2, ATTACHED);
  }

  lemma ReachWaiting()
    ensures Reachable(WAITING)
  {
    ReachAttached();
    var a1, a2 := NO_FRAMES[0 := [LAST]], NO_FRAMES[0 := [LAST, LAST]];
    var s1, s2 := ATTACHED.(queues := a1, arrived := a1), ATTACHED.(queues := a2, arrived := a2);
    ReachArrive(ATTACHED, 0, [LAST], [LAST], s1);
    ReachArrive(s1, 0, [LAST], [LAST, LAST], s2);
    var a3 := a2[1 := [LAST]];
    var s3 := ATTACHED.(queues := a3, arrived := a3);
    ReachArrive(s2, 1, [LAST], [LAST], s3);
    ReachArrive(s3, 2, [FIRST, LAST], [FIRST, LAST], WAITING);
  }

  const READ_ONE: System<nat, nat> := System(
    Three(3, 1, false, Some(0)), map[0 := [LAST], 1 := [LAST], 2 := [FIRST, LAST]], [(0, LAST)], ARRIVED)

  const READ_TWO: System<nat, nat> := System(
    Three(3, 2, false, Some(1)), map[0 := [LAST], 1 := [], 2 := [FIRST, LAST]], [(0, LAST), (1, LAST)], ARRIVED)

  lemma ReachReadOne()
    ensures Reachable(READ_ONE)
  {
    ReachWaiting();
    assert ARRIVED[0][1..] == [LAST];
    ReachRecv(WAITING, 0, READ_ONE);
  }

  lemma ReachReadTwo()
    ensures Reachable(READ_TWO)
  {
    ReachReadOne();
    assert READ_ONE.queues[1][1..] == [];
    ReachRecv(READ_ONE, 1, READ_TWO);
  }

  lemma ReachMiddle()
    ensures Reachable(MIDDLE)
  {
    ReachReadTwo();
    assert READ_TWO.queues[2][1..] == [LAST];
    ReachRecv(READ_TWO, 2, MIDDLE);
  }

  /** Three pipes, one message read from pipe 0 and one from pipe 1, and the first of two frames from pipe 2.  Now
      pipe 1 terminates, and the next call returns a frame of pipe 0 in the middle of pipe 2's message. */
  lemma TerminationCanMix()
    ensures Reachable(MIDDLE) && Fed(MIDDLE.q, MIDDLE.queues) && MIDDLE.q.more && !TurnKept(MIDDLE.q.ring, 1)
    ensures var q, queues := Terminate(MIDDLE.q, 1), MIDDLE.queues - {1};
      && Fed(q, queues) && Recv(q, queues).2 == Some((0, LAST))
      && !Unmixed(MIDDLE.out + [(0, LAST)])
  {
    ReachMiddle();
    ReachInv(MIDDLE);
    TerminateFed(MIDDLE.q, MIDDLE.queues, 1);
    var q, queues := Terminate(MIDDLE.q, 1), MIDDLE.queues - {1};
    assert q == Fq(Ring([0, 2], 2, 0), true, None);
    assert 0 in Ready(queues);
    var out := MIDDLE.out + [(0, LAST)];
    assert out[2].1.more && out[2 + 1].0 != out[2].0;
  }

  // ------------------------------------------------------------------ nothing readable is forgotten

  /** recv returns a frame exactly if a pipe that takes turns has one, and then the first frame of such a pipe. */
  lemma RecvExactly<P, C>(q: Fq<P>, queues: Queues<P, C>)
    requires Fed(q, queues)
    ensures Recv(q, queues).2.Some? <==> exists p :: p in Actives(q.ring) && p in queues && queues[p] != []
    ensures Recv(q, queues).2.Some? ==>
      var p := Recv(q, queues).2.value.0;
      && p in Actives(q.ring) && p in queues && queues[p] != []
      && Recv(q, queues).2.value.1 == queues[p][0] && Recv(q, queues).1 == queues[p := queues[p][1..]]
  {
    AdvanceFinds(q.ring, Ready(queues));
    AdvanceActives(q.ring, Ready(queues));
    var a := Advance(q.ring, Ready(queues));
    if a.active > 0 {
      assert a.items[..a.active][a.current] == a.items[a.current];
      assert a.items[a.current] in Actives(a);
    } else {
      assert forall p | p in Actives(q.ring) :: p !in Ready(queues);
    }
  }

  /** has_in says whether recv would return one. */
  lemma HasInExactly<P, C>(q: Fq<P>, queues: Queues<P, C>)
    requires Fed(q, queues)
    ensures HasIn(q, queues).1 <==> q.more || Recv(q, queues).2.Some?
  {
  }

  predicate Polls<P, C>(op: Op<P, C>) {
    op.OpRecv? || op.OpHasIn?
  }

  /** A look at the pipes that finds p without a frame. */
  predicate FindsEmpty<P(==), C>(s: System<P, C>, op: Op<P, C>, p: P) {
    Polls(op) && (p in s.queues ==> s.queues[p] == [])
  }

  lemma RecvActives<P, C>(q: Fq<P>, queues: Queues<P, C>, p: P)
    requires Fed(q, queues) && Valid(Recv(q, queues).0.ring)
    ensures p in Actives(Recv(q, queues).0.ring) ==> p in Actives(q.ring)
    ensures p in Actives(q.ring) && p in Ready(queues) ==> p in Actives(Recv(q, queues).0.ring)
  {
    AdvanceActives(q.ring, Ready(queues));
    assert Actives(Recv(q, queues).0.ring) == Actives(Advance(q.ring, Ready(queues)));
  }

  lemma HasInActives<P, C>(q: Fq<P>, queues: Queues<P, C>, p: P)
    requires Fed(q, queues) && Valid(HasIn(q, queues).0.ring)
    ensures p in Actives(HasIn(q, queues).0.ring) ==> p in Actives(q.ring)
    ensures p in Actives(q.ring) && p in Ready(queues) ==> p in Actives(HasIn(q, queues).0.ring)
  {
    AdvanceActives(q.ring, Ready(queues));
  }

  lemma ActiveHasQueue<P, C>(q: Fq<P>, queues: Queues<P, C>, p: P)
    requires Fed(q, queues) && p in Actives(q.ring)
    ensures p in queues
  {
    assert q.ring.items[..|q.ring.items|] == q.ring.items;
  }

  /** A pipe takes turns from when it is attached or reported readable until it is found empty or goes. */
  lemma TakesTurns<P, C>(s: System<P, C>, op: Op<P, C>, p: P)
    requires Inv(s) && Allowed(s, op) && Fed(Step(s, op).q, Step(s, op).queues)
    ensures op == OpAttach(p) || op == OpActivated(p) ==> p in Actives(Step(s, op).q.ring)
    ensures p in Actives(s.q.ring) && op != OpTerminated(p) && !FindsEmpty(s, op, p) ==>
      p in Actives(Step(s, op).q.ring)
    ensures p in Actives(Step(s, op).q.ring) ==>
      op == OpAttach(p) || op == OpActivated(p) || (p in Actives(s.q.ring) && op != OpTerminated(p))
  {
    if p in Actives(s.q.ring) {
      ActiveHasQueue(s.q, s.queues, p);
    }
    match op
    case OpAttach(x) => AttachActives(s.q.ring, x);
    case OpActivated(x) => ActivatedActives(s.q.ring, x);
    case OpTerminated(x) => TerminatedActives(s.q.ring, x);
    case OpArrive(_, _) =>
    case OpRecv => RecvActives(s.q, s.queues, p);
    case OpHasIn => HasInActives(s.q, s.queues, p);
  }

  /** Step i is not the end of p, and does not find it empty. */
  predicate Spares<P(==), C>(s: System<P, C>, op: Op<P, C>, p: P) {
    op != OpTerminated(p) && !FindsEmpty(s, op, p)
  }

  lemma InTurn<P, C>(s: System<P, C>, op: Op<P, C>, r: System<P, C>, p: P)
    requires Inv(s) && Allowed(s, op) && Fed(r.q, r.queues) && r == Step(s, op)
    requires op == OpAttach(p) || op == OpActivated(p) || (p in Actives(s.q.ring) && Spares(s, op, p))
    ensures p in Actives(r.q.ring)
  {
    TakesTurns(s, op, p);
  }

  lemma {:induction false} StaysInTurn<P, C>(
      from: System<P, C>, trace: seq<System<P, C>>, ops: seq<Op<P, C>>, i: nat, k: nat, p: P)
    requires Inv(from) && Run(from, trace, ops) && i < k < |trace|
    requires ops[i] == OpAttach(p) || ops[i] == OpActivated(p)
    requires forall j {:trigger ops[j]} | i < j < k :: Spares(trace[j], ops[j], p)
    ensures Fed(trace[k].q, trace[k].queues) && p in Actives(trace[k].q.ring)
    decreases k
  {
    RunKeeps(from, trace, ops, k);
    RunKeeps(from, trace, ops, k - 1);
    assert trace[k - 1 + 1] == Step(trace[k - 1], ops[k - 1]);
    if k - 1 > i {
      StaysInTurn(from, trace, ops, i, k - 1, p);
      assert Spares(trace[k - 1], ops[k - 1], p);
    }
    InTurn(trace[k - 1], ops[k - 1], trace[k], p);
  }

  /** In every run: a pipe that has been attached or reported readable, that has not gone since and has not been found
      empty since, and that has a frame, is not forgotten: recv returns a frame, and has_in says so. */
  lemma NothingForgotten<P, C>(
      from: System<P, C>, trace: seq<System<P, C>>, ops: seq<Op<P, C>>, i: nat, k: nat, p: P)
    requires Inv(from) && Run(from, trace, ops) && i < k < |trace|
    requires ops[i] == OpAttach(p) || ops[i] == OpActivated(p)
    requires forall j {:trigger ops[j]} | i < j < k :: Spares(trace[j], ops[j], p)
    requires p in trace[k].queues && trace[k].queues[p] != []
    ensures Fed(trace[k].q, trace[k].queues)
    ensures Recv(trace[k].q, trace[k].queues).2.Some? && HasIn(trace[k].q, trace[k].queues).1
  {
    StaysInTurn(from, trace, ops, i, k, p);
    RecvExactly(trace[k].q, trace[k].queues);
    HasInExactly(trace[k].q, trace[k].queues);
  }

  // ------------------------------------------------------------------ the pipe the last message came from

  /** The pipe of the last message that has been returned to its end. */
  function LastSource<P, C>(out: seq<(P, Message<C>)>): Option<P> {
    if out == [] then None
    else if out[|out| - 1].1.more then LastSource(out[..|out| - 1])
    else Some(out[|out| - 1].0)
  }

  lemma {:induction false} LastSourceIs<P, C>(out: seq<(P, Message<C>)>)
    ensures LastSource(out).Some? ==> exists i :: 0 <= i < |out| && out[i].0 == LastSource(out).value
  {
    if out != [] {
      LastSourceIs(out[..|out| - 1]);
    }
  }

  /** last_in is that pipe as long as it is there. */
  predicate Remembers<P(==), C>(s: System<P, C>) {
    s.q.lastIn == match LastSource(s.out)
      case None => None
      case Some(p) => if p in s.queues then Some(p) else None
  }

  lemma RecvRemembers<P, C>(s: System<P, C>, r: System<P, C>)
    requires Fed(s.q, s.queues) && Remembers(s) && r == Step(s, OpRecv)
    ensures Remembers(r)
  {
    match Turn(s.q.ring, Ready(s.queues))
    case None =>
    case Some(x) =>
      assert r.out[..|s.out|] == s.out;
      assert r.queues.Keys == s.queues.Keys;
  }

  lemma StepRemembers<P, C>(s: System<P, C>, op: Op<P, C>, r: System<P, C>)
    requires Inv(s) && Allowed(s, op) && r == Step(s, op) && Remembers(s)
    ensures Remembers(r)
  {
    LastSourceIs(s.out);
    match op
    case OpRecv => RecvRemembers(s, r);
    case _ =>
  }

  /** In every run: last_in is the pipe from which the last whole message was returned, until that pipe goes, and from
      then on nothing until the next whole message. */
  lemma {:induction false} LastInIsRemembered<P, C>(trace: seq<System<P, C>>, ops: seq<Op<P, C>>, k: nat)
    requires Run(Start(), trace, ops) && k < |trace|
    ensures var s := trace[k];
      s.q.lastIn == match LastSource(s.out)
        case None => None
        case Some(p) => if p in s.queues then Some(p) else None
    decreases k
  {
    if k > 0 {
      LastInIsRemembered(trace, ops, k - 1);
      RunKeeps(Start<P, C>(), trace, ops, k - 1);
      assert trace[k - 1 + 1] == Step(trace[k - 1], ops[k - 1]);
      StepRemembers(trace[k - 1], ops[k - 1], trace[k]);
    }
  }

  // ------------------------------------------------------------------ fairness

  /** The number of messages completed in `out`. */
  function Completed<P, C>(out: seq<(P, Message<C>)>): nat {
    if out == [] then 0 else Completed(out[..|out| - 1]) + if out[|out| - 1].1.more then 0 else 1
  }

  predicate Waiting<P(==), C>(s: System<P, C>, p: P) {
    IsActive(s.q.ring, p) && p in s.queues && s.queues[p] != []
  }

  /** Messages completed so far plus the distance to p's turn. */
  function Served<P(==), C>(s: System<P, C>, p: P): nat
    requires Waiting(s, p)
  {
    Completed(s.out) + Distance(s.q.ring, p)
  }

  function Joins<P, C>(ops: seq<Op<P, C>>): nat {
    if ops == [] then 0
    else Joins(ops[..|ops| - 1]) + if ops[|ops| - 1].OpAttach? || ops[|ops| - 1].OpActivated? then 1 else 0
  }

  lemma FromStep<P, C>(out: seq<(P, Message<C>)>, e: (P, Message<C>), p: P)
    ensures From(out + [e], p) == From(out, p) + if e.0 == p then [e.1] else []
    ensures Completed(out + [e]) == Completed(out) + if e.1.more then 0 else 1
  {
    assert (out + [e])[..|out|] == out;
  }

  /** What recv does to the ring and the output when it finds the frame e. */
  lemma RecvFinds<P, C>(s: System<P, C>, x: P)
    requires Fed(s.q, s.queues) && Turn(s.q.ring, Ready(s.queues)) == Some(x)
    ensures var a, r := Advance(s.q.ring, Ready(s.queues)), Step(s, OpRecv);
      && a.active > 0 && a.items[a.current] == x && x in s.queues && s.queues[x] != []
      && r.q.ring == (if s.queues[x][0].more then a else Next(a))
      && r.out == s.out + [(x, s.queues[x][0])]
      && r.queues == s.queues[x := s.queues[x][1..]]
  {
  }

  /** A frame of another pipe brings p's turn as much closer as it completes messages. */
  lemma RingServed<P>(a: Ring<P>, p: P, more: bool)
    requires IsActive(a, p) && a.items[a.current] != p
    ensures IsActive(if more then a else Next(a), p)
    ensures Distance(if more then a else Next(a), p) + (if more then 0 else 1) == Distance(a, p)
  {
    NextDistance(a, p);
  }

  lemma FairRecv<P, C>(s: System<P, C>, p: P)
    requires Fed(s.q, s.queues) && Waiting(s, p)
    requires From(Step(s, OpRecv).out, p) == From(s.out, p)
    ensures Waiting(Step(s, OpRecv), p) && Served(Step(s, OpRecv), p) <= Served(s, p)
  {
    var a := Advance(s.q.ring, Ready(s.queues));
    AdvanceDistance(s.q.ring, Ready(s.queues), p);
    var x := a.items[a.current];
    RecvFinds(s, x);
    FromStep(s.out, (x, s.queues[x][0]), p);
    assert x != p;
    RingServed(a, p, s.queues[x][0].more);
  }

  lemma FairStep<P, C>(s: System<P, C>, op: Op<P, C>, p: P)
    requires Inv(s) && Allowed(s, op) && !op.OpTerminated? && Waiting(s, p)
    requires From(Step(s, op).out, p) == From(s.out, p)
    ensures Waiting(Step(s, op), p)
    ensures Served(Step(s, op), p) <= Served(s, p) + if op.OpAttach? || op.OpActivated? then 1 else 0
  {
    match op
    case OpAttach(x) => AttachDistance(s.q.ring, x, p);
    case OpActivated(x) => ActivatedDistance(s.q.ring, x, p);
    case OpTerminated(x) =>
    case OpArrive(x, message) =>
    case OpRecv => FairRecv(s, p);
    case OpHasIn => AdvanceDistance(s.q.ring, Ready(s.queues), p);
  }

  lemma FairNext<P, C>(s: System<P, C>, op: Op<P, C>, r: System<P, C>, p: P)
    requires Inv(s) && Allowed(s, op) && !op.OpTerminated? && Waiting(s, p) && r == Step(s, op)
    requires From(r.out, p) == From(s.out, p)
    ensures Waiting(r, p)
    ensures Served(r, p) <= Served(s, p) + if op.OpAttach? || op.OpActivated? then 1 else 0
  {
    FairStep(s, op, p);
  }

  lemma JoinsStep<P, C>(ops: seq<Op<P, C>>, k: nat)
    requires k < |ops|
    ensures Joins(ops[..k + 1]) == Joins(ops[..k]) + if ops[k].OpAttach? || ops[k].OpActivated? then 1 else 0
  {
    assert ops[..k + 1][..k] == ops[..k];
  }

  /** Step i is no termination and returns no frame of p. */
  ghost predicate PassedOver<P, C>(trace: seq<System<P, C>>, ops: seq<Op<P, C>>, i: nat, p: P) {
    && i + 1 < |trace| && i < |ops| && !ops[i].OpTerminated?
    && From(trace[i + 1].out, p) == From(trace[i].out, p)
  }

  /** While an active pipe with a readable frame waits and no pipe terminates, at most as many
      messages of other pipes are completed as its distance, plus one for every pipe that joins. */
  lemma {:induction false} ServedInTurn<P, C>(
      from: System<P, C>, trace: seq<System<P, C>>, ops: seq<Op<P, C>>, k: nat, p: P)
    requires Inv(from) && Run(from, trace, ops) && k < |trace| && Waiting(from, p)
    requires forall i | 0 <= i < k :: PassedOver(trace, ops, i, p)
    ensures Waiting(trace[k], p)
    ensures Served(trace[k], p) <= Served(from, p) + Joins(ops[..k])
    decreases k
  {
    if k == 0 {
      assert trace[0] == from;
    } else {
      ServedInTurn(from, trace, ops, k - 1, p);
      RunKeeps(from, trace, ops, k - 1);
      JoinsStep(ops, k - 1);
      var s, op := trace[k - 1], ops[k - 1];
      assert PassedOver(trace, ops, k - 1, p);
      assert trace[k - 1 + 1] == Step(s, op);
      FairNext(s, op, trace[k], p);
    }
  }
}
