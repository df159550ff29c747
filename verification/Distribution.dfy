/**
 * dist_t by value: which pipes are matching, active and eligible, as sets, and what each pipe has
 * been sent over whole runs.  The array layout that represents the sets is in DistributionObjects.
 */
module Distribution {

  /** matching <= active <= eligible <= pipes; `more` is set in the middle of a multipart message. */
  datatype Dist<!P(==)> = Dist(
    matching: set<P>,
    active: set<P>,
    eligible: set<P>,
    pipes: set<P>,
    more: bool)

  predicate Nested<P>(d: Dist<P>) {
    && d.matching <= d.active <= d.eligible <= d.pipes
    && (!d.more ==> d.active == d.eligible)
  }

  function Attach<P>(d: Dist<P>, p: P): Dist<P> {
    Dist(d.matching, if d.more then d.active else d.active + {p}, d.eligible + {p}, d.pipes + {p}, d.more)
  }

  function Match<P>(d: Dist<P>, p: P): Dist<P> {
    d.(matching := if p in d.eligible then d.matching + {p} else d.matching)
  }

  function ReverseMatch<P>(d: Dist<P>): Dist<P> {
    d.(matching := d.eligible - d.matching)
  }

  function Unmatch<P>(d: Dist<P>): Dist<P> {
    d.(matching := {})
  }

  function PipeTerminated<P>(d: Dist<P>, p: P): Dist<P> {
    Dist(d.matching - {p}, d.active - {p}, d.eligible - {p}, d.pipes - {p}, d.more)
  }

  function Activated<P>(d: Dist<P>, p: P): Dist<P> {
    d.(eligible := d.eligible + {p}, active := if d.more then d.active else d.active + {p})
  }

  /** One frame to the matching pipes; those without room lose all three roles, and the end of a
      message makes every eligible pipe active again. */
  function SendToMatching<P>(d: Dist<P>, more: bool, room: set<P>): Dist<P> {
    var full := d.matching - room;
    Dist(d.matching - full, if more then d.active - full else d.eligible - full, d.eligible - full,
         d.pipes, more)
  }

  function SendToAll<P>(d: Dist<P>, more: bool, room: set<P>): Dist<P> {
    SendToMatching(d.(matching := d.active), more, room)
  }

  // ------------------------------------------------------------------ runs

  /** The k-th frame of the n-th message. */
  datatype Stamp = Stamp(message: nat, frame: nat)

  /** `next` names the next frame to be sent, `toAll` how the current message is being sent, and
      `log[p]` the frames pipe p has accepted. */
  datatype System<!P(==)> = System(d: Dist<P>, next: Stamp, toAll: bool, log: map<P, seq<Stamp>>)

  datatype Op<!P(==)> =
    | OpAttach(p: P)
    | OpMatch(p: P)
    | OpReverseMatch
    | OpUnmatch
    | OpTerminated(p: P)
    | OpActivated(p: P)
    | OpSend(all: bool, more: bool, room: set<P>)

  /** What the socket types do: pipes are matched between messages, a message goes out the same way
      to its end, and only passive pipes are activated. */
  predicate Allowed<P>(s: System<P>, op: Op<P>) {
    match op
    case OpAttach(p) => p !in s.log && p !in s.d.pipes
    case OpMatch(p) => p in s.d.pipes && !s.d.more
    case OpReverseMatch => !s.d.more
    case OpUnmatch => !s.d.more
    case OpTerminated(p) => p in s.d.pipes
    case OpActivated(p) => p in s.d.pipes - s.d.eligible
    case OpSend(all, _, _) => s.d.more ==> all == s.toAll
  }

  function Receivers<P>(d: Dist<P>, all: bool, room: set<P>): set<P> {
    (if all then d.active else d.matching) * room
  }

  function Record<P>(log: map<P, seq<Stamp>>, to: set<P>, stamp: Stamp): map<P, seq<Stamp>> {
    map p | p in log :: if p in to then log[p] + [stamp] else log[p]
  }

  function Step<P>(s: System<P>, op: Op<P>): System<P> {
    match op
    case OpAttach(p) => s.(d := Attach(s.d, p), log := s.log[p := []])
    case OpMatch(p) => s.(d := Match(s.d, p))
    case OpReverseMatch => s.(d := ReverseMatch(s.d))
    case OpUnmatch => s.(d := Unmatch(s.d))
    case OpTerminated(p) => s.(d := PipeTerminated(s.d, p))
    case OpActivated(p) => s.(d := Activated(s.d, p))
    case OpSend(all, more, room) =>
      System(if all then SendToAll(s.d, more, room) else SendToMatching(s.d, more, room),
             if more then Stamp(s.next.message, s.next.frame + 1) else Stamp(s.next.message + 1, 0),
             all,
             Record(s.log, Receivers(s.d, all, room), s.next))
  }

  predicate Before(a: Stamp, b: Stamp) {
    a.message < b.message || (a.message == b.message && a.frame < b.frame)
  }

  /** Nothing twice or out of order, and no frame without the frame before it in its message. */
  predicate Whole(log: seq<Stamp>) {
    forall i | 0 <= i < |log| ::
      if log[i].frame == 0 then i > 0 ==> log[i - 1].message < log[i].message
      else i > 0 && log[i - 1] == Stamp(log[i].message, log[i].frame - 1)
  }

  /** The log lies before `next`; a pipe still receiving the message has all of it so far. */
  predicate UpToDate(log: seq<Stamp>, next: Stamp, receiving: bool) {
    && Whole(log)
    && (log != [] ==> Before(log[|log| - 1], next))
    && (receiving && next.frame > 0 ==> log != [] && log[|log| - 1] == Stamp(next.message, next.frame - 1))
  }

  ghost predicate Inv<P>(s: System<P>) {
    && Nested(s.d)
    && s.d.pipes <= s.log.Keys
    && (s.d.more <==> s.next.frame > 0)
    && (s.d.more && s.toAll ==> s.d.matching == s.d.active)
    && forall p | p in s.log :: UpToDate(s.log[p], s.next, p in s.d.matching)
  }

  lemma NestedKept<P>(s: System<P>, op: Op<P>)
    requires Nested(s.d) && Allowed(s, op)
    ensures Nested(Step(s, op).d)
  {
  }

  lemma SendLog<P>(s: System<P>, all: bool, more: bool, room: set<P>, p: P)
    requires Inv(s) && Allowed(s, OpSend(all, more, room)) && p in s.log
    ensures var r := Step(s, OpSend(all, more, room));
      UpToDate(r.log[p], r.next, p in r.d.matching)
  {
    var r := Step(s, OpSend(all, more, room));
    if p in Receivers(s.d, all, room) {
      assert r.log[p] == s.log[p] + [s.next];
      if s.next.frame > 0 {
        assert p in s.d.matching;
      }
    } else {
      assert r.log[p] == s.log[p];
    }
  }

  lemma StepKeeps<P>(s: System<P>, op: Op<P>)
    requires Inv(s) && Allowed(s, op)
    ensures Inv(Step(s, op))
  {
    NestedKept(s, op);
    var r := Step(s, op);
    if op.OpSend? {
      forall p | p in r.log
        ensures UpToDate(r.log[p], r.next, p in r.d.matching)
      {
        SendLog(s, op.all, op.more, op.room, p);
      }
    } else {
      assert forall p | p in s.log :: UpToDate(s.log[p], s.next, p in s.d.matching);
    }
  }

  function Start<P>(): System<P> {
    System(Dist({}, {}, {}, {}, false), Stamp(0, 0), false, map[])
  }

  ghost predicate Run<P>(from: System<P>, trace: seq<System<P>>, ops: seq<Op<P>>) {
    && |trace| == |ops| + 1 && trace[0] == from
    && forall i {:trigger ops[i]} | 0 <= i < |ops| ::
         Allowed(trace[i], ops[i]) && trace[i + 1] == Step(trace[i], ops[i])
  }

  lemma {:induction false} RunKeeps<P>(from: System<P>, trace: seq<System<P>>, ops: seq<Op<P>>, k: nat)
    requires Inv(from) && Run(from, trace, ops) && k < |trace|
    ensures Inv(trace[k])
    decreases k
  {
    if k > 0 {
      RunKeeps(from, trace, ops, k - 1);
      StepKeeps(trace[k - 1], ops[k - 1]);
      assert trace[k - 1 + 1] == Step(trace[k - 1], ops[k - 1]);
    }
  }

  /** In every run the regions stay nested, coincide between messages, and no pipe ever gets a frame
      twice, out of order, or without all earlier frames of the same message. */
  lemma OnlyWholePrefixes<P>(trace: seq<System<P>>, ops: seq<Op<P>>, k: nat, p: P)
    requires Run(Start(), trace, ops) && k < |trace| && p in trace[k].log
    ensures Nested(trace[k].d) && Whole(trace[k].log[p])
  {
    RunKeeps(Start<P>(), trace, ops, k);
  }

  /** A pipe attached, reactivated or failed in the middle of a message is outside `matching`; until
      the message ends it stays outside and gets nothing. */
  lemma {:induction false} NothingMoreOfThisMessage<P>(
      from: System<P>, trace: seq<System<P>>, ops: seq<Op<P>>, k: nat, p: P)
    requires Inv(from) && Run(from, trace, ops) && k < |trace|
    requires from.d.more && p in from.log && p !in from.d.matching
    requires forall i | 0 <= i <= k :: trace[i].next.message == from.next.message && trace[i].d.more
    ensures p in trace[k].log && trace[k].log[p] == from.log[p] && p !in trace[k].d.matching
    decreases k
  {
    if k > 0 {
      NothingMoreOfThisMessage(from, trace, ops, k - 1, p);
      RunKeeps(from, trace, ops, k - 1);
      assert trace[k - 1 + 1] == Step(trace[k - 1], ops[k - 1]);
      assert trace[k - 1].d.more;
    }
  }

  /** The last frame of that message is not sent to it either. */
  lemma NorTheLastFrame<P>(s: System<P>, op: Op<P>, p: P)
    requires Inv(s) && Allowed(s, op) && s.d.more && p in s.log && p !in s.d.matching
    ensures p in Step(s, op).log && Step(s, op).log[p] == s.log[p]
  {
  }

  /** Frames a to b - 1 of a message. */
  function Frames(message: nat, a: nat, b: nat): (r: seq<Stamp>)
    requires a <= b
    ensures |r| == b - a && forall i | 0 <= i < |r| :: r[i] == Stamp(message, a + i)
  {
    seq(b - a, i requires 0 <= i < b - a => Stamp(message, a + i))
  }

  lemma FramesStep(before: seq<Stamp>, message: nat, a: nat, b: nat)
    requires a <= b
    ensures before + Frames(message, a, b) + [Stamp(message, b)] == before + Frames(message, a, b + 1)
  {
    assert Frames(message, a, b) + [Stamp(message, b)] == Frames(message, a, b + 1);
    assert before + Frames(message, a, b) + [Stamp(message, b)]
      == before + (Frames(message, a, b) + [Stamp(message, b)]);
  }

  // ------------------------------------------------------------------ who is in which region

  /** p is among the pipes that a frame is for. */
  predicate Addressed<P>(d: Dist<P>, all: bool, p: P) {
    p in if all then d.active else d.matching
  }

  /** A frame was for p, and p had no room for it. */
  predicate Refuses<P>(s: System<P>, op: Op<P>, p: P) {
    op.OpSend? && Addressed(s.d, op.all, p) && p !in op.room
  }

  /** A pipe can take messages from when it is attached or reported writable until it refuses a frame or goes. */
  lemma EligibleExactly<P>(s: System<P>, op: Op<P>, p: P)
    requires Nested(s.d) && Allowed(s, op)
    ensures p in Step(s, op).d.eligible <==>
      if op == OpAttach(p) || op == OpActivated(p) then true
      else p in s.d.eligible && op != OpTerminated(p) && !Refuses(s, op, p)
  {
  }

  /** It takes part in the current message if it could when the message began; the end of a message lets in all
      that can take messages. */
  lemma ActiveExactly<P>(s: System<P>, op: Op<P>, p: P)
    requires Nested(s.d) && Allowed(s, op)
    ensures p in Step(s, op).d.active <==>
      if op.OpSend? && !op.more then p in s.d.eligible && !Refuses(s, op, p)
      else if op == OpAttach(p) || op == OpActivated(p) then p in s.d.active || !s.d.more
      else p in s.d.active && op != OpTerminated(p) && !Refuses(s, op, p)
  {
  }

  /** It is one of the receivers if it has been matched; sending to all matches all that take part. */
  lemma MatchingExactly<P>(s: System<P>, op: Op<P>, p: P)
    requires Nested(s.d) && Allowed(s, op)
    ensures p in Step(s, op).d.matching <==>
      match op
      case OpMatch(x) => p in s.d.matching || (p == x && p in s.d.eligible)
      case OpReverseMatch => p in s.d.eligible && p !in s.d.matching
      case OpUnmatch => false
      case OpSend(all, _, room) => Addressed(s.d, all, p) && p in room
      case _ => p in s.d.matching && op != OpTerminated(p)
  {
  }

  /** And it gets the frame exactly if it is addressed and has room. */
  lemma FramesExactly<P>(s: System<P>, op: Op<P>, p: P)
    requires p in s.log && Allowed(s, op)
    ensures p in Step(s, op).log && Step(s, op).log[p] ==
      if op.OpSend? && Addressed(s.d, op.all, p) && p in op.room then s.log[p] + [s.next] else s.log[p]
  {
  }

  /** A pipe that has taken a frame is addressed by the next one of the message. */
  lemma StaysAddressed<P>(s: System<P>, op: Op<P>, p: P, next: Op<P>)
    requires Inv(s) && Allowed(s, op) && op.OpSend? && op.more && Addressed(s.d, op.all, p) && p in op.room
    requires next.OpSend? && Allowed(Step(s, op), next)
    ensures Addressed(Step(s, op).d, next.all, p)
  {
    MatchingExactly(s, op, p);
    ActiveExactly(s, op, p);
  }

  // ------------------------------------------------------------------ pipes that come back

  /** One step with p waiting for the end of the message. */
  lemma StaysOutside<P>(s: System<P>, op: Op<P>, p: P)
    requires Inv(s) && Allowed(s, op) && s.d.more && p in s.d.eligible && p !in s.d.active && op != OpTerminated(p)
    ensures var r := Step(s, op);
      && p in r.d.eligible && (p in r.d.active <==> !r.d.more)
      && p in s.log && p in r.log && r.log[p] == s.log[p]
  {
    assert p !in s.d.matching;
    FramesExactly(s, op, p);
    EligibleExactly(s, op, p);
    ActiveExactly(s, op, p);
  }

  /** A pipe that is attached or reported writable in the middle of a message, and does not go, takes part as soon
      as that message has ended. */
  lemma {:induction false} ComesBack<P>(from: System<P>, trace: seq<System<P>>, ops: seq<Op<P>>, k: nat, p: P)
    requires Inv(from) && Run(from, trace, ops) && k < |trace|
    requires from.d.more && p in from.d.eligible && p !in from.d.active
    requires forall i | 0 <= i < k :: trace[i].d.more && ops[i] != OpTerminated(p)
    ensures p in trace[k].d.eligible && (p in trace[k].d.active <==> !trace[k].d.more)
    ensures p in trace[k].log && p in from.log && trace[k].log[p] == from.log[p]
    decreases k
  {
    if k > 0 {
      ComesBack(from, trace, ops, k - 1, p);
      RunKeeps(from, trace, ops, k - 1);
      assert trace[k - 1 + 1] == Step(trace[k - 1], ops[k - 1]);
      StaysOutside(trace[k - 1], ops[k - 1], p);
    }
  }

  /** From step j to step k of a run the sender is at one message, or has just ended it. */
  ghost predicate During<P>(trace: seq<System<P>>, j: nat, k: nat)
    requires j <= k < |trace|
  {
    forall i | j <= i < k :: trace[i].next.message == trace[j].next.message
  }

  /** If this is a frame, it is for p and finds room. */
  predicate Taken<P>(s: System<P>, op: Op<P>, p: P) {
    op.OpSend? ==> Addressed(s.d, op.all, p) && p in op.room
  }

  /** All frames that are sent in these steps are for p, and find room. */
  ghost predicate AllTaken<P>(trace: seq<System<P>>, ops: seq<Op<P>>, j: nat, k: nat, p: P)
    requires j <= k <= |ops| && k < |trace|
  {
    forall i {:trigger ops[i]} | j <= i < k :: Taken(trace[i], ops[i], p)
  }

  /** What a pipe's log is when it has everything of a message from the frame `first` on, with `next` the frame to
      come and `last` the one before it: the frames so far while the message lasts, and all of them once it is over. */
  predicate GotAll(first: Stamp, before: seq<Stamp>, last: Stamp, next: Stamp, log: seq<Stamp>) {
    if next.message == first.message then
      first.frame <= next.frame && log == before + Frames(first.message, first.frame, next.frame)
    else
      && next == Stamp(first.message + 1, 0) && first.frame <= last.frame
      && log == before + Frames(first.message, first.frame, last.frame + 1)
  }

  lemma TakenStep<P>(first: Stamp, before: seq<Stamp>, last: Stamp, s: System<P>, op: Op<P>, p: P)
    requires Allowed(s, op) && p in s.log && s.next.message == first.message
    requires GotAll(first, before, last, s.next, s.log[p])
    requires Taken(s, op, p)
    ensures p in Step(s, op).log
    ensures GotAll(first, before, s.next, Step(s, op).next, Step(s, op).log[p])
  {
    FramesExactly(s, op, p);
    FramesStep(before, first.message, first.frame, s.next.frame);
  }

  /** The frame before the one to come, in a stretch of a run that begins at step j. */
  function LastOf<P>(trace: seq<System<P>>, j: nat, k: nat): Stamp
    requires j <= k < |trace|
  {
    if j < k then trace[k - 1].next else trace[k].next
  }

  /** A pipe that is addressed by every frame of a message and has room gets all of them, in order and nothing else:
      those sent so far while the message lasts, and once it is over the last one as well. */
  lemma {:induction false} AddressedGetsAll<P>(
      from: System<P>, trace: seq<System<P>>, ops: seq<Op<P>>, j: nat, k: nat, p: P)
    requires Run(from, trace, ops) && j <= k < |trace| && p in trace[j].log
    requires During(trace, j, k) && AllTaken(trace, ops, j, k, p)
    ensures p in trace[k].log
    ensures GotAll(trace[j].next, trace[j].log[p], LastOf(trace, j, k), trace[k].next, trace[k].log[p])
    decreases k
  {
    if k == j {
      GotNothing(trace[j].next, trace[j].log[p]);
    } else {
      Shorter(trace, ops, j, k, p);
      AddressedGetsAll(from, trace, ops, j, k - 1, p);
      TakenInRun(from, trace, ops, k, trace[j].next, trace[j].log[p], LastOf(trace, j, k - 1), p);
    }
  }

  lemma GotNothing(first: Stamp, before: seq<Stamp>)
    ensures GotAll(first, before, first, first, before)
  {
    assert Frames(first.message, first.frame, first.frame) == [];
    assert before + [] == before;
  }

  lemma Shorter<P>(trace: seq<System<P>>, ops: seq<Op<P>>, j: nat, k: nat, p: P)
    requires j < k <= |ops| && k < |trace| && During(trace, j, k) && AllTaken(trace, ops, j, k, p)
    ensures During(trace, j, k - 1) && AllTaken(trace, ops, j, k - 1, p)
    ensures trace[k - 1].next.message == trace[j].next.message && Taken(trace[k - 1], ops[k - 1], p)
  {
  }

  lemma TakenInRun<P>(from: System<P>, trace: seq<System<P>>, ops: seq<Op<P>>, k: nat, first: Stamp,
                      before: seq<Stamp>, last: Stamp, p: P)
    requires Run(from, trace, ops) && 0 < k < |trace| && p in trace[k - 1].log
    requires trace[k - 1].next.message == first.message && Taken(trace[k - 1], ops[k - 1], p)
    requires GotAll(first, before, last, trace[k - 1].next, trace[k - 1].log[p])
    ensures p in trace[k].log && GotAll(first, before, trace[k - 1].next, trace[k].next, trace[k].log[p])
  {
    assert trace[k - 1 + 1] == Step(trace[k - 1], ops[k - 1]);
    TakenStep(first, before, last, trace[k - 1], ops[k - 1], p);
  }

  /** p is not taken out of the receivers by a call, and has room for what is sent to it. */
  predicate Kept<P>(op: Op<P>, p: P) {
    op != OpTerminated(p) && op != OpReverseMatch && op != OpUnmatch && (op.OpSend? ==> p in op.room)
  }

  lemma {:induction false} StaysMatching<P>(
      from: System<P>, trace: seq<System<P>>, ops: seq<Op<P>>, k: nat, p: P)
    requires Inv(from) && Run(from, trace, ops) && k < |trace| && p in from.d.matching
    requires forall i | 0 <= i < k :: Kept(ops[i], p)
    ensures Inv(trace[k]) && p in trace[k].d.matching
    decreases k
  {
    if k > 0 {
      StaysMatching(from, trace, ops, k - 1, p);
      assert trace[k - 1 + 1] == Step(trace[k - 1], ops[k - 1]);
      assert Kept(ops[k - 1], p);
      StepKeeps(trace[k - 1], ops[k - 1]);
      MatchingExactly(trace[k - 1], ops[k - 1], p);
    }
  }

  /** A pipe that is matching and has room for every frame of a message gets the whole message. */
  lemma WholeMessageArrives<P>(from: System<P>, trace: seq<System<P>>, ops: seq<Op<P>>, k: nat, p: P)
    requires Inv(from) && Run(from, trace, ops) && k < |trace| && p in from.d.matching
    requires During(trace, 0, k) && forall i | 0 <= i < k :: Kept(ops[i], p)
    ensures p in trace[k].d.matching && p in from.log && p in trace[k].log
    ensures GotAll(from.next, from.log[p], LastOf(trace, 0, k), trace[k].next, trace[k].log[p])
  {
    StaysMatching(from, trace, ops, k, p);
    forall i | 0 <= i < k
      ensures Taken(trace[i], ops[i], p)
    {
      StaysMatching(from, trace, ops, i, p);
      assert Kept(ops[i], p);
    }
    AddressedGetsAll(from, trace, ops, 0, k, p);
  }

  /** From the middle of one message on into the next: a pipe that came in the middle of the message takes part
      from the state j in which it has ended, and then gets every frame of the next message that is for it. */
  lemma BackForTheNext<P>(from: System<P>, trace: seq<System<P>>, ops: seq<Op<P>>, j: nat, k: nat, p: P)
    requires Inv(from) && Run(from, trace, ops) && j <= k < |trace|
    requires from.d.more && p in from.d.eligible && p !in from.d.active
    requires forall i | 0 <= i < j :: trace[i].d.more && ops[i] != OpTerminated(p)
    requires !trace[j].d.more && During(trace, j, k) && AllTaken(trace, ops, j, k, p)
    ensures p in trace[j].d.active && p in from.log && p in trace[k].log && trace[j].next.frame == 0
    ensures GotAll(trace[j].next, from.log[p], LastOf(trace, j, k), trace[k].next, trace[k].log[p])
  {
    ComesBack(from, trace, ops, j, p);
    RunKeeps(from, trace, ops, j);
    AddressedGetsAll(from, trace, ops, j, k, p);
  }
}
