/**
 * lb_t by value: round-robin writing of whole messages, with rollback when the pipe of a message
 * fills up and dropping when it goes away.
 */
module LoadBalancer {
  import opened Sequences
  import opened Messages
  import opened Pipes
  import opened Rotation

  /** The fields of lb_t; `ring` is the array with its two counters. */
  datatype Lb<P> = Lb(ring: Ring<P>, more: bool, dropping: bool)

  datatype Outcome<+P> = SentTo(p: P) | Dropped | Again

  /** The frames a pipe holds, and how many of them are flushed. */
  type Out<C> = (seq<Message<C>>, nat)

  predicate Valid<P(==)>(q: Lb<P>) {
    && Rotation.Valid(q.ring)
    && (q.dropping ==> q.more)
    && (q.more && !q.dropping ==> q.ring.active > 0)
  }

  /** In the middle of a message that is not being dropped. */
  predicate Sending<P>(q: Lb<P>) {
    q.more && !q.dropping
  }

  function Holder<P(==)>(q: Lb<P>): P
    requires Valid(q) && q.ring.active > 0
  {
    q.ring.items[q.ring.current]
  }

  /** sendpipe: the new state and what happens to the frame.  `room` are the pipes that would accept
      a frame.  Between messages full pipes are deactivated; in the middle of one a full pipe makes
      the call fail, and the message is rolled back. */
  function Send<P(==)>(q: Lb<P>, more: bool, room: set<P>): (r: (Lb<P>, Outcome<P>))
    requires Valid(q)
    ensures Valid(r.0)
  {
    if q.dropping then (Lb(q.ring, more, more), Dropped)
    else if q.more && Holder(q) !in room then (q.(more := false), Again)
    else
      var ring := Advance(q.ring, room);
      if ring.active == 0 then (q.(ring := ring), Again)
      else (Lb(if more then ring else Next(ring), more, false), SentTo(ring.items[ring.current]))
  }

  /** rollback: the unflushed frames are taken back. */
  function RollBack<C>(out: Out<C>): Out<C> {
    if out.1 <= |out.0| then (out.0[..out.1], out.1) else out
  }

  /** What a call of sendpipe with frame m and this outcome does to pipe p. */
  function OutAfter<P(==), C>(q: Lb<P>, outcome: Outcome<P>, m: Message<C>, p: P, out: Out<C>): Out<C>
    requires Valid(q)
  {
    match outcome
    case SentTo(x) => if x == p then Sent(out, m) else out
    case Again => if q.more && q.ring.active > 0 && Holder(q) == p then RollBack(out) else out
    case Dropped => out
  }

  function HasOut<P(==)>(q: Lb<P>, room: set<P>): (r: (Lb<P>, bool))
    requires Valid(q)
    ensures Valid(r.0)
  {
    if q.more then (q, true)
    else
      var ring := Advance(q.ring, room);
      (q.(ring := ring), ring.active > 0)
  }

  /** pipe_terminated: if the pipe of the current message goes, the rest of it is dropped. */
  function Terminate<P(==)>(q: Lb<P>, p: P): Lb<P>
    requires Valid(q) && p in q.ring.items
  {
    Lb(Terminated(q.ring, p), q.more,
       q.dropping || (q.more && Position(q.ring.items, p) == q.ring.current))
  }

  // ------------------------------------------------------------------ runs

  datatype Fate<P> = To(p: P) | Lost

  datatype Event<P, C> = Frame(m: Message<C>, fate: Fate<P>) | RolledBack | Gone(p: P)

  /** `outs[p]` is what pipe p holds and how much of it is flushed; `sent[p]` the whole messages sent
      to it; `begun` the frames of the current message sent so far; `log` what became of the frames, and
      which pipes terminated. */
  datatype System<P, C> = System(
    q: Lb<P>,
    outs: map<P, Out<C>>,
    sent: map<P, seq<seq<Message<C>>>>,
    begun: seq<Message<C>>,
    log: seq<Event<P, C>>)

  datatype Op<P, C> =
    | OpAttach(p: P)
    | OpActivated(p: P)
    | OpTerminated(p: P)
    | OpSend(m: Message<C>, room: set<P>)
    | OpHasOut(room: set<P>)

  /** In the middle of a message another pipe may only terminate if the turn stays where it is. */
  predicate Allowed<P(==), C>(s: System<P, C>, op: Op<P, C>) {
    match op
    case OpAttach(p) => p !in s.sent && p !in s.q.ring.items
    case OpActivated(p) => p in s.q.ring.items && Position(s.q.ring.items, p) >= s.q.ring.active
    case OpTerminated(p) =>
      && p in s.q.ring.items
      && (Sending(s.q) ==> Position(s.q.ring.items, p) == s.q.ring.current || TurnKept(s.q.ring, p))
    case OpSend(_, _) => true
    case OpHasOut(_) => true
  }

  predicate Wired<P(==), C>(s: System<P, C>) {
    && Valid(s.q)
    && s.outs.Keys == Prefix(s.q.ring.items, |s.q.ring.items|)
    && s.outs.Keys <= s.sent.Keys
  }

  function Step<P(==), C>(s: System<P, C>, op: Op<P, C>): System<P, C>
    requires Wired(s) && Allowed(s, op)
  {
    match op
    case OpAttach(p) =>
      s.(q := s.q.(ring := Attach(s.q.ring, p)), outs := s.outs[p := ([], 0)], sent := s.sent[p := []])
    case OpActivated(p) => s.(q := s.q.(ring := Activated(s.q.ring, p)))
    case OpTerminated(p) => s.(q := Terminate(s.q, p), outs := s.outs - {p}, log := s.log + [Gone(p)])
    case OpHasOut(room) => s.(q := HasOut(s.q, room).0)
    case OpSend(m, room) =>
      var (q, outcome) := Send(s.q, m.more, room);
      Offered(s, m, q, outcome)
  }

  /** Frame m has been offered with this outcome. */
  function Offered<P(==), C>(s: System<P, C>, m: Message<C>, q: Lb<P>, outcome: Outcome<P>): System<P, C>
    requires Valid(s.q)
  {
    match outcome
    case Dropped => s.(q := q, log := s.log + [Frame(m, Lost)], begun := if m.more then s.begun else [])
    case Again =>
      if s.q.more then
        s.(q := q, outs := After(s.q, outcome, m, s.outs), begun := [], log := s.log + [RolledBack])
      else s.(q := q)
    case SentTo(p) => Delivered(s.(q := q, outs := After(s.q, outcome, m, s.outs)), p, m)
  }

  /** What q can be, by the outcome. */
  lemma SendCases<P>(q: Lb<P>, more: bool, room: set<P>)
    requires Valid(q)
    ensures var (r, outcome) := Send(q, more, room);
      match outcome
      case Dropped => q.dropping && r == Lb(q.ring, more, more)
      case Again => !q.dropping && r == Lb(r.ring, false, false)
      case SentTo(x) =>
        && !q.dropping && r.more == more && !r.dropping && (q.more ==> x == Holder(q)) && (more ==> x == Holder(r))
  {
  }

  function After<P(==), C>(q: Lb<P>, outcome: Outcome<P>, m: Message<C>, outs: map<P, Out<C>>): map<P, Out<C>>
    requires Valid(q)
  {
    map p | p in outs :: OutAfter(q, outcome, m, p, outs[p])
  }

  /** Frame m has been accepted by p; its message is complete with the last frame. */
  function Delivered<P(==), C>(s: System<P, C>, p: P, m: Message<C>): System<P, C>
  {
    s.(sent := if m.more || p !in s.sent then s.sent else s.sent[p := s.sent[p] + [s.begun + [m]]],
       begun := if m.more then s.begun + [m] else [],
       log := s.log + [Frame(m, To(p))])
  }

  // ------------------------------------------------------------------ the invariant

  /** The frames p has of the current message. */
  function Partial<P(==), C>(s: System<P, C>, p: P): seq<Message<C>>
    requires Valid(s.q)
  {
    if Sending(s.q) && Holder(s.q) == p then s.begun else []
  }

  /** p holds the whole messages sent to it, all flushed, and the beginning of the current one if it
      is the pipe of that message. */
  predicate PipeHolds<P(==), C(==)>(s: System<P, C>, p: P)
    requires Valid(s.q)
  {
    && p in s.sent
    && (forall i | 0 <= i < |s.sent[p]| :: WholeMessage(s.sent[p][i]))
    && (p in s.outs ==>
          s.outs[p] == (Concat(s.sent[p]) + Partial(s, p), |Concat(s.sent[p])|))
  }

  predicate Begun<P(==), C>(s: System<P, C>) {
    && (Sending(s.q) ==> s.begun != [])
    && (!s.q.more ==> s.begun == [])
    && forall i | 0 <= i < |s.begun| :: s.begun[i].more
  }

  /** Where a log leaves the current message, if there is one. */
  datatype Course<P> = Between | Going(p: P) | Losing

  /** Only the termination of its own pipe turns a message that is going out into one that is lost. */
  function Onward<P(==), C>(c: Course<P>, e: Event<P, C>): Course<P> {
    match e
    case Frame(m, fate) => if !m.more then Between else if fate.To? then Going(fate.p) else Losing
    case RolledBack => Between
    case Gone(x) => if c == Going(x) then Losing else c
  }

  function CourseOf<P(==), C>(log: seq<Event<P, C>>): Course<P> {
    if log == [] then Between else Onward(CourseOf(log[..|log| - 1]), log[|log| - 1])
  }

  /** What may come next: a message starts on some pipe, all its frames go to that pipe or it is rolled
      back, and once its pipe has gone every further frame of it is lost. */
  predicate Fits<P(==), C>(c: Course<P>, e: Event<P, C>) {
    match e
    case Frame(_, fate) => if c.Between? then fate.To? else if c.Losing? then fate.Lost? else fate == To(c.p)
    case RolledBack => c.Going?
    case Gone(_) => true
  }

  predicate Coherent<P(==), C>(log: seq<Event<P, C>>) {
    log == [] || (Coherent(log[..|log| - 1]) && Fits(CourseOf(log[..|log| - 1]), log[|log| - 1]))
  }

  /** Where the state says the current message is. */
  function CourseNow<P(==)>(q: Lb<P>): Course<P>
    requires Valid(q)
  {
    if !q.more then Between else if q.dropping then Losing else Going(Holder(q))
  }

  predicate Logged<P(==), C>(s: System<P, C>)
    requires Valid(s.q)
  {
    Coherent(s.log) && CourseOf(s.log) == CourseNow(s.q)
  }

  ghost predicate Inv<P, C>(s: System<P, C>) {
    Wired(s) && Begun(s) && Logged(s) && forall p | p in s.sent :: PipeHolds(s, p)
  }

  lemma TerminateWired<P, C>(s: System<P, C>, p: P)
    requires Wired(s) && Allowed(s, OpTerminated(p))
    ensures Wired(Step(s, OpTerminated(p)))
    ensures var r := Step(s, OpTerminated(p)); Sending(r.q) ==> Holder(r.q) == Holder(s.q) && Holder(s.q) != p
  {
    TerminatedItems(s.q.ring, p);
    if Sending(s.q) {
      PositionIs(s.q.ring.items, s.q.ring.current);
      if Holder(s.q) != p {
        TerminationAndTurn(s.q.ring, p);
      }
    }
  }

  lemma SendWired<P, C>(s: System<P, C>, m: Message<C>, room: set<P>)
    requires Wired(s)
    ensures Wired(Step(s, OpSend(m, room)))
    ensures var (q, o) := Send(s.q, m.more, room); o.SentTo? ==> o.p in s.outs
  {
    AdvanceItems(s.q.ring, room);
    var ring := Advance(s.q.ring, room);
    if ring.active > 0 {
      assert ring.items[..|ring.items|] == ring.items;
      assert ring.items[ring.current] in Prefix(ring.items, |ring.items|);
    }
    if Sending(s.q) {
      assert s.q.ring.items[..|s.q.ring.items|] == s.q.ring.items;
      assert Holder(s.q) in Prefix(s.q.ring.items, |s.q.ring.items|);
    }
  }

  lemma StepWired<P, C>(s: System<P, C>, op: Op<P, C>)
    requires Wired(s) && Allowed(s, op)
    ensures Wired(Step(s, op))
  {
    match op
    case OpAttach(p) => AttachItems(s.q.ring, p);
    case OpActivated(p) => ActivatedItems(s.q.ring, p);
    case OpTerminated(p) => TerminateWired(s, p);
    case OpSend(m, room) => SendWired(s, m, room);
    case OpHasOut(room) => AdvanceItems(s.q.ring, room);
  }

  lemma QuietHolds<P, C>(s: System<P, C>, r: System<P, C>, p: P)
    requires Valid(s.q) && Valid(r.q) && p in s.sent && PipeHolds(s, p)
    requires p in r.sent && r.sent[p] == s.sent[p]
    requires p in r.outs ==> p in s.outs && r.outs[p] == s.outs[p] && Partial(r, p) == Partial(s, p)
    ensures PipeHolds(r, p)
  {
  }

  lemma AcceptedHolds<C>(sent: seq<seq<Message<C>>>, begun: seq<Message<C>>, m: Message<C>)
    ensures Sent((Concat(sent) + begun, |Concat(sent)|), m)
         == if m.more then (Concat(sent) + (begun + [m]), |Concat(sent)|)
            else (Concat(sent + [begun + [m]]), |Concat(sent + [begun + [m]])|)
  {
    var c := Concat(sent);
    assert (c + begun) + [m] == c + (begun + [m]);
    ConcatMore(sent, begun + [m]);
  }

  lemma SendHolds<P, C>(s: System<P, C>, m: Message<C>, room: set<P>, p: P)
    requires Wired(s) && Begun(s) && p in s.sent && PipeHolds(s, p)
    requires Valid(Step(s, OpSend(m, room)).q)
    ensures PipeHolds(Step(s, OpSend(m, room)), p)
  {
    SendWired(s, m, room);
    SendCases(s.q, m.more, room);
    var (q, outcome) := Send(s.q, m.more, room);
    OfferedHolds(s, m, q, outcome, p);
  }

  lemma OfferedHolds<P, C>(s: System<P, C>, m: Message<C>, q: Lb<P>, outcome: Outcome<P>, p: P)
    requires Wired(s) && Begun(s) && p in s.sent && PipeHolds(s, p) && Valid(q)
    requires outcome.Dropped? ==> s.q.dropping && q == Lb(s.q.ring, m.more, m.more)
    requires outcome.Again? ==> !s.q.dropping && !q.more
    requires outcome.SentTo? ==> !s.q.dropping && q.more == m.more && !q.dropping && outcome.p in s.outs
    requires outcome.SentTo? && s.q.more ==> outcome.p == Holder(s.q)
    requires outcome.SentTo? && m.more ==> outcome.p == Holder(q)
    ensures PipeHolds(Offered(s, m, q, outcome), p)
  {
    match outcome
    case Dropped => QuietHolds(s, Offered(s, m, q, outcome), p);
    case Again =>
      if s.q.more {
        RolledBackHolds(s, m, q, p);
      } else {
        QuietHolds(s, s.(q := q), p);
      }
    case SentTo(x) => DeliveredHolds(s, q, x, m, p);
  }

  /** Rolling back takes the frames of the current message from its pipe and nothing from the others. */
  lemma RolledBackHolds<P, C>(s: System<P, C>, m: Message<C>, q: Lb<P>, p: P)
    requires Wired(s) && Sending(s.q) && p in s.sent && PipeHolds(s, p) && Valid(q) && !q.more
    ensures PipeHolds(Offered(s, m, q, Again), p)
  {
    if p in s.outs {
      var c := Concat(s.sent[p]);
      assert c + [] == c;
      assert (c + s.begun)[..|c|] == c;
    }
  }

  lemma DeliveredHolds<P, C>(s: System<P, C>, q: Lb<P>, x: P, m: Message<C>, p: P)
    requires Wired(s) && Begun(s) && p in s.sent && PipeHolds(s, p) && Valid(q) && x in s.outs
    requires Sending(q) <==> m.more
    requires m.more ==> Holder(q) == x
    requires Sending(s.q) ==> Holder(s.q) == x
    requires !Sending(s.q) ==> s.begun == []
    ensures PipeHolds(Delivered(s.(q := q, outs := After(s.q, SentTo(x), m, s.outs)), x, m), p)
  {
    var r := Delivered(s.(q := q, outs := After(s.q, SentTo(x), m, s.outs)), x, m);
    if x == p {
      assert s.begun + [] == s.begun;
      assert Partial(s, p) == s.begun;
      AcceptedHolds(s.sent[p], s.begun, m);
      assert r.outs[p] == Sent((Concat(s.sent[p]) + s.begun, |Concat(s.sent[p])|), m);
      assert Concat(r.sent[p]) + [] == Concat(r.sent[p]);
      assert Partial(r, p) == if m.more then s.begun + [m] else [];
      WholeAppended(s, r, p, m);
    } else {
      QuietHolds(s, r, p);
    }
  }

  lemma WholeAppended<P, C>(s: System<P, C>, r: System<P, C>, p: P, m: Message<C>)
    requires Begun(s) && p in s.sent && p in r.sent
    requires r.sent[p] == if m.more then s.sent[p] else s.sent[p] + [s.begun + [m]]
    requires forall i | 0 <= i < |s.sent[p]| :: WholeMessage(s.sent[p][i])
    ensures forall i | 0 <= i < |r.sent[p]| :: WholeMessage(r.sent[p][i])
  {
  }

  lemma NewHolds<P, C>(r: System<P, C>, p: P)
    requires Valid(r.q) && p in r.sent && r.sent[p] == [] && p in r.outs && r.outs[p] == ([], 0)
    requires Sending(r.q) ==> Holder(r.q) != p
    ensures PipeHolds(r, p)
  {
    assert Concat(r.sent[p]) + [] == [];
  }

  lemma AttachHolds<P, C>(s: System<P, C>, x: P, p: P)
    requires Inv(s) && Allowed(s, OpAttach(x)) && Wired(Step(s, OpAttach(x))) && (p in s.sent || p == x)
    ensures PipeHolds(Step(s, OpAttach(x)), p)
  {
    var r := Step(s, OpAttach(x));
    AttachItems(s.q.ring, x);
    assert Sending(s.q) ==> Holder(r.q) == Holder(s.q) && Holder(s.q) in s.q.ring.items;
    if p == x {
      NewHolds(r, p);
    } else {
      assert Partial(r, p) == Partial(s, p);
      QuietHolds(s, r, p);
    }
  }

  lemma ActivatedHolds<P, C>(s: System<P, C>, x: P, p: P)
    requires Wired(s) && Allowed(s, OpActivated(x)) && Wired(Step(s, OpActivated(x)))
    requires p in s.sent && PipeHolds(s, p)
    ensures PipeHolds(Step(s, OpActivated(x)), p)
  {
    ActivatedItems(s.q.ring, x);
    QuietHolds(s, Step(s, OpActivated(x)), p);
  }

  lemma TerminateHolds<P, C>(s: System<P, C>, x: P, p: P)
    requires Wired(s) && Allowed(s, OpTerminated(x)) && Wired(Step(s, OpTerminated(x)))
    requires p in s.sent && PipeHolds(s, p)
    ensures PipeHolds(Step(s, OpTerminated(x)), p)
  {
    TerminateWired(s, x);
    if Sending(s.q) && Position(s.q.ring.items, x) == s.q.ring.current {
      assert x == Holder(s.q);
    }
    QuietHolds(s, Step(s, OpTerminated(x)), p);
  }

  lemma StepHolds<P, C>(s: System<P, C>, op: Op<P, C>, p: P)
    requires Inv(s) && Allowed(s, op) && Wired(Step(s, op)) && p in Step(s, op).sent
    ensures PipeHolds(Step(s, op), p)
  {
    match op
    case OpAttach(x) => AttachHolds(s, x, p);
    case OpActivated(x) => ActivatedHolds(s, x, p);
    case OpTerminated(x) => TerminateHolds(s, x, p);
    case OpSend(m, room) => SendHolds(s, m, room, p);
    case OpHasOut(room) => QuietHolds(s, Step(s, op), p);
  }

  lemma StepBegun<P, C>(s: System<P, C>, op: Op<P, C>)
    requires Inv(s) && Allowed(s, op)
    ensures Begun(Step(s, op))
  {
  }

  lemma LoggedNext<P, C>(log: seq<Event<P, C>>, e: Event<P, C>)
    requires Coherent(log) && Fits(CourseOf(log), e)
    ensures Coherent(log + [e]) && CourseOf(log + [e]) == Onward(CourseOf(log), e)
  {
    assert (log + [e])[..|log|] == log;
  }

  lemma SendLogged<P, C>(s: System<P, C>, m: Message<C>, room: set<P>)
    requires Wired(s) && Logged(s) && Valid(Step(s, OpSend(m, room)).q)
    ensures Logged(Step(s, OpSend(m, room)))
  {
    SendCases(s.q, m.more, room);
    var (q, outcome) := Send(s.q, m.more, room);
    match outcome
    case Dropped => LoggedNext(s.log, Frame(m, Lost));
    case Again =>
      if s.q.more {
        LoggedNext(s.log, RolledBack);
      }
    case SentTo(x) => LoggedNext(s.log, Frame(m, To(x)));
  }

  lemma TerminateLogged<P, C>(s: System<P, C>, x: P)
    requires Wired(s) && Logged(s) && Allowed(s, OpTerminated(x)) && Wired(Step(s, OpTerminated(x)))
    ensures Logged(Step(s, OpTerminated(x)))
  {
    TerminateWired(s, x);
    LoggedNext(s.log, Gone(x));
    if Sending(s.q) {
      PositionIs(s.q.ring.items, s.q.ring.current);
    }
  }

  lemma StepLogged<P, C>(s: System<P, C>, op: Op<P, C>)
    requires Wired(s) && Logged(s) && Allowed(s, op) && Wired(Step(s, op))
    ensures Logged(Step(s, op))
  {
    match op
    case OpAttach(x) =>
      AttachItems(s.q.ring, x);
    case OpActivated(x) =>
      ActivatedItems(s.q.ring, x);
    case OpTerminated(x) => TerminateLogged(s, x);
    case OpSend(m, room) => SendLogged(s, m, room);
    case OpHasOut(room) =>
  }

  lemma StepKeeps<P, C>(s: System<P, C>, op: Op<P, C>)
    requires Inv(s) && Allowed(s, op)
    ensures Inv(Step(s, op))
  {
    StepWired(s, op);
    StepBegun(s, op);
    StepLogged(s, op);
    forall p | p in Step(s, op).sent
      ensures PipeHolds(Step(s, op), p)
    {
      StepHolds(s, op, p);
    }
  }

  function Start<P, C>(): System<P, C> {
    System(Lb(Ring([], 0, 0), false, false), map[], map[], [], [])
  }

  ghost predicate Run<P, C>(from: System<P, C>, trace: seq<System<P, C>>, ops: seq<Op<P, C>>) {
    && |trace| == |ops| + 1 && trace[0] == from
    && forall i {:trigger ops[i]} | 0 <= i < |ops| ::
         Wired(trace[i]) && Allowed(trace[i], ops[i]) && trace[i + 1] == Step(trace[i], ops[i])
  }

  lemma {:induction false} RunKeeps<P, C>(from: System<P, C>, trace: seq<System<P, C>>, ops: seq<Op<P, C>>, k: nat)
    requires Inv(from) && Run(from, trace, ops) && k < |trace|
    ensures Inv(trace[k])
    decreases k
  {
    if k > 0 {
      RunKeeps(from, trace, ops, k - 1);
      StepKeeps(trace[k - 1], ops[k - 1]);
      assert trace[k - 1 + 1] == Step(trace[k - 1], ops[k - 1]);
    }
  }

  lemma StartInv<P, C>()
    ensures Inv(Start<P, C>())
  {
    assert Start<P, C>().q.ring.items[..0] == [];
  }

  /** In every run each pipe holds exactly the whole messages sent to it, flushed, followed by nothing
      or, if it is the pipe of the message under way, by the frames of that message. */
  lemma PipesHoldWholeMessages<P, C>(trace: seq<System<P, C>>, ops: seq<Op<P, C>>, k: nat, p: P)
    requires Run(Start(), trace, ops) && k < |trace| && p in trace[k].outs
    ensures var s := trace[k];
      && Valid(s.q) && p in s.sent
      && (forall i | 0 <= i < |s.sent[p]| :: WholeMessage(s.sent[p][i]))
      && s.outs[p] == (Concat(s.sent[p]) + Partial(s, p), |Concat(s.sent[p])|)
      && (forall i | 0 <= i < |s.begun| :: s.begun[i].more)
  {
    StartInv<P, C>();
    RunKeeps(Start<P, C>(), trace, ops, k);
    assert PipeHolds(trace[k], p);
  }

  /** In every run all frames of a message go to the pipe of the first one, or those already sent are
      rolled back; if that pipe goes away all remaining frames, and only they, are lost; and a message
      starts with a frame that is sent.  The two flags say which of these is the case. */
  lemma FramesStayTogether<P, C>(trace: seq<System<P, C>>, ops: seq<Op<P, C>>, k: nat)
    requires Run(Start(), trace, ops) && k < |trace|
    ensures var s := trace[k];
      && Coherent(s.log)
      && (s.q.more <==> !CourseOf(s.log).Between?)
      && (s.q.dropping <==> CourseOf(s.log).Losing?)
      && Valid(s.q) && (Sending(s.q) ==> CourseOf(s.log) == Going(Holder(s.q)))
  {
    StartInv<P, C>();
    RunKeeps(Start<P, C>(), trace, ops, k);
  }

  /** The termination of another pipe in the middle of a message keeps the state sound exactly if it
      leaves the turn where it is; otherwise the rest of the message would go to a different pipe. */
  lemma TerminationExact<P, C>(s: System<P, C>, p: P)
    requires Inv(s) && p in s.q.ring.items && Sending(s.q) && Holder(s.q) != p
    ensures var r := Terminate(s.q, p);
      && Valid(r) && Sending(r)
      && (Holder(r) == Holder(s.q) <==> TurnKept(s.q.ring, p))
  {
    PositionIs(s.q.ring.items, s.q.ring.current);
    TerminationAndTurn(s.q.ring, p);
  }

  // ------------------------------------------------------------------ a run that splits a message

  ghost predicate Reachable<P(!new), C(!new)>(s: System<P, C>) {
    exists trace: seq<System<P, C>>, ops: seq<Op<P, C>> :: Run(Start(), trace, ops) && trace[|ops|] == s
  }

  lemma ReachStart<P(!new), C(!new)>()
    ensures Reachable(Start<P, C>())
  {
    var ops: seq<Op<P, C>> := [];
    assert Run(Start<P, C>(), [Start<P, C>()], ops);
  }

  lemma ReachStep<P(!new), C(!new)>(s: System<P, C>, op: Op<P, C>)
    requires Reachable(s) && Allowed(s, op)
    ensures Inv(s) && Reachable(Step(s, op))
  {
    var trace: seq<System<P, C>>, ops: seq<Op<P, C>> :| Run(Start(), trace, ops) && trace[|ops|] == s;
    StartInv<P, C>();
    RunKeeps(Start<P, C>(), trace, ops, |ops|);
    RunLonger(Start(), trace, ops, op, Step(s, op));
    assert (trace + [Step(s, op)])[|ops + [op]|] == Step(s, op);
  }

  lemma RunLonger<P, C>(from: System<P, C>, trace: seq<System<P, C>>, ops: seq<Op<P, C>>, op: Op<P, C>,
                        r: System<P, C>)
    requires Run(from, trace, ops) && Wired(trace[|ops|])
    requires Allowed(trace[|ops|], op) && r == Step(trace[|ops|], op)
    ensures Run(from, trace + [r], ops + [op])
  {
    var t, o := trace + [r], ops + [op];
    forall i {:trigger o[i]} {:trigger t[i]} | 0 <= i < |o|
      ensures Wired(t[i]) && Allowed(t[i], o[i]) && t[i + 1] == Step(t[i], o[i])
    {
      if i < |ops| {
        assert o[i] == ops[i] && t[i] == trace[i] && t[i + 1] == trace[i + 1];
      }
    }
  }

  const LAST: Message<nat> := Message(Vsm, false, false)
  const FIRST: Message<nat> := Message(Vsm, true, false)

  const ALL := {0, 1, 2}

  /** Three attached pipes that have room. */
  const ATTACHED: System<nat, nat> := System(
    Lb(Ring([0, 1, 2], 3, 0), false, false), map[0 := ([], 0), 1 := ([], 0), 2 := ([], 0)],
    map[0 := [], 1 := [], 2 := []], [], [])

  const SENT_ONE: System<nat, nat> := System(
    Lb(Ring([0, 1, 2], 3, 1), false, false), map[0 := ([LAST], 1), 1 := ([], 0), 2 := ([], 0)],
    map[0 := [[LAST]], 1 := [], 2 := []], [], [Frame(LAST, To(0))])

  const SENT_TWO: System<nat, nat> := System(
    Lb(Ring([0, 1, 2], 3, 2), false, false), map[0 := ([LAST], 1), 1 := ([LAST], 1), 2 := ([], 0)],
    map[0 := [[LAST]], 1 := [[LAST]], 2 := []], [], [Frame(LAST, To(0)), Frame(LAST, To(1))])

  /** One message has gone to pipe 0 and one to pipe 1, and the first frame of another to pipe 2. */
  const MIDDLE: System<nat, nat> := System(
    Lb(Ring([0, 1, 2], 3, 2), true, false), map[0 := ([LAST], 1), 1 := ([LAST], 1), 2 := ([FIRST], 0)],
    map[0 := [[LAST]], 1 := [[LAST]], 2 := []], [FIRST], [Frame(LAST, To(0)), Frame(LAST, To(1)), Frame(FIRST, To(2))])

  /** Attaching a pipe to others that are all active. */
  lemma ReachAttach(s: System<nat, nat>, p: nat, r: System<nat, nat>)
    requires Reachable(s) && p !in s.sent && p !in s.q.ring.items && s.q.ring.active == |s.q.ring.items|
    requires r.q.ring.items == s.q.ring.items + [p] && r.q.ring.active == |r.q.ring.items|
    requires r.q == s.q.(ring := Ring(r.q.ring.items, r.q.ring.active, s.q.ring.current))
    requires r.outs == s.outs[p := ([], 0)] && r.sent == s.sent[p := []] && r.begun == s.begun && r.log == s.log
    ensures Reachable(r)
  {
    ReachStep(s, OpAttach(p));
    assert Attach(s.q.ring, p).items == r.q.ring.items;
    assert Step(s, OpAttach(p)) == r;
  }

  /** A frame between messages, when the current pipe x has room. */
  lemma ReachSend(s: System<nat, nat>, m: Message<nat>, x: nat, q: Lb<nat>)
    requires Reachable(s) && !s.q.more && !s.q.dropping && x in ALL
    requires s.q.ring.current < s.q.ring.active <= |s.q.ring.items| && s.q.ring.items[s.q.ring.current] == x
    requires q.more == m.more && !q.dropping
    requires q.ring == if m.more then s.q.ring else s.q.ring.(current := (s.q.ring.current + 1) % s.q.ring.active)
    ensures Valid(s.q) && Reachable(Offered(s, m, q, SentTo(x)))
  {
    ReachStep(s, OpSend(m, ALL));
    assert Send(s.q, m.more, ALL) == (q, SentTo(x));
  }

  lemma OfferedIs(s: System<nat, nat>, m: Message<nat>, q: Lb<nat>, x: nat, frames: seq<Message<nat>>,
                  r: System<nat, nat>)
    requires Valid(s.q) && x in s.outs && x in s.sent && s.begun == [] && r.q == q
    requires frames == s.outs[x].0 + [m]
    requires r.outs == s.outs[x := (frames, if m.more then s.outs[x].1 else |frames|)]
    requires if m.more then r.sent == s.sent else r.sent == s.sent[x := s.sent[x] + [[m]]]
    requires r.log == s.log + [Frame(m, To(x))] && r.begun == if m.more then [m] else []
    ensures Offered(s, m, q, SentTo(x)) == r
  {
    assert After(s.q, SentTo(x), m, s.outs) == r.outs;
    assert [] + [m] == [m];
  }

  lemma ReachAttached()
    ensures Reachable(ATTACHED)
  {
    ReachStart<nat, nat>();
    var s1 := System(Lb(Ring([0], 1, 0), false, false), map[0 := ([], 0)], map[0 := []], [], []);
    ReachAttach(Start(), 0, s1);
    var s2 := System(Lb(Ring([0, 1], 2, 0), false, false), map[0 := ([], 0), 1 := ([], 0)],
                     map[0 := [], 1 := []], [], []);
    ReachAttach(s1, 1, s2);
    ReachAttach(s2, 2, ATTACHED);
  }

  lemma ReachSentOne()
    ensures Reachable(SENT_ONE)
  {
    ReachAttached();
    ReachSend(ATTACHED, LAST, 0, SENT_ONE.q);
    assert [] + [[LAST]] == [[LAST]];
    OfferedIs(ATTACHED, LAST, SENT_ONE.q, 0, [LAST], SENT_ONE);
  }

  lemma ReachSentTwo()
    ensures Reachable(SENT_TWO)
  {
    ReachSentOne();
    ReachSend(SENT_ONE, LAST, 1, SENT_TWO.q);
    assert [] + [[LAST]] == [[LAST]];
    OfferedIs(SENT_ONE, LAST, SENT_TWO.q, 1, [LAST], SENT_TWO);
  }

  lemma ReachMiddle()
    ensures Reachable(MIDDLE)
  {
    ReachSentTwo();
    ReachSend(SENT_TWO, FIRST, 2, MIDDLE.q);
    OfferedIs(SENT_TWO, FIRST, MIDDLE.q, 2, [FIRST], MIDDLE);
  }

  /** Three pipes, one message sent to pipe 0 and one to pipe 1, and the first of two frames to pipe 2.  Now pipe 1
      terminates, and the second frame goes to pipe 0. */
  lemma TerminationCanSplit()
    ensures Reachable(MIDDLE) && Wired(MIDDLE) && Sending(MIDDLE.q) && !TurnKept(MIDDLE.q.ring, 1)
    ensures var q := Terminate(MIDDLE.q, 1);
      Valid(q) && Send(q, false, ALL).1 == SentTo(0) && !Fits(CourseOf(MIDDLE.log), Frame(LAST, To(0)))
  {
    ReachMiddle();
    ReachStep(MIDDLE, OpHasOut(ALL));
    TerminatedItems(MIDDLE.q.ring, 1);
    assert Terminate(MIDDLE.q, 1) == Lb(Ring([0, 2], 2, 0), true, false);
  }

  // ------------------------------------------------------------------ no pipe with room is forgotten

  /** Between messages a frame is refused exactly if no pipe that takes turns has room; in the middle of one it is
      refused exactly if the pipe of the message is full, unless the message is being dropped. */
  lemma SendExactly<P>(q: Lb<P>, more: bool, room: set<P>)
    requires Valid(q)
    ensures Send(q, more, room).1.Again? <==>
      if q.dropping then false else if q.more then Holder(q) !in room else Actives(q.ring) !! room
    ensures Send(q, more, room).1.SentTo? ==>
      Send(q, more, room).1.p in room && Send(q, more, room).1.p in Actives(q.ring)
  {
    AdvanceFinds(q.ring, room);
    AdvanceActives(q.ring, room);
    var a := Advance(q.ring, room);
    if a.active > 0 {
      assert a.items[..a.active][a.current] == a.items[a.current];
      assert a.items[a.current] in Actives(a);
    }
  }

  /** has_out says whether a frame would be taken, or another one of the message is under way. */
  lemma HasOutExactly<P>(q: Lb<P>, room: set<P>)
    requires Valid(q)
    ensures HasOut(q, room).1 <==> q.more || exists p :: p in Actives(q.ring) && p in room
  {
    AdvanceFinds(q.ring, room);
  }

  /** A look at the pipes that finds p full. */
  predicate FindsFull<P(==), C>(s: System<P, C>, op: Op<P, C>, p: P) {
    !s.q.more && match op
      case OpSend(_, room) => p !in room
      case OpHasOut(room) => p !in room
      case _ => false
  }

  lemma SendActives<P>(q: Lb<P>, more: bool, room: set<P>)
    requires Valid(q)
    ensures Actives(Send(q, more, room).0.ring) <= Actives(q.ring)
    ensures Actives(q.ring) - Actives(Send(q, more, room).0.ring) !! room
    ensures q.more ==> Actives(Send(q, more, room).0.ring) == Actives(q.ring)
  {
    AdvanceActives(q.ring, room);
    assert Actives(Send(q, more, room).0.ring) == Actives(
      if q.dropping || (q.more && Holder(q) !in room) then q.ring else Advance(q.ring, room));
  }

  /** A pipe takes turns from when it is attached or reported writable until it is found full or goes. */
  lemma TakesTurns<P, C>(s: System<P, C>, op: Op<P, C>, p: P)
    requires Wired(s) && Allowed(s, op) && Wired(Step(s, op))
    ensures op == OpAttach(p) || op == OpActivated(p) ==> p in Actives(Step(s, op).q.ring)
    ensures p in Actives(s.q.ring) && op != OpTerminated(p) && !FindsFull(s, op, p) ==>
      p in Actives(Step(s, op).q.ring)
    ensures p in Actives(Step(s, op).q.ring) ==>
      op == OpAttach(p) || op == OpActivated(p) || (p in Actives(s.q.ring) && op != OpTerminated(p))
  {
    match op
    case OpAttach(x) => AttachActives(s.q.ring, x);
    case OpActivated(x) => ActivatedActives(s.q.ring, x);
    case OpTerminated(x) => TerminatedActives(s.q.ring, x);
    case OpSend(m, room) => SendActives(s.q, m.more, room);
    case OpHasOut(room) => AdvanceActives(s.q.ring, room);
  }

  predicate Spares<P(==), C>(s: System<P, C>, op: Op<P, C>, p: P) {
    op != OpTerminated(p) && !FindsFull(s, op, p)
  }

  lemma InTurn<P, C>(s: System<P, C>, op: Op<P, C>, r: System<P, C>, p: P)
    requires Wired(s) && Allowed(s, op) && Wired(r) && r == Step(s, op)
    requires op == OpAttach(p) || op == OpActivated(p) || (p in Actives(s.q.ring) && Spares(s, op, p))
    ensures p in Actives(r.q.ring)
  {
    TakesTurns(s, op, p);
  }

  lemma {:induction false} StaysInTurn<P, C>(
      from: System<P, C>, trace: seq<System<P, C>>, ops: seq<Op<P, C>>, i: nat, k: nat, p: P)
    requires Inv(from) && Run(from, trace, ops) && i < k < |trace|
    requires ops[i] == OpAttach(p) || ops[i] == OpActivated(p)
    requires forall j {:trigger ops[j]} | i < j < k :: Spares(trace[j], ops[j], p)
    ensures Wired(trace[k]) && p in Actives(trace[k].q.ring)
    decreases k
  {
    RunKeeps(from, trace, ops, k);
    RunKeeps(from, trace, ops, k - 1);
    assert trace[k - 1 + 1] == Step(trace[k - 1], ops[k - 1]);
    if k - 1 > i {
      StaysInTurn(from, trace, ops, i, k - 1, p);
      assert Spares(trace[k - 1], ops[k - 1], p);
    }
    InTurn(trace[k - 1], ops[k - 1], trace[k], p);
  }

  /** In every run: a pipe that has been attached or reported writable, that has not gone since and has not been found
      full since, and that has room, is not forgotten: the next message finds a pipe, and has_out says so. */
  lemma NothingForgotten<P, C>(
      from: System<P, C>, trace: seq<System<P, C>>, ops: seq<Op<P, C>>, i: nat, k: nat, p: P, more: bool, room: set<P>)
    requires Inv(from) && Run(from, trace, ops) && i < k < |trace|
    requires ops[i] == OpAttach(p) || ops[i] == OpActivated(p)
    requires forall j {:trigger ops[j]} | i < j < k :: Spares(trace[j], ops[j], p)
    requires !trace[k].q.more && p in room
    ensures Wired(trace[k]) && Send(trace[k].q, more, room).1.SentTo? && HasOut(trace[k].q, room).1
  {
    StaysInTurn(from, trace, ops, i, k, p);
    SendExactly(trace[k].q, more, room);
    HasOutExactly(trace[k].q, room);
  }

  // ------------------------------------------------------------------ fairness

  /** The number of messages completed on some pipe. */
  function Completed<P, C>(log: seq<Event<P, C>>): nat {
    if log == [] then 0
    else
      var e := log[|log| - 1];
      Completed(log[..|log| - 1]) + if e.Frame? && e.fate.To? && !e.m.more then 1 else 0
  }

  function Served<P(==), C>(s: System<P, C>, p: P): nat
    requires IsActive(s.q.ring, p)
  {
    Completed(s.log) + Distance(s.q.ring, p)
  }

  function Joins<P, C>(ops: seq<Op<P, C>>): nat {
    if ops == [] then 0
    else Joins(ops[..|ops| - 1]) + if ops[|ops| - 1].OpAttach? || ops[|ops| - 1].OpActivated? then 1 else 0
  }

  /** p has room, and no frame is sent to it. */
  predicate PassesOver<P(==), C>(s: System<P, C>, op: Op<P, C>, p: P)
    requires Valid(s.q)
  {
    match op
    case OpSend(m, room) => p in room && Send(s.q, m.more, room).1 != SentTo(p)
    case OpHasOut(room) => p in room
    case OpTerminated(_) => false
    case _ => true
  }

  lemma FairSend<P, C>(s: System<P, C>, m: Message<C>, room: set<P>, p: P)
    requires Wired(s) && IsActive(s.q.ring, p) && PassesOver(s, OpSend(m, room), p)
    ensures var r := Step(s, OpSend(m, room));
      IsActive(r.q.ring, p) && Served(r, p) <= Served(s, p)
  {
    AdvanceDistance(s.q.ring, room, p);
    var (q, outcome) := Send(s.q, m.more, room);
    var r := Step(s, OpSend(m, room));
    match outcome
    case Dropped => CompletedStep(s.log, Frame(m, Lost));
    case Again => CompletedStep(s.log, RolledBack);
    case SentTo(x) =>
      CompletedStep(s.log, Frame(m, To(x)));
      if !m.more {
        NextDistance(Advance(s.q.ring, room), p);
      }
  }

  lemma CompletedStep<P, C>(log: seq<Event<P, C>>, e: Event<P, C>)
    ensures Completed(log + [e]) == Completed(log) + if e.Frame? && e.fate.To? && !e.m.more then 1 else 0
  {
    assert (log + [e])[..|log|] == log;
  }

  lemma FairStep<P, C>(s: System<P, C>, op: Op<P, C>, p: P)
    requires Wired(s) && Allowed(s, op) && IsActive(s.q.ring, p) && PassesOver(s, op, p)
    ensures IsActive(Step(s, op).q.ring, p)
    ensures Served(Step(s, op), p) <= Served(s, p) + if op.OpAttach? || op.OpActivated? then 1 else 0
  {
    match op
    case OpAttach(x) => AttachDistance(s.q.ring, x, p);
    case OpActivated(x) => ActivatedDistance(s.q.ring, x, p);
    case OpTerminated(x) =>
    case OpSend(m, room) => FairSend(s, m, room, p);
    case OpHasOut(room) => AdvanceDistance(s.q.ring, room, p);
  }

  predicate PassedOver<P(==), C>(trace: seq<System<P, C>>, ops: seq<Op<P, C>>, i: nat, p: P) {
    i < |trace| && i < |ops| && Valid(trace[i].q) && PassesOver(trace[i], ops[i], p)
  }

  /** While an active pipe that has room is passed over, at most as many messages are completed on
      other pipes as its distance, plus one for every pipe that joins. */
  lemma {:induction false} ServedInTurn<P, C>(
      from: System<P, C>, trace: seq<System<P, C>>, ops: seq<Op<P, C>>, k: nat, p: P)
    requires Run(from, trace, ops) && k < |trace| && IsActive(from.q.ring, p)
    requires forall i | 0 <= i < k :: PassedOver(trace, ops, i, p)
    ensures IsActive(trace[k].q.ring, p)
    ensures Served(trace[k], p) <= Served(from, p) + Joins(ops[..k])
    decreases k
  {
    if k == 0 {
      assert trace[0] == from;
    } else {
      ServedInTurn(from, trace, ops, k - 1, p);
      var s := trace[k - 1];
      assert PassedOver(trace, ops, k - 1, p);
      assert trace[k - 1 + 1] == Step(s, ops[k - 1]);
      FairStep(s, ops[k - 1], p);
      assert ops[..k][..k - 1] == ops[..k - 1];
    }
  }
}
