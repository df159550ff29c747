/** What the ownership protocol guarantees over all its runs: safety, order of destruction,
    absence of deadlock, and termination. */
module OwnershipTheorems {
  import opened Wrappers
  import opened Ownership
  import opened OwnershipSafety

  // ------------------------------------------------------------------ runs

  function Run(w: World, actions: seq<Action>): Option<World>
    decreases |actions|
  {
    if actions == [] then Some(w)
    else if Shaped(w) && Enabled(w, actions[0]) then Run(Step(w, actions[0]), actions[1..])
    else None
  }

  ghost predicate Reachable(w: World) {
    exists actions :: Run(INITIAL, actions) == Some(w)
  }

  lemma {:induction false} RunKeeps(w: World, actions: seq<Action>)
    requires Inv(w) && Run(w, actions).Some?
    ensures Inv(Run(w, actions).value)
    decreases |actions|
  {
    if actions != [] {
      StepKeeps(w, actions[0]);
      RunKeeps(Step(w, actions[0]), actions[1..]);
    }
  }

  lemma ReachableInv(w: World)
    requires Reachable(w)
    ensures Inv(w) && Shaped(w)
  {
    var actions :| Run(INITIAL, actions) == Some(w);
    RunKeeps(INITIAL, actions);
    InvShaped(w);
  }

  /** Nothing is in flight, and nothing is left to the environment. */
  predicate Quiet(w: World)
    requires Sized(w)
  {
    forall o | 0 <= o < |w.nodes| :: w.mail[o] == [] && w.external[o] == 0 && w.reserved[o] == 0
  }

  // ------------------------------------------------------------------ safety

  /** No assertion of the source fails, no handler of a destroyed object runs, and no command
      waits for a destroyed object. */
  lemma NothingGoesWrong(w: World, o: nat)
    requires Reachable(w) && o < |w.nodes|
    ensures w.ok && |w.mail| == |w.nodes|
    ensures w.nodes[o].destroyed ==> w.mail[o] == []
  {
    ReachableInv(w);
    assert Core(w, o);
  }

  /** The commands an object was promised and has not handled are queued or announced, and
      term_acks is what it still waits for: events, queued acknowledgements, dying children. */
  lemma AccountsBalance(w: World, o: nat)
    requires Reachable(w) && o < |w.nodes|
    ensures Sized(w)
    ensures w.nodes[o].sent == w.nodes[o].processed + Tally(w.mail[o], Counted) + w.reserved[o]
    ensures w.nodes[o].termAcks == w.external[o] + Tally(w.mail[o], AnyAck) + |Waiting(w, o)|
  {
    ReachableInv(w);
    assert Core(w, o);
  }

  /** Across any run an object never comes back to life and never stops terminating. */
  lemma {:induction false} FatesAreFinal(w: World, actions: seq<Action>, o: nat)
    requires Inv(w) && o < |w.nodes| && Run(w, actions).Some?
    ensures var v := Run(w, actions).value;
      && o < |v.nodes|
      && v.nodes[o].owner == w.nodes[o].owner && v.nodes[o].linger == w.nodes[o].linger
      && (w.nodes[o].terminating ==> v.nodes[o].terminating)
      && (w.nodes[o].destroyed ==> v.nodes[o] == w.nodes[o])
    decreases |actions|
  {
    if actions != [] {
      StepKeeps(w, actions[0]);
      StepIsFinal(w, actions[0], o);
      FatesAreFinal(Step(w, actions[0]), actions[1..], o);
    }
  }

  lemma StepIsFinal(w: World, a: Action, o: nat)
    requires Inv(w) && Shaped(w) && Enabled(w, a) && o < |w.nodes|
    ensures var v := Step(w, a);
      && o < |v.nodes|
      && v.nodes[o].owner == w.nodes[o].owner && v.nodes[o].linger == w.nodes[o].linger
      && (w.nodes[o].terminating ==> v.nodes[o].terminating)
      && (w.nodes[o].destroyed ==> v.nodes[o] == w.nodes[o])
  {
    assert Core(w, o);
    if a.Deliver? {
      assert Core(w, a.to);
    }
  }

  /** An object is told to terminate at most once: one term command at most is queued for it,
      and none once it is terminating, when no further one can arrive. */
  lemma ToldAtMostOnce(w: World, o: nat)
    requires Reachable(w) && o < |w.nodes|
    ensures Sized(w) && Tally(w.mail[o], AnyTerm) + One(w.nodes[o].terminating) <= 1
  {
    ReachableInv(w);
    assert Core(w, o);
  }

  predicate HandlesTerm(w: World, a: Action, o: nat) {
    a == Deliver(o) && o < |w.mail| && w.mail[o] != [] && w.mail[o][0].Term?
  }

  predicate Destroys(w: World, a: Action, o: nat)
    requires Shaped(w) && Enabled(w, a)
  {
    var v := Step(w, a);
    o < |w.nodes| && o < |v.nodes| && !w.nodes[o].destroyed && v.nodes[o].destroyed
  }

  /** How many term commands o handles, and how often o is destroyed, along a run. */
  function Fates(w: World, actions: seq<Action>, o: nat): (nat, nat)
    requires Run(w, actions).Some?
    decreases |actions|
  {
    if actions == [] then (0, 0) else
      var (terms, ends) := Fates(Step(w, actions[0]), actions[1..], o);
      (terms + One(HandlesTerm(w, actions[0], o)), ends + One(Destroys(w, actions[0], o)))
  }

  lemma {:induction false} FatesBounded(w: World, actions: seq<Action>, o: nat)
    requires Inv(w) && Run(w, actions).Some?
    ensures Fates(w, actions, o).0 + One(o < |w.nodes| && w.nodes[o].terminating) <= 1
    ensures Fates(w, actions, o).1 + One(o < |w.nodes| && w.nodes[o].destroyed) <= 1
    decreases |actions|
  {
    if actions != [] {
      var a := actions[0];
      var v := Step(w, a);
      StepKeeps(w, a);
      FatesBounded(v, actions[1..], o);
      if o < |w.nodes| {
        StepIsFinal(w, a, o);
        assert Core(w, o);
        if HandlesTerm(w, a, o) {
          TallyPositive(w.mail[o], 0, AnyTerm);
        }
      }
    }
  }

  /** From the empty system: no object handles two term commands, none is destroyed twice. */
  lemma OneTermOneEnd(actions: seq<Action>, o: nat)
    requires Run(INITIAL, actions).Some?
    ensures Fates(INITIAL, actions, o).0 <= 1 && Fates(INITIAL, actions, o).1 <= 1
  {
    FatesBounded(INITIAL, actions, o);
  }

  /** What the handlers assert or silently rely on holds whenever a command arrives. */
  lemma HandlersAreSafe(w: World, o: nat)
    requires Reachable(w) && o < |w.nodes| && o < |w.mail| && w.mail[o] != []
    ensures !w.nodes[o].destroyed
    ensures CommandNamed(w.mail[o][0], |w.nodes|)
    ensures w.mail[o][0].Term? ==> !w.nodes[o].terminating
    ensures w.mail[o][0].TermAck? ==> w.nodes[o].termAcks > 0
    ensures w.nodes[o].terminating ==> w.nodes[o].owned == {}
  {
    ReachableInv(w);
    assert Core(w, o) && OwnsNothing(w, o);
    if w.mail[o][0].Term? {
      TallyPositive(w.mail[o], 0, AnyTerm);
    } else if w.mail[o][0].TermAck? {
      TallyPositive(w.mail[o], 0, AnyAck);
    }
  }

  /** d is o or below it in the forest; owners are older than what they own. */
  predicate Below(w: World, d: nat, o: nat)
    decreases d
  {
    d < |w.nodes| && (d == o
      || (w.nodes[d].owner.Some? && w.nodes[d].owner.value < d && Below(w, w.nodes[d].owner.value, o)))
  }

  /** Owners are older than what they own, so that Below leaves nothing out. */
  lemma OwnersAreOlder(w: World)
    requires Reachable(w)
    ensures forall i | 0 <= i < |w.nodes| :: w.nodes[i].owner.Some? ==> w.nodes[i].owner.value < i
  {
    ReachableInv(w);
    forall i | 0 <= i < |w.nodes|
      ensures w.nodes[i].owner.Some? ==> w.nodes[i].owner.value < i
    {
      assert Core(w, i);
    }
  }

  /** An object is destroyed only after everything below it. */
  lemma {:induction false} SubtreeGoesFirst(w: World, o: nat, d: nat)
    requires Reachable(w) && o < |w.nodes| && w.nodes[o].destroyed && Below(w, d, o)
    ensures w.nodes[d].destroyed
    decreases d
  {
    ReachableInv(w);
    if d != o {
      SubtreeGoesFirst(w, o, w.nodes[d].owner.value);
      assert Core(w, w.nodes[d].owner.value);
    }
  }

  /** After a termination request the child has been told to terminate, exactly if the request has not overtaken
      the own command of the child; otherwise it is lost. */
  lemma RequestLostExactly(w: World, p: nat, c: nat)
    requires Reachable(w) && Shaped(w) && p < |w.nodes| && c < |w.nodes|
    requires w.mail[p] != [] && w.mail[p][0] == TermReq(c)
    ensures Sized(Step(w, Deliver(p))) && |Step(w, Deliver(p)).nodes| == |w.nodes|
    ensures Termed(Step(w, Deliver(p)), c) <==> Own(c) !in w.mail[p]
  {
    ReachableInv(w);
    assert Core(w, p) && Core(w, c) && OwnsNothing(w, p);
    DeliverKeeps(w, p);
    if Own(c) in w.mail[p] {
      var i :| 0 <= i < |w.mail[p]| && w.mail[p][i] == Own(c);
      TallyPositive(w.mail[p], i, OwnOf(c));
    } else if Tally(w.mail[p], OwnOf(c)) > 0 {
      OwnAmong(w.mail[p], c);
    }
    if !w.nodes[p].terminating && c in w.nodes[p].owned {
      Tallies(w.mail[c], Term(w.nodes[p].linger));
      Tallies(w.mail[p][1..], Term(w.nodes[p].linger));
    }
  }

  lemma {:induction false} OwnAmong(q: seq<Command>, c: nat)
    requires Tally(q, OwnOf(c)) > 0
    ensures Own(c) in q
  {
    if q[0] != Own(c) {
      OwnAmong(q[1..], c);
    }
  }

  /** It does happen: a child asks for its termination before its parent has sent itself the own command.  In
      the end nothing is on its way and the child lives on. */
  lemma RequestCanBeLost() returns (actions: seq<Action>)
    ensures Terminate(1) in actions && Run(INITIAL, actions).Some?
    ensures var w := Run(INITIAL, actions).value;
      Sized(w) && Quiet(w) && |w.nodes| == 2 && w.nodes[0].owned == {1} && !w.nodes[1].terminating
  {
    LostLaunch();
    LostRequest();
    LostOvertake();
    LostOwn();
    var first, second, third := [NewRoot(0), Launch(0, 0, 0)], [Deliver(1), Terminate(1)], [Overtake(0, 0), Deliver(0)];
    RunsCompose(INITIAL, first, second);
    RunsCompose(INITIAL, first + second, third);
    RunsCompose(INITIAL, first + second + third, [Deliver(0)]);
    actions := first + second + third + [Deliver(0)];
    assert actions[3] == Terminate(1);
  }

  const LOST_PARENT := Node(false, 1, 0, None, {}, 0, 0, false)
  const LOST_CHILD := Node(false, 1, 1, Some(0), {}, 0, 0, false)

  function LostWorld(parent: Node, child: Node, toParent: seq<Command>, toChild: seq<Command>): World {
    World([parent, child], [toParent, toChild], [0, 0], [0, 0], true)
  }

  lemma LostLaunch()
    ensures Run(INITIAL, [NewRoot(0), Launch(0, 0, 0)])
      == Some(LostWorld(LOST_PARENT, LOST_CHILD.(processed := 0), [Own(1)], [Plug]))
  {
    var w := World([Node(false, 0, 0, None, {}, 0, 0, false)], [[]], [0], [0], true);
    assert Step(INITIAL, NewRoot(0)) == w;
    var v := Step(w, Launch(0, 0, 0));
    assert v.mail[0] == [Own(1)] && v.mail[1] == [Plug];
    assert v == LostWorld(LOST_PARENT, LOST_CHILD.(processed := 0), [Own(1)], [Plug]);
    assert [NewRoot(0), Launch(0, 0, 0)][1..] == [Launch(0, 0, 0)];
    assert Run(v, [Launch(0, 0, 0)][1..]) == Some(v);
  }

  lemma LostRequest()
    ensures Run(LostWorld(LOST_PARENT, LOST_CHILD.(processed := 0), [Own(1)], [Plug]), [Deliver(1), Terminate(1)])
         == Some(LostWorld(LOST_PARENT, LOST_CHILD, [Own(1), TermReq(1)], []))
  {
    var w := LostWorld(LOST_PARENT, LOST_CHILD.(processed := 0), [Own(1)], [Plug]);
    var u := LostWorld(LOST_PARENT, LOST_CHILD, [Own(1)], []);
    assert Step(w, Deliver(1)).mail[1] == [];
    assert Step(w, Deliver(1)) == u;
    assert Step(u, Terminate(1)).mail[0] == [Own(1), TermReq(1)];
    assert Step(u, Terminate(1)) == LostWorld(LOST_PARENT, LOST_CHILD, [Own(1), TermReq(1)], []);
    assert [Deliver(1), Terminate(1)][1..] == [Terminate(1)];
  }

  lemma LostOvertake()
    ensures Run(LostWorld(LOST_PARENT, LOST_CHILD, [Own(1), TermReq(1)], []), [Overtake(0, 0), Deliver(0)])
         == Some(LostWorld(LOST_PARENT, LOST_CHILD, [Own(1)], []))
  {
    var w := LostWorld(LOST_PARENT, LOST_CHILD, [Own(1), TermReq(1)], []);
    var u := LostWorld(LOST_PARENT, LOST_CHILD, [TermReq(1), Own(1)], []);
    assert Reordered(w.mail[0], 0) == u.mail[0];
    assert Step(w, Overtake(0, 0)).mail == u.mail;
    assert Step(w, Overtake(0, 0)) == u;
    assert Step(u, Deliver(0)).mail[0] == [Own(1)];
    assert Step(u, Deliver(0)) == LostWorld(LOST_PARENT, LOST_CHILD, [Own(1)], []);
    assert [Overtake(0, 0), Deliver(0)][1..] == [Deliver(0)];
  }

  lemma LostOwn()
    ensures Run(LostWorld(LOST_PARENT, LOST_CHILD, [Own(1)], []), [Deliver(0)])
         == Some(LostWorld(LOST_PARENT.(processed := 1, owned := {1}), LOST_CHILD, [], []))
  {
    var w := LostWorld(LOST_PARENT, LOST_CHILD, [Own(1)], []);
    assert Step(w, Deliver(0)).mail[0] == [];
    assert Step(w, Deliver(0)).nodes[0] == LOST_PARENT.(processed := 1, owned := {1});
    assert Step(w, Deliver(0)) == LostWorld(LOST_PARENT.(processed := 1, owned := {1}), LOST_CHILD, [], []);
  }

  /** The destruction test compares an unbounded count with one modulo 2^32: an object that has caught up passes
      it exactly when fewer than 2^32 commands were counted. */
  lemma SeqnumWidth(x: Cell)
    requires Named(x) && x.node.terminating && x.node.termAcks == 0 && !x.node.destroyed
    requires x.node.processed == x.node.sent
    ensures CheckTermAcks(x).node.destroyed <==> x.node.sent < SEQNUM_MODULUS
  {
  }

  // ------------------------------------------------------------------ no deadlock

  /** With nothing in flight and nothing left to the environment, every terminating object is gone. */
  lemma {:induction false} NoDeadlock(w: World, o: nat)
    requires Reachable(w) && Sized(w) && Quiet(w)
    requires o < |w.nodes| && w.nodes[o].terminating
    ensures w.nodes[o].destroyed
    decreases |w.nodes| - o
  {
    ReachableInv(w);
    assert Core(w, o) && Wake(w, o);
    if !w.nodes[o].destroyed {
      assert |Waiting(w, o)| > 0;
      var c :| c in Waiting(w, o);
      assert Core(w, c) && Awaited(w, o, c);
      NoDeadlock(w, c);
    }
  }

  // ------------------------------------------------------------------ termination

  /** Steps that finish old business; all others launch, register or ask for something new. */
  predicate Finishing(a: Action) {
    a.Deliver? || a.UnregisterAck? || a.SendHeld?
  }

  /** What an object can still cause: being told, being destroyed, its queue and its debts. */
  function Load(w: World, o: nat): nat
    requires Sized(w) && o < |w.nodes|
  {
    (if w.nodes[o].destroyed then 0 else if Termed(w, o) then 2 else 4)
    + |w.mail[o]| + w.external[o] + 2 * w.reserved[o]
  }

  function LoadUpTo(w: World, n: nat): nat
    requires Sized(w) && n <= |w.nodes|
  {
    if n == 0 then 0 else LoadUpTo(w, n - 1) + Load(w, n - 1)
  }

  function Measure(w: World): nat
    requires Sized(w)
  {
    LoadUpTo(w, |w.nodes|)
  }

  /** No load grows, except by one at `up`, and the load of `down` falls by `drop`. */
  lemma {:induction false} SumFalls(w: World, v: World, n: nat, down: nat, drop: nat, up: Option<nat>)
    requires Sized(w) && Sized(v) && |w.nodes| == |v.nodes| && n <= |w.nodes|
    requires forall i: nat | i < n :: Load(v, i) + One(i == down) * drop <= Load(w, i) + One(up == Some(i))
    ensures LoadUpTo(v, n) + One(down < n) * drop <= LoadUpTo(w, n) + One(up.Some? && up.value < n)
  {
    if n > 0 {
      SumFalls(w, v, n - 1, down, drop, up);
    }
  }

  lemma TellLoad(w: World, o: nat, kids: set<nat>, linger: int, i: nat)
    requires AllCore(w) && Live(w, o) && kids <= w.nodes[o].owned && i < |w.nodes|
    ensures Load(Tell(w, o, kids, linger), i) <= Load(w, i)
  {
    TellTermed(w, o, kids, linger);
  }

  lemma PopLoad(w: World, o: nat, node: Node, i: nat)
    requires Shaped(w) && o < |w.nodes| && w.mail[o] != [] && i < |w.nodes| && Live(w, o)
    requires node.destroyed == w.nodes[o].destroyed
    requires node.terminating == if w.mail[o][0].Term? then true else w.nodes[o].terminating
    ensures Load(Popping(w, o, node), i) + One(i == o) <= Load(w, i)
  {
    if i == o && w.mail[o][0].Term? {
      TallyPositive(w.mail[o], 0, AnyTerm);
    }
  }

  /** Before its final check, a delivery takes one from the receiver's load and adds to none. */
  lemma UncheckedLoad(w: World, o: nat, i: nat)
    requires Inv(w) && Shaped(w) && o < |w.nodes| && w.mail[o] != [] && i < |w.nodes| && Live(w, o)
    ensures Load(Unchecked(w, o), i) + One(i == o) <= Load(w, i)
  {
    var n := w.nodes[o];
    match w.mail[o][0] {
      case Own(c) =>
        var v := Popping(w, o, n.(processed := n.processed + 1, owned := n.owned + {c}));
        PopLoad(w, o, n.(processed := n.processed + 1, owned := n.owned + {c}), i);
        if n.terminating {
          forall k | 0 <= k < |v.nodes| ensures Core(v, k) { OwnCore(w, o, k); }
          TellLoad(v, o, {c}, 0, i);
        }
      case TermReq(c) =>
        var v := Popping(w, o, n);
        PopLoad(w, o, n, i);
        if !n.terminating && c in n.owned {
          forall k | 0 <= k < |v.nodes| ensures Core(v, k) { RequestCore(w, o, k); }
          TellLoad(v, o, {c}, n.linger, i);
        }
      case Term(l) =>
        var v := Popping(w, o, n.(terminating := true));
        PopLoad(w, o, n.(terminating := true), i);
        forall k | 0 <= k < |v.nodes| ensures Core(v, k) { TermCore(w, o, k); }
        TellLoad(v, o, n.owned, l, i);
      case TermAck =>
        PopLoad(w, o, n.(termAcks := n.termAcks - 1), i);
      case _ =>
        PopLoad(w, o, n.(processed := n.processed + 1), i);
    }
  }

  /** Destroying an object takes two from its load and adds one to its owner's. */
  lemma CheckedMeasure(w: World, o: nat)
    requires InvBut(w, o) && Shaped(w) && Live(w, o)
    ensures Sized(Checked(w, o)) && Measure(Checked(w, o)) <= Measure(w)
  {
    var v := Checked(w, o);
    assert Core(w, o) && OwnsNothing(w, o);
    if w.nodes[o].terminating && w.nodes[o].sent == w.nodes[o].processed && w.nodes[o].termAcks == 0 {
      assert v == Bury(w, o);
      forall i: nat | i < |w.nodes|
        ensures Load(v, i) + One(i == o) * 2 <= Load(w, i) + One(w.nodes[o].owner == Some(i))
      {
        BuryTallies(w, o, i);
      }
      SumFalls(w, v, |w.nodes|, o, 2, w.nodes[o].owner);
    } else {
      assert v.nodes == w.nodes;
    }
  }

  lemma DeliverMeasure(w: World, o: nat)
    requires Inv(w) && Shaped(w) && o < |w.nodes| && w.mail[o] != []
    ensures Sized(Step(w, Deliver(o))) && Measure(Step(w, Deliver(o))) < Measure(w)
  {
    DeliverKeeps(w, o);
    var v := Unchecked(w, o);
    forall i: nat | i < |w.nodes|
      ensures Load(v, i) + One(i == o) * 1 <= Load(w, i) + One(None == Some(i))
    {
      UncheckedLoad(w, o, i);
    }
    SumFalls(w, v, |w.nodes|, o, 1, None);
    if !w.mail[o][0].TermReq? {
      CheckedMeasure(v, o);
    }
  }

  lemma UnregisterMeasure(w: World, o: nat)
    requires Inv(w) && Shaped(w) && o < |w.nodes| && w.external[o] > 0
    ensures Sized(Step(w, UnregisterAck(o))) && Measure(Step(w, UnregisterAck(o))) < Measure(w)
  {
    UnregisterKeeps(w, o);
    UnregisteringLoad(w, o);
    CheckedMeasure(Unregistering(w, o), o);
  }

  lemma UnregisteringLoad(w: World, o: nat)
    requires Sized(w) && o < |w.nodes| && w.external[o] > 0
    ensures Measure(Unregistering(w, o)) < Measure(w)
  {
    SumFalls(w, Unregistering(w, o), |w.nodes|, o, 1, None);
  }

  lemma SendHeldMeasure(w: World, o: nat, cmd: Command)
    requires Inv(w) && Shaped(w) && Enabled(w, SendHeld(o, cmd))
    ensures Sized(Step(w, SendHeld(o, cmd))) && Measure(Step(w, SendHeld(o, cmd))) < Measure(w)
  {
    Tallies(w.mail[o], cmd);
    SumFalls(w, Step(w, SendHeld(o, cmd)), |w.nodes|, o, 1, None);
  }

  /** Every finishing step, in particular every delivery, strictly decreases the measure. */
  lemma FinishingDecreases(w: World, a: Action)
    requires Inv(w) && Shaped(w) && Enabled(w, a) && Finishing(a)
    ensures Inv(Step(w, a)) && Measure(Step(w, a)) < Measure(w)
  {
    StepKeeps(w, a);
    match a
    case Deliver(o) => DeliverMeasure(w, o);
    case UnregisterAck(o) => UnregisterMeasure(w, o);
    case SendHeld(o, cmd) => SendHeldMeasure(w, o, cmd);
  }

  /** Once nothing new is started, a run is no longer than the measure of the state it starts in. */
  lemma {:induction false} FinishingRunsAreShort(w: World, actions: seq<Action>)
    requires Inv(w) && Run(w, actions).Some?
    requires forall i | 0 <= i < |actions| :: Finishing(actions[i])
    ensures |actions| <= Measure(w)
    decreases |actions|
  {
    if actions != [] {
      FinishingDecreases(w, actions[0]);
      FinishingRunsAreShort(Step(w, actions[0]), actions[1..]);
    }
  }

  /** From any reachable state a finishing run exists that empties every queue and pays every
      debt; by then every object that was terminating, with all below it, has been destroyed. */
  lemma {:induction false} TerminationCompletes(w: World) returns (actions: seq<Action>, v: World)
    requires Reachable(w)
    ensures Run(w, actions) == Some(v) && forall i | 0 <= i < |actions| :: Finishing(actions[i])
    ensures Sized(v) && Quiet(v) && |v.nodes| == |w.nodes|
    ensures forall o | 0 <= o < |w.nodes| && w.nodes[o].terminating :: v.nodes[o].destroyed
  {
    ReachableInv(w);
    actions, v := Finish(w);
    var before :| Run(INITIAL, before) == Some(w);
    RunsCompose(INITIAL, before, actions);
    forall o | 0 <= o < |w.nodes| && w.nodes[o].terminating
      ensures v.nodes[o].destroyed
    {
      FatesAreFinal(w, actions, o);
      NoDeadlock(v, o);
    }
  }

  lemma {:induction false} Finish(w: World) returns (actions: seq<Action>, v: World)
    requires Inv(w)
    ensures Run(w, actions) == Some(v) && forall i | 0 <= i < |actions| :: Finishing(actions[i])
    ensures Sized(v) && Quiet(v) && |v.nodes| == |w.nodes|
    decreases Measure(w)
  {
    InvShaped(w);
    if Quiet(w) {
      return [], w;
    }
    var o :| 0 <= o < |w.nodes| && !(w.mail[o] == [] && w.external[o] == 0 && w.reserved[o] == 0);
    var a := if w.mail[o] != [] then Deliver(o) else if w.external[o] > 0 then UnregisterAck(o) else SendHeld(o, Bind);
    FinishingDecreases(w, a);
    var rest;
    rest, v := Finish(Step(w, a));
    actions := [a] + rest;
    assert actions[1..] == rest;
  }

  lemma {:induction false} RunsCompose(w: World, first: seq<Action>, second: seq<Action>)
    requires Run(w, first).Some?
    ensures Run(w, first + second) == Run(Run(w, first).value, second)
    decreases |first|
  {
    if first == [] {
      assert first + second == second;
    } else {
      assert (first + second)[1..] == first[1..] + second;
      RunsCompose(Step(w, first[0]), first[1..], second);
    }
  }
}
