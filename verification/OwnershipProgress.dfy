/**
 * What becomes of a call of terminate: a root tells what it owns and goes, an owned object asks its owner, and in the
 * end the object and everything below it is destroyed.
 */
module OwnershipProgress {
  import opened Wrappers
  import opened Ownership
  import opened OwnershipSafety
  import opened OwnershipTheorems

  /** Every object in `to` finds one more command at the end of its mailbox, and no other mailbox changes. */
  predicate ToldOnly(w: World, v: World, to: set<nat>, cmd: Command) {
    && |v.mail| == |w.mail|
    && forall i | 0 <= i < |w.mail| :: v.mail[i] == if i in to then w.mail[i] + [cmd] else w.mail[i]
  }

  predicate OthersSame(w: World, v: World, o: nat) {
    |v.nodes| == |w.nodes| && forall i | 0 <= i < |w.nodes| && i != o :: v.nodes[i] == w.nodes[i]
  }

  // ------------------------------------------------------------------ one call of terminate

  /** The children of o that have not been destroyed. */
  function Living(w: World, o: nat): set<nat> {
    set c | 0 <= c < |w.nodes| && w.nodes[c].owner == Some(o) && !w.nodes[c].destroyed
  }

  /** Nothing is queued or announced for o, and all its children are gone. */
  predicate Idle(w: World, o: nat)
    requires Sized(w) && o < |w.nodes|
  {
    w.mail[o] == [] && w.external[o] == 0 && w.reserved[o] == 0 && Living(w, o) == {}
  }

  lemma OwnedLive(w: World, o: nat)
    requires Inv(w) && o < |w.nodes|
    ensures w.nodes[o].owned <= Living(w, o) && Waiting(w, o) <= Living(w, o)
  {
    assert Core(w, o);
    forall c | c in w.nodes[o].owned
      ensures c in Living(w, o)
    {
      assert Core(w, c);
    }
  }

  lemma IdleOwesNothing(w: World, o: nat)
    requires Inv(w) && o < |w.nodes| && Idle(w, o)
    ensures w.nodes[o].owned == {} && w.nodes[o].termAcks == 0
    ensures w.nodes[o].processed == w.nodes[o].sent < SEQNUM_MODULUS
  {
    assert Core(w, o);
    OwnedLive(w, o);
  }

  /** A root that is asked to terminate does so at once: everything it owns is told, with the root's linger, and
      nobody else is; with nothing to wait for it is destroyed. */
  lemma RootTerminates(w: World, o: nat)
    requires Reachable(w) && Shaped(w) && Enabled(w, Terminate(o))
    requires !w.nodes[o].terminating && w.nodes[o].owner.None?
    ensures var v := Step(w, Terminate(o));
      && OthersSame(w, v, o) && v.nodes[o].terminating && v.nodes[o].owned == {}
      && ToldOnly(w, v, w.nodes[o].owned, Term(w.nodes[o].linger))
      && (Idle(w, o) ==> v.nodes[o].destroyed)
  {
    ReachableInv(w);
    if Idle(w, o) {
      IdleOwesNothing(w, o);
    }
  }

  /** An owned object asks its owner, and that is all. */
  lemma OwnedAsks(w: World, o: nat)
    requires Reachable(w) && Shaped(w) && Enabled(w, Terminate(o))
    requires !w.nodes[o].terminating && w.nodes[o].owner.Some?
    ensures Step(w, Terminate(o)).nodes == w.nodes
    ensures ToldOnly(w, Step(w, Terminate(o)), {w.nodes[o].owner.value}, TermReq(o))
  {
    assert w.nodes[o := w.nodes[o]] == w.nodes;
  }

  /** term_child does to an owned child what a request from it does, and nothing to any other. */
  lemma ChildIsTold(w: World, p: nat, c: nat)
    requires Reachable(w) && Shaped(w) && Enabled(w, TermChild(p, c))
    ensures var v := Step(w, TermChild(p, c));
      if c in w.nodes[p].owned then
        && OthersSame(w, v, p) && v.nodes[p].owned == w.nodes[p].owned - {c}
        && ToldOnly(w, v, {c}, Term(w.nodes[p].linger))
      else v == w
  {
    ReachableInv(w);
    assert Core(w, p) && OwnsNothing(w, p);
  }

  /** A launched child is owned by nobody yet: it finds the plug, and the parent its own command behind what is
      queued; both are counted, and so are the increments made for the child beforehand. */
  lemma ChildIsLaunched(w: World, p: nat, linger: int, held: nat)
    requires Reachable(w) && Shaped(w) && Enabled(w, Launch(p, linger, held))
    ensures var v, c := Step(w, Launch(p, linger, held)), |w.nodes|;
      && |v.nodes| == |v.mail| == |v.reserved| == c + 1
      && v.nodes[c].owner == Some(p) && v.nodes[c].linger == linger
      && !v.nodes[c].terminating && !v.nodes[c].destroyed && v.nodes[c].owned == {}
      && v.mail[c] == [Plug] && v.nodes[c].sent == held + 1 && v.reserved[c] == held
      && v.mail[p] == w.mail[p] + [Own(c)] && v.nodes[p] == w.nodes[p].(sent := w.nodes[p].sent + 1)
      && forall i | 0 <= i < c && i != p :: v.nodes[i] == w.nodes[i] && v.mail[i] == w.mail[i]
  {
    ReachableInv(w);
  }

  /** A root begins with nothing: no owner, no children, an empty mailbox, and the linger it has been given. */
  lemma RootIsMade(w: World, linger: int)
    requires Reachable(w) && Shaped(w)
    ensures var v, o := Step(w, NewRoot(linger)), |w.nodes|;
      && |v.nodes| == |v.mail| == o + 1
      && v.nodes[o].owner == None && v.nodes[o].owned == {} && v.nodes[o].linger == linger
      && !v.nodes[o].terminating && !v.nodes[o].destroyed && v.mail[o] == []
      && forall i | 0 <= i < o :: v.nodes[i] == w.nodes[i] && v.mail[i] == w.mail[i]
  {
    ReachableInv(w);
  }

  /** What an object has been promised or has registered keeps it from being destroyed until it has come. */
  lemma PromisesHoldOff(w: World, o: nat)
    requires Reachable(w) && o < |w.nodes| && Sized(w)
    requires w.external[o] > 0 || w.reserved[o] > 0 || w.mail[o] != []
    ensures !w.nodes[o].destroyed
  {
    ReachableInv(w);
    assert Core(w, o);
  }

  lemma PromisesCount(w: World, o: nat, k: nat)
    requires Shaped(w) && Live(w, o)
    ensures Step(w, RegisterAcks(o, k)).external == w.external[o := w.external[o] + k]
    ensures Enabled(w, IncSeqnum(o)) ==> Step(w, IncSeqnum(o)).reserved == w.reserved[o := w.reserved[o] + 1]
  {
  }

  // ------------------------------------------------------------------ what the answers are

  /** An object that is told to terminate is terminating from then on, and tells all it owns with the linger it was
      told itself. */
  lemma TermIsPassedOn(w: World, o: nat)
    requires Reachable(w) && Shaped(w) && o < |w.nodes| && w.mail[o] != [] && w.mail[o][0].Term?
    ensures var v, kids := Step(w, Deliver(o)), w.nodes[o].owned;
      && OthersSame(w, v, o) && v.nodes[o].terminating && v.nodes[o].owned == {}
      && |v.mail| == |w.mail| && o !in kids
      && forall c | c in kids :: c < |w.mail| && v.mail[c] == w.mail[c] + [Term(w.mail[o][0].linger)]
  {
    ReachableInv(w);
    assert Core(w, o);
  }

  /** A request for an owned child of an object that goes on is granted: the child is told, with the owner's linger,
      and nobody else is. */
  lemma RequestIsGranted(w: World, o: nat)
    requires Reachable(w) && Shaped(w) && o < |w.nodes| && w.mail[o] != [] && w.mail[o][0].TermReq?
    requires !w.nodes[o].terminating && w.mail[o][0].child in w.nodes[o].owned
    ensures var v, c := Step(w, Deliver(o)), w.mail[o][0].child;
      && OthersSame(w, v, o) && !v.nodes[o].terminating && v.nodes[o].owned == w.nodes[o].owned - {c}
      && c != o && c < |w.mail| == |v.mail| && v.mail[o] == w.mail[o][1..]
      && v.mail[c] == w.mail[c] + [Term(w.nodes[o].linger)]
      && forall i | 0 <= i < |w.mail| && i != o && i != c :: v.mail[i] == w.mail[i]
  {
    ReachableInv(w);
    assert Core(w, o);
  }

  /** A new child is kept by an object that goes on, and told at once, with linger 0, by one that is terminating. */
  lemma OwnIsAnswered(w: World, o: nat)
    requires Reachable(w) && Shaped(w) && o < |w.nodes| && w.mail[o] != [] && w.mail[o][0].Own?
    ensures var v, c := Step(w, Deliver(o)), w.mail[o][0].child;
      && OthersSame(w, v, o) && c != o && c < |w.mail| == |v.mail|
      && v.nodes[o].owned == (if w.nodes[o].terminating then {} else w.nodes[o].owned + {c})
      && v.mail[c] == if w.nodes[o].terminating then w.mail[c] + [Term(0)] else w.mail[c]
  {
    ReachableInv(w);
    assert Core(w, o) && OwnsNothing(w, o);
    assert w.mail[o][0] in w.mail[o];
  }

  // ------------------------------------------------------------------ what comes of it in the end

  /** What lies below an object is fixed by the owners, which never change. */
  lemma {:induction false} BelowStays(w: World, actions: seq<Action>, d: nat, o: nat)
    requires Inv(w) && Run(w, actions).Some? && Below(w, d, o)
    ensures Below(Run(w, actions).value, d, o)
    decreases d
  {
    FatesAreFinal(w, actions, d);
    if d != o {
      BelowStays(w, actions, w.nodes[d].owner.value, o);
    }
  }

  lemma ReachableOn(w: World, actions: seq<Action>)
    requires Reachable(w) && Run(w, actions).Some?
    ensures Reachable(Run(w, actions).value)
  {
    var before :| Run(INITIAL, before) == Some(w);
    RunsCompose(INITIAL, before, actions);
  }

  lemma RunOne(w: World, a: Action)
    requires Shaped(w) && Enabled(w, a)
    ensures Run(w, [a]) == Some(Step(w, a))
  {
    assert [a][1..] == [];
  }

  /** Once an object is terminating, a finishing run destroys it with everything below it. */
  lemma SubtreeFinishes(w: World, o: nat) returns (actions: seq<Action>, v: World)
    requires Reachable(w) && o < |w.nodes| && w.nodes[o].terminating
    ensures Run(w, actions) == Some(v) && forall i | 0 <= i < |actions| :: Finishing(actions[i])
    ensures |v.nodes| == |w.nodes| && forall d: nat | Below(w, d, o) :: v.nodes[d].destroyed
  {
    ReachableInv(w);
    actions, v := TerminationCompletes(w);
    ReachableOn(w, actions);
    forall d: nat | Below(w, d, o)
      ensures v.nodes[d].destroyed
    {
      BelowStays(w, actions, d, o);
      SubtreeGoesFirst(v, o, d);
    }
  }

  /** After terminate has been called for a root, nothing but the deliveries and releases that are due is needed to
      destroy it and everything below it. */
  lemma RootIsDestroyed(w: World, o: nat) returns (actions: seq<Action>, v: World)
    requires Reachable(w) && Shaped(w) && Enabled(w, Terminate(o)) && w.nodes[o].owner.None?
    ensures Run(w, [Terminate(o)] + actions) == Some(v) && forall i | 0 <= i < |actions| :: Finishing(actions[i])
    ensures |v.nodes| == |w.nodes| && forall d: nat | Below(w, d, o) :: v.nodes[d].destroyed
  {
    ReachableInv(w);
    if !w.nodes[o].terminating {
      RootTerminates(w, o);
    }
    actions, v := AfterStep(w, Terminate(o), o);
  }

  lemma AfterStep(w: World, a: Action, o: nat) returns (actions: seq<Action>, v: World)
    requires Reachable(w) && Shaped(w) && Enabled(w, a) && o < |w.nodes| == |Step(w, a).nodes|
    requires Step(w, a).nodes[o].terminating
    ensures Run(w, [a] + actions) == Some(v) && forall i | 0 <= i < |actions| :: Finishing(actions[i])
    ensures |v.nodes| == |w.nodes| && forall d: nat | Below(w, d, o) :: v.nodes[d].destroyed
  {
    ReachableInv(w);
    RunOne(w, a);
    ReachableOn(w, [a]);
    forall d: nat | Below(w, d, o)
      ensures Below(Step(w, a), d, o)
    {
      BelowStays(w, [a], d, o);
    }
    actions, v := SubtreeFinishes(Step(w, a), o);
    RunsCompose(w, [a], actions);
  }

  // ------------------------------------------------------------------ an owned object that has asked

  /** More commands behind those of before, none of them an own command. */
  predicate Grows(before: seq<Command>, after: seq<Command>) {
    before <= after && forall j | |before| <= j < |after| :: !after[j].Own?
  }

  /** What is left of a mailbox when a step takes its command. */
  function Rest(w: World, a: Action, i: nat): seq<Command>
    requires i < |w.mail|
  {
    if a == Deliver(i) && w.mail[i] != [] then w.mail[i][1..] else w.mail[i]
  }

  /** All mailboxes have grown. */
  predicate AllGrow(before: Mail, after: Mail) {
    |after| == |before| && forall i | 0 <= i < |before| :: Grows(before[i], after[i])
  }

  lemma AllGrowTwice(a: Mail, b: Mail, c: Mail)
    requires AllGrow(a, b) && AllGrow(b, c)
    ensures AllGrow(a, c)
  {
    forall i | 0 <= i < |a|
      ensures Grows(a[i], c[i])
    {
      assert Grows(a[i], b[i]) && Grows(b[i], c[i]);
      assert c[i][..|a[i]|] == a[i];
      assert forall j | 0 <= j < |b[i]| :: c[i][j] == b[i][j];
    }
  }

  lemma CheckGrows(x: Cell)
    requires Named(x)
    ensures AllGrow(x.mail, CheckTermAcks(x).mail)
  {
  }

  lemma OwnGrows(x: Cell, c: nat)
    requires Named(x) && c < |x.mail|
    ensures AllGrow(x.mail, ProcessSeqnum(ProcessOwn(x, c)).mail)
  {
    var y := ProcessOwn(x, c);
    assert AllGrow(x.mail, y.mail);
    CheckGrows(y.(node := y.node.(processed := y.node.processed + 1)));
  }

  lemma TermGrows(x: Cell, l: int)
    requires Named(x)
    ensures AllGrow(x.mail, ProcessTerm(x, l).mail)
  {
    var y := StartTermination(x, l);
    CheckGrows(y);
    AllGrowTwice(x.mail, y.mail, CheckTermAcks(y).mail);
  }

  lemma HandlerGrows(x: Cell, cmd: Command)
    requires Named(x) && CommandNamed(cmd, |x.mail|)
    ensures AllGrow(x.mail, ProcessCommand(x, cmd).mail)
  {
    match cmd
    case Own(c) => OwnGrows(x, c);
    case TermReq(c) =>
    case Term(l) => TermGrows(x, l);
    case TermAck => CheckGrows(Cell(x.node.(termAcks := x.node.termAcks - 1), x.mail, x.ok && x.node.termAcks > 0));
    case _ => CheckGrows(x.(node := x.node.(processed := x.node.processed + 1)));
  }

  /** A finishing step takes at most the first command of one mailbox, and sends no own command. */
  lemma FinishingMail(w: World, a: Action, i: nat)
    requires Shaped(w) && Enabled(w, a) && Finishing(a) && i < |w.mail|
    ensures |Step(w, a).mail| == |w.mail| && Grows(Rest(w, a, i), Step(w, a).mail[i])
  {
    match a
    case Deliver(o) =>
      HandlerGrows(Popped(w, o), w.mail[o][0]);
      assert Popped(w, o).mail[i] == Rest(w, a, i);
    case UnregisterAck(o) =>
      assert Named(At(w, o));
      CheckGrows(Cell(w.nodes[o].(termAcks := w.nodes[o].termAcks - 1), w.mail, w.ok && w.nodes[o].termAcks > 0));
    case SendHeld(o, cmd) =>
  }

  /** c has been told to terminate, or its request is on the way and its own command is not. */
  predicate Asked(w: World, p: nat, c: nat)
    requires Sized(w) && p < |w.nodes| && c < |w.nodes|
  {
    Termed(w, c) || (TermReq(c) in w.mail[p] && Own(c) !in w.mail[p])
  }

  lemma SomeTerm(q: seq<Command>)
    requires Tally(q, AnyTerm) > 0
    ensures exists j :: 0 <= j < |q| && q[j].Term?
  {
    if forall j | 0 <= j < |q| :: !q[j].Term? {
      NoneIn(q, AnyTerm);
    }
  }

  lemma TermedStays(w: World, a: Action, c: nat)
    requires Reachable(w) && Shaped(w) && Enabled(w, a) && Finishing(a) && c < |w.nodes| && Termed(w, c)
    ensures Sized(Step(w, a)) && c < |Step(w, a).nodes| && Termed(Step(w, a), c)
  {
    ReachableInv(w);
    StepKeeps(w, a);
    StepIsFinal(w, a, c);
    if !w.nodes[c].terminating {
      SomeTerm(w.mail[c]);
      var j :| 0 <= j < |w.mail[c]| && w.mail[c][j].Term?;
      FinishingMail(w, a, c);
      if a == Deliver(c) && j == 0 {
        TermIsPassedOn(w, c);
      } else {
        var k := if a == Deliver(c) then j - 1 else j;
        assert Step(w, a).mail[c][k] == Rest(w, a, c)[k] == w.mail[c][j];
        TallyPositive(Step(w, a).mail[c], k, AnyTerm);
      }
    }
  }

  lemma AskedStays(w: World, a: Action, p: nat, c: nat)
    requires Reachable(w) && Shaped(w) && Enabled(w, a) && Finishing(a)
    requires p < |w.nodes| && c < |w.nodes| && Asked(w, p, c)
    ensures Sized(Step(w, a)) && |Step(w, a).nodes| == |w.nodes| && Asked(Step(w, a), p, c)
  {
    ReachableInv(w);
    StepKeeps(w, a);
    if Termed(w, c) {
      TermedStays(w, a, c);
    } else {
      var j :| 0 <= j < |w.mail[p]| && w.mail[p][j] == TermReq(c);
      if a == Deliver(p) && j == 0 {
        RequestLostExactly(w, p, c);
      } else {
        FinishingMail(w, a, p);
        var v, k := Step(w, a), if a == Deliver(p) then j - 1 else j;
        assert v.mail[p][k] == Rest(w, a, p)[k] == TermReq(c);
        forall i | 0 <= i < |v.mail[p]|
          ensures v.mail[p][i] != Own(c)
        {
          if i < |Rest(w, a, p)| {
            assert v.mail[p][i] == Rest(w, a, p)[i];
          }
        }
      }
    }
  }

  lemma {:induction false} AskedToTheEnd(w: World, actions: seq<Action>, p: nat, c: nat)
    requires Reachable(w) && Shaped(w) && p < |w.nodes| && c < |w.nodes| && Asked(w, p, c)
    requires Run(w, actions).Some? && forall i | 0 <= i < |actions| :: Finishing(actions[i])
    ensures var v := Run(w, actions).value;
      Sized(v) && |v.nodes| == |w.nodes| && Asked(v, p, c)
    decreases |actions|
  {
    if actions != [] {
      AskedStays(w, actions[0], p, c);
      RunOne(w, actions[0]);
      ReachableOn(w, [actions[0]]);
      ReachableInv(Step(w, actions[0]));
      AskedToTheEnd(Step(w, actions[0]), actions[1..], p, c);
    }
  }

  /** An owned object whose owner has been told of it and that calls terminate is destroyed in the end, with
      everything below it, by nothing but the deliveries and releases that are due. */
  lemma OwnedIsDestroyed(w: World, c: nat) returns (actions: seq<Action>, v: World)
    requires Reachable(w) && Shaped(w) && Enabled(w, Terminate(c)) && w.nodes[c].owner.Some?
    requires w.nodes[c].owner.value < |w.mail| && Own(c) !in w.mail[w.nodes[c].owner.value]
    ensures Run(w, [Terminate(c)] + actions) == Some(v) && forall i | 0 <= i < |actions| :: Finishing(actions[i])
    ensures |v.nodes| == |w.nodes| && forall d: nat | Below(w, d, c) :: v.nodes[d].destroyed
  {
    var p, u := w.nodes[c].owner.value, Step(w, Terminate(c));
    RunOne(w, Terminate(c));
    ReachableOn(w, [Terminate(c)]);
    ReachableInv(u);
    if !w.nodes[c].terminating {
      OwnedAsks(w, c);
    }
    assert Asked(u, p, c);
    actions, v := TerminationCompletes(u);
    RunsCompose(w, [Terminate(c)], actions);
    AskedToTheEnd(u, actions, p, c);
    ReachableOn(u, actions);
    NoDeadlock(v, c);
    forall d: nat | Below(w, d, c)
      ensures v.nodes[d].destroyed
    {
      ReachableInv(w);
      BelowStays(w, [Terminate(c)] + actions, d, c);
      SubtreeGoesFirst(v, c, d);
    }
  }
}
