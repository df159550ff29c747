/**
 * Reference counting does not show: seen by the owners of the message structures, every run of Messages is a run in
 * which each structure simply has a value, and copying copies it.
 */
module MessageContents {
  import opened Messages

  /** What the owner of a structure sees of it. */
  datatype Value = Value(body: Body<ContentId>, more: bool)

  type Values = map<Handle, Value>

  function ValueOf(m: Message<ContentId>): Value {
    Value(m.body, m.more)
  }

  function View(w: World): Values {
    map h | h in w.handles :: ValueOf(w.handles[h])
  }

  /** An operation on values: no counters, no sharing, no reservations. */
  ghost predicate Ideal(was: Values, op: Op, now: Values) {
    match op
    case OpInit(h, m) => now == was[h := Value(m.body, m.more)]
    case OpInitCounted(h, c, zeroCopy) => now == was[h := Value(if zeroCopy then Zclmsg(c) else Lmsg(c), false)]
    case OpFlags(h, more) => h in was && now == was[h := Value(was[h].body, more)]
    case OpClose(h) => h in was && now == was[h := Value(Closed, was[h].more)]
    case OpMove(dst, src) =>
      && dst in was && src in was
      && now == if was[dst].body.Closed? || was[src].body.Closed? then was
                else was[dst := was[src]][src := Value(Vsm, false)]
    case OpCopy(dst, src) =>
      && dst in was && src in was
      && now == if was[dst].body.Closed? || was[src].body.Closed? then was else was[dst := was[src]]
    case OpAddRefs(_, _) => now == was
    case OpRmRefs(_, _) => now == was
    case OpPodCopy(h, dst) => h in was && now == was[dst := was[h]]
    case OpDistribute(h, dsts, _) =>
      && h in was && now.Keys == was.Keys + (set d | d in dsts)
      && forall x | x in now ::
           now[x] == if x == h then Value(Vsm, false) else if x in dsts then was[h] else was[x]
  }

  lemma ViewPut(w: World, h: Handle, m: Message<ContentId>)
    ensures View(Put(w, h, m)) == View(w)[h := ValueOf(m)]
  {
  }

  lemma CloseView(w: World, h: Handle)
    requires Shaped(w) && h in w.handles
    ensures View(Close(w, h)) == View(w)[h := Value(Closed, w.handles[h].more)]
  {
    var u := Put(w, h, w.handles[h].(body := Closed));
    ViewPut(w, h, w.handles[h].(body := Closed));
    assert Close(w, h).handles == u.handles;
  }

  lemma AddRefsView(w: World, h: Handle, n: nat)
    requires Shaped(w) && h in w.handles
    ensures View(AddRefs(w, h, n)) == View(w)
  {
  }

  lemma PodCopyView(w: World, h: Handle, dst: Handle)
    requires Shaped(w) && h in w.handles
    ensures View(PodCopy(w, h, dst)) == View(w)[dst := View(w)[h]]
  {
  }

  lemma DetachView(w: World, h: Handle)
    requires Shaped(w) && h in w.handles
    ensures View(Detach(w, h)) == View(w)[h := Value(Vsm, false)]
  {
  }

  lemma MoveView(w: World, dst: Handle, src: Handle)
    requires Shaped(w) && dst in w.handles && src in w.handles && dst != src
    requires !w.handles[src].body.Closed? && !w.handles[dst].body.Closed?
    ensures View(Move(w, dst, src)) == View(w)[dst := View(w)[src]][src := Value(Vsm, false)]
  {
    var u := Close(w, dst);
    CloseView(w, dst);
    PodCopyView(u, src, dst);
    DetachView(PodCopy(u, src, dst), src);
    PutTwice(View(w), dst, Value(Closed, w.handles[dst].more), View(w)[src]);
  }

  lemma PutTwice(v: Values, h: Handle, a: Value, b: Value)
    ensures v[h := a][h := b] == v[h := b]
  {
  }

  lemma CopyView(w: World, dst: Handle, src: Handle)
    requires Shaped(w) && dst in w.handles && src in w.handles && dst != src
    requires !w.handles[src].body.Closed? && !w.handles[dst].body.Closed?
    ensures View(Copy(w, dst, src)) == View(w)[dst := View(w)[src]]
  {
    var u := Close(w, dst);
    CloseView(w, dst);
    AddRefsView(u, src, 1);
    PodCopyView(AddRefs(u, src, 1), src, dst);
  }

  /** References are only given back where some are reserved, so the message that gives them back keeps its own. */
  lemma RmRefsView(w: World, h: Handle, n: nat)
    requires Inv(w) && Allowed(w, OpRmRefs(h, n))
    ensures View(RmRefs(w, h, n)) == View(w)
  {
    var c := w.handles[h].body.content;
    assert Sound(w, c);
    assert h in Holders(w.handles, c);
    if n > 0 {
      assert w.handles[h].shared;
    }
  }

  lemma SpreadView(w: World, h: Handle, dsts: seq<Handle>, failed: nat)
    requires Shaped(w) && h in w.handles && Fresh(w, dsts)
    ensures Ideal(View(w), OpDistribute(h, dsts, failed), View(Settle(PodCopies(w, h, dsts), h, failed)))
  {
    SpreadHandles(w, h, dsts, failed);
  }

  lemma DistributeView(w: World, h: Handle, dsts: seq<Handle>, failed: nat)
    requires Inv(w) && Allowed(w, OpDistribute(h, dsts, failed))
    ensures Ideal(View(w), OpDistribute(h, dsts, failed), View(Distribute(w, h, dsts, failed)))
  {
    var n := |dsts| + failed;
    if n > 0 {
      if w.handles[h].body.Vsm? {
        PodCopiesHandles(w, h, dsts);
        DistributeVsm(w, h, dsts);
      } else {
        AddRefsView(w, h, n - 1);
        SpreadView(AddRefs(w, h, n - 1), h, dsts, failed);
      }
    }
  }

  lemma StepView(w: World, op: Op)
    requires Inv(w) && Allowed(w, op)
    ensures Ideal(View(w), op, View(Step(w, op)))
  {
    match op
    case OpInit(h, m) => ViewPut(w, h, m);
    case OpInitCounted(h, c, zeroCopy) => ViewPut(w, h, InitCounted(w, h, c, zeroCopy).handles[h]);
    case OpFlags(h, more) => ViewPut(w, h, w.handles[h].(more := more));
    case OpClose(h) => CloseView(w, h);
    case OpMove(dst, src) =>
      if !w.handles[src].body.Closed? && !w.handles[dst].body.Closed? {
        MoveView(w, dst, src);
      }
    case OpCopy(dst, src) =>
      if !w.handles[src].body.Closed? && !w.handles[dst].body.Closed? {
        CopyView(w, dst, src);
      }
    case OpAddRefs(h, n) => AddRefsView(w, h, n);
    case OpPodCopy(h, dst) => PodCopyView(w, h, dst);
    case OpRmRefs(h, n) => RmRefsView(w, h, n);
    case OpDistribute(h, dsts, failed) => DistributeView(w, h, dsts, failed);
  }

  /** Every step of every run does to the values what it does where nothing is counted or shared: a move takes the
      source's value and leaves it blank, a copy and each slot of a distribution get the source's value, reserving
      and giving back references changes no value, and no operation touches another structure. */
  lemma SharingDoesNotShow(trace: seq<World>, ops: seq<Op>, k: nat)
    requires Run(trace, ops) && k < |ops|
    ensures Ideal(View(trace[k]), ops[k], View(trace[k + 1]))
  {
    RunKeeps(trace, ops, k);
    assert Allowed(trace[k], ops[k]) && trace[k + 1] == Step(trace[k], ops[k]);
    StepView(trace[k], ops[k]);
  }
}
