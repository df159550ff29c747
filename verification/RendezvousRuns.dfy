/**
 * Who is joined to whom over runs of Rendezvous: a connection is only ever joined to a socket that was bound at the
 * very address it was asked for, and only the socket that asked is told so.
 */
module RendezvousRuns {
  import opened Rendezvous

  // ------------------------------------------------------------------ what the calls do

  /** Who is bound at an address: the first to register, until it unregisters. */
  lemma EndpointsExactly<A>(s: State<A>, op: Op<A>, a: A)
    requires Allowed(s, op)
    ensures var r := Step(s, op).0;
      if op.RegisterEndpoint? && op.a == a && a !in s.endpoints then
        a in r.endpoints && r.endpoints[a] == op.b && a in r.binding && Step(s, op).1
      else if a in s.endpoints
        && (op == UnregisterEndpoint(a, s.endpoints[a]) || op == UnregisterEndpoints(s.endpoints[a])) then
        a !in r.endpoints
      else
        (a in r.endpoints <==> a in s.endpoints) && (a in r.endpoints ==> r.endpoints[a] == s.endpoints[a])
  {
  }

  /** register, unregister and find report failure exactly if nothing has been bound, unbound or found. */
  lemma ResultsExactly<A>(s: State<A>, op: Op<A>)
    requires Allowed(s, op)
    ensures op.RegisterEndpoint? || op.UnregisterEndpoint? ==>
      (Step(s, op).1 <==> Step(s, op).0.endpoints.Keys != s.endpoints.Keys)
    ensures op.FindEndpoint? ==> (Step(s, op).1 <==> Step(s, op).0.log != s.log)
  {
    if op.RegisterEndpoint? && op.a !in s.endpoints {
      assert op.a in Step(s, op).0.endpoints.Keys;
    }
    if op.UnregisterEndpoint? && op.a in s.endpoints {
      assert op.a in s.endpoints.Keys;
    }
  }

  /** A lookup finds the socket that is bound, which is asked to wait for the bind command; or it misses. */
  lemma LookupExactly<A>(s: State<A>, c: Connection, a: A, x: Socket)
    requires Allowed(s, FindEndpoint(c, a, x))
    ensures var r := Step(s, FindEndpoint(c, a, x)).0;
      && c in r.started && r.pending == s.pending
      && if a in s.endpoints then
           c in r.found && r.found[c] == s.endpoints[a] && r.log == s.log + [Inc(s.endpoints[a])]
         else c in r.missed && r.missed[c] == (a, x) && r.log == s.log
  {
  }

  /** A connection that has missed is joined if somebody has bound meanwhile, and otherwise kept for its address. */
  lemma PendingExactly<A>(s: State<A>, c: Connection)
    requires Allowed(s, PendConnection(c))
    ensures var (a, x) := s.missed[c];
      var r := Step(s, PendConnection(c)).0;
      && c !in r.missed
      && if a in s.endpoints then r.pending == s.pending && Bound(s.endpoints[a], c) in r.log
         else Pending(a, c, x) in r.pending && r.log == s.log + [Inc(x)]
  {
    var (a, x) := s.missed[c];
    var r := Step(s, PendConnection(c)).0;
    if a in s.endpoints {
      assert r.log[|s.log| + 1] == Bound(s.endpoints[a], c);
    } else {
      assert r.pending[|s.pending|] == Pending(a, c, x);
    }
  }

  lemma {:induction false} JoinsContain<A>(b: Socket, ps: seq<Pending<A>>, p: Pending<A>)
    requires p in ps
    ensures Bound(b, p.c) in Joins(b, ps) && Connected(p.x, p.c) in Joins(b, ps)
  {
    var q := ps[|ps| - 1];
    if p == q {
      var n := |Joins(b, ps[..|ps| - 1])|;
      assert Joins(b, ps)[n + 1] == Bound(b, p.c) && Joins(b, ps)[n + 2] == Connected(p.x, p.c);
    } else {
      JoinsContain(b, ps[..|ps| - 1], p);
    }
  }

  lemma {:induction false} AtIs<A>(pending: seq<Pending<A>>, a: A, p: Pending<A>)
    ensures p in At(pending, a) <==> p in pending && p.addr == a
    ensures p in Elsewhere(pending, a) <==> p in pending && p.addr != a
  {
    if pending != [] {
      var front, last := pending[..|pending| - 1], pending[|pending| - 1];
      AtIs(front, a, p);
      assert pending == front + [last];
    }
  }

  /** connect_pending joins every connection that is pending at the address, tells both sides, and keeps the others. */
  lemma ConnectsExactly<A>(s: State<A>, a: A, p: Pending<A>)
    requires Allowed(s, ConnectPending(a)) && p in s.pending
    ensures var r := Step(s, ConnectPending(a)).0;
      if p.addr == a then
        p !in r.pending && Bound(s.endpoints[a], p.c) in r.log && Connected(p.x, p.c) in r.log
      else p in r.pending
  {
    AtIs(s.pending, a, p);
    if p.addr == a {
      JoinsContain(s.endpoints[a], At(s.pending, a), p);
    }
  }

  // ------------------------------------------------------------------ whole runs

  /** By step k socket x has asked for connection c to address a. */
  ghost predicate Asked<A>(ops: seq<Op<A>>, k: nat, c: Connection, a: A, x: Socket) {
    exists i {:trigger ops[i]} :: 0 <= i < k && i < |ops| && ops[i] == FindEndpoint(c, a, x)
  }

  /** b has been bound at a in one of the first k + 1 states. */
  ghost predicate WasBound<A>(trace: seq<State<A>>, k: nat, a: A, b: Socket) {
    exists j {:trigger trace[j]} :: 0 <= j <= k && j < |trace| && a in trace[j].endpoints && trace[j].endpoints[a] == b
  }

  /** b is right for c: bound at the address that c was asked for. */
  ghost predicate Right<A(!new)>(trace: seq<State<A>>, ops: seq<Op<A>>, k: nat, c: Connection, b: Socket) {
    exists a: A, x: Socket :: Asked(ops, k, c, a, x) && WasBound(trace, k, a, b)
  }

  ghost predicate Asker<A(!new)>(ops: seq<Op<A>>, k: nat, c: Connection, x: Socket) {
    exists a: A :: Asked(ops, k, c, a, x)
  }

  ghost predicate RightEvent<A(!new)>(trace: seq<State<A>>, ops: seq<Op<A>>, k: nat, e: Event) {
    match e
    case Inc(_) => true
    case Bound(b, c) => Right(trace, ops, k, c, b)
    case Connected(x, c) => Asker(ops, k, c, x)
  }

  /** Everything that is kept in state k is kept for what was asked. */
  ghost predicate Traced<A(!new)>(trace: seq<State<A>>, ops: seq<Op<A>>, k: nat)
    requires k < |trace|
  {
    var s := trace[k];
    && (forall c | c in s.missed :: Asked(ops, k, c, s.missed[c].0, s.missed[c].1))
    && (forall p | p in s.pending :: Asked(ops, k, p.c, p.addr, p.x))
    && (forall c | c in s.found :: Right(trace, ops, k, c, s.found[c]))
    && (forall e | e in s.log :: RightEvent(trace, ops, k, e))
  }

  /** What is joined when a binder calls connect_pending: pending connections, to him. */
  lemma {:induction false} JoinsAre<A>(b: Socket, ps: seq<Pending<A>>, e: Event)
    requires e in Joins(b, ps)
    ensures e == Inc(b) || exists p :: p in ps && (e == Bound(b, p.c) || e == Connected(p.x, p.c))
  {
    if ps != [] {
      var front, p := ps[..|ps| - 1], ps[|ps| - 1];
      assert p in ps;
      if e in Joins(b, front) {
        JoinsAre(b, front, e);
      } else {
        assert e in [Inc(b), Bound(b, p.c), Connected(p.x, p.c)];
      }
    }
  }

  lemma AskedGoesOn<A>(ops: seq<Op<A>>, j: nat, k: nat, c: Connection, a: A, x: Socket)
    requires Asked(ops, j, c, a, x) && j <= k
    ensures Asked(ops, k, c, a, x)
  {
  }

  lemma RightGoesOn<A(!new)>(trace: seq<State<A>>, ops: seq<Op<A>>, j: nat, k: nat, c: Connection, b: Socket)
    requires Right(trace, ops, j, c, b) && j <= k
    ensures Right(trace, ops, k, c, b)
  {
    var a: A, x: Socket :| Asked(ops, j, c, a, x) && WasBound(trace, j, a, b);
    AskedGoesOn(ops, j, k, c, a, x);
    assert WasBound(trace, k, a, b);
  }

  lemma EventGoesOn<A(!new)>(trace: seq<State<A>>, ops: seq<Op<A>>, j: nat, k: nat, e: Event)
    requires RightEvent(trace, ops, j, e) && j <= k
    ensures RightEvent(trace, ops, k, e)
  {
    match e
    case Inc(_) =>
    case Bound(b, c) => RightGoesOn(trace, ops, j, k, c, b);
    case Connected(x, c) =>
      var a: A :| Asked(ops, j, c, a, x);
      AskedGoesOn(ops, j, k, c, a, x);
  }

  lemma Found<A(!new)>(trace: seq<State<A>>, ops: seq<Op<A>>, k: nat, c: Connection, a: A, x: Socket, b: Socket)
    requires k < |trace| && Asked(ops, k, c, a, x) && a in trace[k].endpoints && trace[k].endpoints[a] == b
    ensures Right(trace, ops, k, c, b)
  {
    assert WasBound(trace, k, a, b);
  }

  /** The new events of step k are right. */
  lemma NewEvents<A(!new)>(trace: seq<State<A>>, ops: seq<Op<A>>, k: nat, r: State<A>, e: Event)
    requires k < |ops| && k < |trace| && Traced(trace, ops, k)
    requires Allowed(trace[k], ops[k]) && r == Step(trace[k], ops[k]).0
    requires e in r.log && e !in trace[k].log
    ensures RightEvent(trace, ops, k, e)
  {
    var s := trace[k];
    match ops[k]
    case ConnectPending(a) =>
      var b, ps := s.endpoints[a], At(s.pending, a);
      JoinsAre(b, ps, e);
      if !e.Inc? {
        var p :| p in ps && (e == Bound(b, p.c) || e == Connected(p.x, p.c));
        AtIs(s.pending, a, p);
        Found(trace, ops, k, p.c, a, p.x, b);
      }
    case PendConnection(c) =>
      var (a, x) := s.missed[c];
      if a in s.endpoints && !e.Inc? {
        Found(trace, ops, k, c, a, x, s.endpoints[a]);
      }
    case _ =>
  }

  lemma NewMissed<A(!new)>(trace: seq<State<A>>, ops: seq<Op<A>>, k: nat, r: State<A>, c: Connection)
    requires k < |ops| && k < |trace| && Traced(trace, ops, k)
    requires Allowed(trace[k], ops[k]) && r == Step(trace[k], ops[k]).0 && c in r.missed
    ensures Asked(ops, k + 1, c, r.missed[c].0, r.missed[c].1)
  {
    var s := trace[k];
    if c in s.missed && r.missed[c] == s.missed[c] {
      AskedGoesOn(ops, k, k + 1, c, s.missed[c].0, s.missed[c].1);
    } else {
      assert ops[k] == FindEndpoint(c, r.missed[c].0, r.missed[c].1);
    }
  }

  lemma NewPending<A(!new)>(trace: seq<State<A>>, ops: seq<Op<A>>, k: nat, r: State<A>, p: Pending<A>)
    requires k < |ops| && k < |trace| && Traced(trace, ops, k)
    requires Allowed(trace[k], ops[k]) && r == Step(trace[k], ops[k]).0 && p in r.pending
    ensures Asked(ops, k + 1, p.c, p.addr, p.x)
  {
    var s := trace[k];
    if ops[k].ConnectPending? {
      AtIs(s.pending, ops[k].a, p);
    }
    if p !in s.pending {
      assert ops[k].PendConnection? && s.missed[p.c] == (p.addr, p.x);
    }
    AskedGoesOn(ops, k, k + 1, p.c, p.addr, p.x);
  }

  lemma NewFound<A(!new)>(trace: seq<State<A>>, ops: seq<Op<A>>, k: nat, r: State<A>, c: Connection)
    requires k < |ops| && k < |trace| && Traced(trace, ops, k)
    requires Allowed(trace[k], ops[k]) && r == Step(trace[k], ops[k]).0 && c in r.found
    ensures Right(trace, ops, k + 1, c, r.found[c])
  {
    var s := trace[k];
    if c in s.found && r.found[c] == s.found[c] {
      RightGoesOn(trace, ops, k, k + 1, c, s.found[c]);
    } else {
      var a, x := ops[k].a, ops[k].x;
      assert ops[k] == FindEndpoint(c, a, x);
      assert Asked(ops, k + 1, c, a, x) && WasBound(trace, k + 1, a, s.endpoints[a]);
    }
  }

  lemma TracedStep<A(!new)>(trace: seq<State<A>>, ops: seq<Op<A>>, k: nat)
    requires k < |ops| && k + 1 < |trace| && Traced(trace, ops, k)
    requires Allowed(trace[k], ops[k]) && trace[k + 1] == Step(trace[k], ops[k]).0
    ensures Traced(trace, ops, k + 1)
  {
    var r := trace[k + 1];
    forall c | c in r.missed
      ensures Asked(ops, k + 1, c, r.missed[c].0, r.missed[c].1)
    {
      NewMissed(trace, ops, k, r, c);
    }
    forall p | p in r.pending
      ensures Asked(ops, k + 1, p.c, p.addr, p.x)
    {
      NewPending(trace, ops, k, r, p);
    }
    forall c | c in r.found
      ensures Right(trace, ops, k + 1, c, r.found[c])
    {
      NewFound(trace, ops, k, r, c);
    }
    forall e | e in r.log
      ensures RightEvent(trace, ops, k + 1, e)
    {
      if e !in trace[k].log {
        NewEvents(trace, ops, k, r, e);
      }
      EventGoesOn(trace, ops, k, k + 1, e);
    }
  }

  lemma {:induction false} RunTraced<A(!new)>(trace: seq<State<A>>, ops: seq<Op<A>>, k: nat)
    requires Run(trace, ops) && k < |trace|
    ensures Traced(trace, ops, k)
    decreases k
  {
    if k > 0 {
      RunTraced(trace, ops, k - 1);
      assert Allowed(trace[k - 1], ops[k - 1]);
      TracedStep(trace, ops, k - 1);
    }
  }

  /** In every interleaving: a bind command for connection c goes only to a socket that has been bound at the very
      address at which some socket looked for c. */
  lemma JoinedWhereAsked<A(!new)>(trace: seq<State<A>>, ops: seq<Op<A>>, k: nat, b: Socket, c: Connection)
    requires Run(trace, ops) && k < |trace| && Bound(b, c) in trace[k].log
    ensures exists i, j, a, x {:trigger ops[i], trace[j].endpoints[a], FindEndpoint(c, a, x)} ::
      && 0 <= i < k && ops[i] == FindEndpoint(c, a, x)
      && 0 <= j <= k && a in trace[j].endpoints && trace[j].endpoints[a] == b
  {
    RunTraced(trace, ops, k);
    assert RightEvent(trace, ops, k, Bound(b, c));
    var a: A, x: Socket :| Asked(ops, k, c, a, x) && WasBound(trace, k, a, b);
    var i :| 0 <= i < k && i < |ops| && ops[i] == FindEndpoint(c, a, x);
    var j :| 0 <= j <= k && j < |trace| && a in trace[j].endpoints && trace[j].endpoints[a] == b;
    assert ops[i] == FindEndpoint(c, a, x);
  }

  /** And only the socket that looked for c is told that it has been connected. */
  lemma ToldWhoAsked<A(!new)>(trace: seq<State<A>>, ops: seq<Op<A>>, k: nat, x: Socket, c: Connection)
    requires Run(trace, ops) && k < |trace| && Connected(x, c) in trace[k].log
    ensures exists i, a {:trigger ops[i], FindEndpoint(c, a, x)} :: 0 <= i < k && ops[i] == FindEndpoint(c, a, x)
  {
    RunTraced(trace, ops, k);
    assert RightEvent(trace, ops, k, Connected(x, c));
    var a: A :| Asked(ops, k, c, a, x);
    var i :| 0 <= i < k && i < |ops| && ops[i] == FindEndpoint(c, a, x);
    assert ops[i] == FindEndpoint(c, a, x);
  }
}
