/**
 * Connecting inproc sockets (ctx.cpp): a connecting socket looks the address up, and if nobody is bound
 * there its connection is kept pending until somebody binds.  Each function is one critical section of
 * endpoints_sync; a thread can be interrupted between two of them.
 *
 * `log` is the sequence of calls made to sockets: an Inc announces one command, and a Bound or a
 * Connected command uses one announcement up.
 */
module Rendezvous {
  type Socket = nat
  type Connection = nat

  datatype Event =
    | Inc(s: Socket)                      // inc_seqnum
    | Bound(s: Socket, c: Connection)     // the bind command with the pipe of c
    | Connected(s: Socket, c: Connection) // the inproc_connected command

  /** pending_connection_t: the connecting socket x and its connection c. */
  datatype Pending<A> = Pending(addr: A, c: Connection, x: Socket)

  /** `missed` are connections whose lookup found nobody and which are about to be kept pending, `found`
      those whose bind command to the socket is about to be sent, `binding` the bound addresses whose
      pending connections are about to be connected. */
  datatype State<A> = State(
    endpoints: map<A, Socket>,
    pending: seq<Pending<A>>,
    log: seq<Event>,
    missed: map<Connection, (A, Socket)>,
    found: map<Connection, Socket>,
    binding: set<A>,
    started: set<Connection>)

  datatype Op<A> =
    | RegisterEndpoint(a: A, b: Socket)
    | ConnectPending(a: A)
    | UnregisterEndpoint(a: A, b: Socket)
    | UnregisterEndpoints(b: Socket)
    | FindEndpoint(c: Connection, a: A, x: Socket)
    | SendBind(c: Connection)
    | PendConnection(c: Connection)

  /** The pending connections at an address, and the others. */
  function At<A(==)>(pending: seq<Pending<A>>, a: A): seq<Pending<A>> {
    if pending == [] then []
    else At(pending[..|pending| - 1], a) + if pending[|pending| - 1].addr == a then [pending[|pending| - 1]] else []
  }

  function Elsewhere<A(==)>(pending: seq<Pending<A>>, a: A): seq<Pending<A>> {
    if pending == [] then []
    else Elsewhere(pending[..|pending| - 1], a) + if pending[|pending| - 1].addr == a then []
      else [pending[|pending| - 1]]
  }

  /** connect_inproc_sockets from the bind side, for one connection after the other. */
  function Joins<A>(b: Socket, ps: seq<Pending<A>>): seq<Event> {
    if ps == [] then []
    else
      var p := ps[|ps| - 1];
      Joins(b, ps[..|ps| - 1]) + [Inc(b), Bound(b, p.c), Connected(p.x, p.c)]
  }

  predicate Allowed<A(==)>(s: State<A>, op: Op<A>) {
    match op
    case RegisterEndpoint(_, _) => true
    case ConnectPending(a) => a in s.binding && a in s.endpoints
    case UnregisterEndpoint(a, b) => a !in s.binding || a !in s.endpoints || s.endpoints[a] != b
    case UnregisterEndpoints(b) => forall a | a in s.binding :: a in s.endpoints && s.endpoints[a] != b
    case FindEndpoint(c, _, _) => c !in s.started
    case SendBind(c) => c in s.found
    case PendConnection(c) => c in s.missed
  }

  /** The new state and whether the call succeeds (register and unregister can fail). */
  function Step<A(==)>(s: State<A>, op: Op<A>): (State<A>, bool)
    requires Allowed(s, op)
  {
    match op
    case RegisterEndpoint(a, b) =>
      if a in s.endpoints then (s, false)
      else (s.(endpoints := s.endpoints[a := b], binding := s.binding + {a}), true)
    case ConnectPending(a) =>
      (s.(log := s.log + Joins(s.endpoints[a], At(s.pending, a)), pending := Elsewhere(s.pending, a),
          binding := s.binding - {a}), true)
    case UnregisterEndpoint(a, b) =>
      if a in s.endpoints && s.endpoints[a] == b then (s.(endpoints := s.endpoints - {a}), true) else (s, false)
    case UnregisterEndpoints(b) =>
      (s.(endpoints := map a | a in s.endpoints && s.endpoints[a] != b :: s.endpoints[a]), true)
    case FindEndpoint(c, a, x) =>
      var t := s.(started := s.started + {c});
      if a in s.endpoints then
        (t.(log := s.log + [Inc(s.endpoints[a])], found := s.found[c := s.endpoints[a]]), true)
      else (t.(missed := s.missed[c := (a, x)]), false)
    case SendBind(c) =>
      (s.(log := s.log + [Bound(s.found[c], c)], found := s.found - {c}), true)
    case PendConnection(c) =>
      var (a, x) := s.missed[c];
      var t := s.(missed := s.missed - {c});
      if a in s.endpoints then
        (t.(log := s.log + [Inc(s.endpoints[a]), Bound(s.endpoints[a], c)]), true)
      else (t.(log := s.log + [Inc(x)], pending := s.pending + [Pending(a, c, x)]), true)
  }

  // ------------------------------------------------------------------ counting

  function Incs(log: seq<Event>, s: Socket): nat {
    if log == [] then 0 else Incs(log[..|log| - 1], s) + if log[|log| - 1] == Inc(s) then 1 else 0
  }

  /** Commands to s that use up an announcement. */
  function Commands(log: seq<Event>, s: Socket): nat {
    if log == [] then 0
    else Commands(log[..|log| - 1], s) + if !log[|log| - 1].Inc? && log[|log| - 1].s == s then 1 else 0
  }

  /** How often c has been joined to a bound socket. */
  function Joined(log: seq<Event>, c: Connection): nat {
    if log == [] then 0
    else Joined(log[..|log| - 1], c) + if log[|log| - 1].Bound? && log[|log| - 1].c == c then 1 else 0
  }

  function PendingOf<A>(pending: seq<Pending<A>>, x: Socket): nat {
    if pending == [] then 0
    else PendingOf(pending[..|pending| - 1], x) + if pending[|pending| - 1].x == x then 1 else 0
  }

  function Copies<A>(pending: seq<Pending<A>>, c: Connection): nat {
    if pending == [] then 0
    else Copies(pending[..|pending| - 1], c) + if pending[|pending| - 1].c == c then 1 else 0
  }

  function FoundFor(found: map<Connection, Socket>, b: Socket): set<Connection> {
    set c | c in found && found[c] == b
  }

  /** Where a connection is: each one that has been started is in exactly one place. */
  function Places<A>(s: State<A>, c: Connection): nat {
    Joined(s.log, c) + Copies(s.pending, c)
    + (if c in s.missed then 1 else 0) + if c in s.found then 1 else 0
  }

  predicate Placed<A>(s: State<A>, c: Connection) {
    Places(s, c) == if c in s.started then 1 else 0
  }

  /** Every announcement has been used up or belongs to a connection under way. */
  predicate Balanced<A>(s: State<A>, x: Socket) {
    Incs(s.log, x) == Commands(s.log, x) + PendingOf(s.pending, x) + |FoundFor(s.found, x)|
  }

  /** Nothing is pending at a bound address, unless its binder is just about to connect it. */
  predicate NoneForgotten<A(==)>(s: State<A>) {
    && (forall i | 0 <= i < |s.pending| :: s.pending[i].addr in s.endpoints ==> s.pending[i].addr in s.binding)
    && s.binding <= s.endpoints.Keys
  }

  ghost predicate Inv<A>(s: State<A>) {
    && NoneForgotten(s)
    && (forall c :: Placed(s, c))
    && (forall x :: Balanced(s, x))
  }

  lemma {:induction false} CountAppend(a: seq<Event>, b: seq<Event>, s: Socket, c: Connection)
    ensures Incs(a + b, s) == Incs(a, s) + Incs(b, s)
    ensures Commands(a + b, s) == Commands(a, s) + Commands(b, s)
    ensures Joined(a + b, c) == Joined(a, c) + Joined(b, c)
  {
    if b == [] {
      assert a + b == a;
    } else {
      CountAppend(a, b[..|b| - 1], s, c);
      assert (a + b)[..|a + b| - 1] == a + b[..|b| - 1];
    }
  }

  lemma {:induction false} PendingAppend<A>(a: seq<Pending<A>>, b: seq<Pending<A>>, x: Socket, c: Connection)
    ensures PendingOf(a + b, x) == PendingOf(a, x) + PendingOf(b, x)
    ensures Copies(a + b, c) == Copies(a, c) + Copies(b, c)
  {
    if b == [] {
      assert a + b == a;
    } else {
      PendingAppend(a, b[..|b| - 1], x, c);
      assert (a + b)[..|a + b| - 1] == a + b[..|b| - 1];
    }
  }

  lemma {:induction false} Sorted<A>(pending: seq<Pending<A>>, a: A, x: Socket, c: Connection)
    ensures PendingOf(pending, x) == PendingOf(At(pending, a), x) + PendingOf(Elsewhere(pending, a), x)
    ensures Copies(pending, c) == Copies(At(pending, a), c) + Copies(Elsewhere(pending, a), c)
  {
    if pending != [] {
      var front, last := pending[..|pending| - 1], pending[|pending| - 1];
      Sorted(front, a, x, c);
      SortedStep(pending, front, last, a);
      PendingAppend(At(front, a), [last], x, c);
      PendingAppend(Elsewhere(front, a), [last], x, c);
      PendingAppend(front, [last], x, c);
    }
  }

  lemma SortedStep<A>(pending: seq<Pending<A>>, front: seq<Pending<A>>, last: Pending<A>, a: A)
    requires pending != [] && front == pending[..|pending| - 1] && last == pending[|pending| - 1]
    ensures pending == front + [last]
    ensures At(pending, a) == if last.addr == a then At(front, a) + [last] else At(front, a)
    ensures Elsewhere(pending, a) == if last.addr == a then Elsewhere(front, a) else Elsewhere(front, a) + [last]
  {
  }

  lemma {:induction false} ElsewhereIs<A>(pending: seq<Pending<A>>, a: A)
    ensures forall i | 0 <= i < |Elsewhere(pending, a)| ::
      Elsewhere(pending, a)[i] in pending && Elsewhere(pending, a)[i].addr != a
  {
    if pending != [] {
      ElsewhereIs(pending[..|pending| - 1], a);
    }
  }

  /** The calls made for the pending connections: one Inc and one bind command to the binder each, one
      inproc_connected to the connecting socket, one join. */
  lemma {:induction false} JoinsCount<A>(b: Socket, ps: seq<Pending<A>>, s: Socket, c: Connection)
    ensures Incs(Joins(b, ps), s) == if s == b then |ps| else 0
    ensures Commands(Joins(b, ps), s) == (if s == b then |ps| else 0) + PendingOf(ps, s)
    ensures Joined(Joins(b, ps), c) == Copies(ps, c)
  {
    if ps != [] {
      var p := ps[|ps| - 1];
      JoinsCount(b, ps[..|ps| - 1], s, c);
      CountAppend(Joins(b, ps[..|ps| - 1]), [Inc(b), Bound(b, p.c), Connected(p.x, p.c)], s, c);
      ThreeEvents(b, p.x, p.c, s, c);
    }
  }

  lemma CountOne(e: Event, s: Socket, c: Connection)
    ensures Incs([e], s) == if e == Inc(s) then 1 else 0
    ensures Commands([e], s) == if !e.Inc? && e.s == s then 1 else 0
    ensures Joined([e], c) == if e.Bound? && e.c == c then 1 else 0
  {
    assert [e][..0] == [];
  }

  lemma ThreeEvents(b: Socket, x: Socket, d: Connection, s: Socket, c: Connection)
    ensures Incs([Inc(b), Bound(b, d), Connected(x, d)], s) == if s == b then 1 else 0
    ensures Commands([Inc(b), Bound(b, d), Connected(x, d)], s) == (if s == b then 1 else 0) + (if s == x then 1 else 0)
    ensures Joined([Inc(b), Bound(b, d), Connected(x, d)], c) == if c == d then 1 else 0
  {
    TwoEvents(b, d, s, c);
    CountOne(Connected(x, d), s, c);
    CountAppend([Inc(b), Bound(b, d)], [Connected(x, d)], s, c);
    assert [Inc(b), Bound(b, d)] + [Connected(x, d)] == [Inc(b), Bound(b, d), Connected(x, d)];
  }

  lemma TwoEvents(b: Socket, d: Connection, s: Socket, c: Connection)
    ensures Incs([Inc(b), Bound(b, d)], s) == if s == b then 1 else 0
    ensures Commands([Inc(b), Bound(b, d)], s) == if s == b then 1 else 0
    ensures Joined([Inc(b), Bound(b, d)], c) == if c == d then 1 else 0
  {
    CountOne(Inc(b), s, c);
    CountOne(Bound(b, d), s, c);
    CountAppend([Inc(b)], [Bound(b, d)], s, c);
    assert [Inc(b)] + [Bound(b, d)] == [Inc(b), Bound(b, d)];
  }

  // ------------------------------------------------------------------ every step keeps the accounts

  lemma FoundPut(found: map<Connection, Socket>, c: Connection, b: Socket, x: Socket)
    requires c !in found
    ensures |FoundFor(found[c := b], x)| == |FoundFor(found, x)| + if x == b then 1 else 0
  {
    assert FoundFor(found[c := b], x) == FoundFor(found, x) + if x == b then {c} else {};
  }

  lemma FoundRemove(found: map<Connection, Socket>, c: Connection, x: Socket)
    requires c in found
    ensures |FoundFor(found - {c}, x)| == |FoundFor(found, x)| - if x == found[c] then 1 else 0
  {
    assert FoundFor(found - {c}, x) == FoundFor(found, x) - if x == found[c] then {c} else {};
  }

  lemma ConnectPendingCounts<A>(s: State<A>, a: A, x: Socket, c: Connection)
    requires Allowed(s, ConnectPending(a)) && Placed(s, c) && Balanced(s, x)
    ensures Placed(Step(s, ConnectPending(a)).0, c) && Balanced(Step(s, ConnectPending(a)).0, x)
  {
    var b := s.endpoints[a];
    Sorted(s.pending, a, x, c);
    JoinsCount(b, At(s.pending, a), x, c);
    CountAppend(s.log, Joins(b, At(s.pending, a)), x, c);
  }

  lemma FindEndpointCounts<A>(s: State<A>, d: Connection, a: A, y: Socket, x: Socket, c: Connection)
    requires Allowed(s, FindEndpoint(d, a, y)) && Placed(s, c) && Placed(s, d) && Balanced(s, x)
    ensures Placed(Step(s, FindEndpoint(d, a, y)).0, c) && Balanced(Step(s, FindEndpoint(d, a, y)).0, x)
  {
    if a in s.endpoints {
      CountOne(Inc(s.endpoints[a]), x, c);
      CountAppend(s.log, [Inc(s.endpoints[a])], x, c);
      FoundPut(s.found, d, s.endpoints[a], x);
    }
  }

  lemma SendBindCounts<A>(s: State<A>, d: Connection, x: Socket, c: Connection)
    requires Allowed(s, SendBind(d)) && Placed(s, c) && Balanced(s, x)
    ensures Placed(Step(s, SendBind(d)).0, c) && Balanced(Step(s, SendBind(d)).0, x)
  {
    CountOne(Bound(s.found[d], d), x, c);
    CountAppend(s.log, [Bound(s.found[d], d)], x, c);
    FoundRemove(s.found, d, x);
  }

  lemma PendConnectionCounts<A>(s: State<A>, d: Connection, x: Socket, c: Connection)
    requires Allowed(s, PendConnection(d)) && Placed(s, c) && Balanced(s, x)
    ensures Placed(Step(s, PendConnection(d)).0, c) && Balanced(Step(s, PendConnection(d)).0, x)
  {
    var (a, y) := s.missed[d];
    if a in s.endpoints {
      TwoEvents(s.endpoints[a], d, x, c);
      CountAppend(s.log, [Inc(s.endpoints[a]), Bound(s.endpoints[a], d)], x, c);
    } else {
      CountOne(Inc(y), x, c);
      CountAppend(s.log, [Inc(y)], x, c);
      var p := Pending(a, d, y);
      assert (s.pending + [p])[..|s.pending|] == s.pending;
    }
  }

  lemma StepCounts<A>(s: State<A>, op: Op<A>, x: Socket, c: Connection)
    requires Inv(s) && Allowed(s, op)
    ensures Placed(Step(s, op).0, c) && Balanced(Step(s, op).0, x)
  {
    assert Placed(s, c) && Balanced(s, x);
    match op
    case RegisterEndpoint(_, _) =>
    case ConnectPending(a) => ConnectPendingCounts(s, a, x, c);
    case UnregisterEndpoint(_, _) =>
    case UnregisterEndpoints(_) =>
    case FindEndpoint(d, a, y) =>
      assert Placed(s, d);
      FindEndpointCounts(s, d, a, y, x, c);
    case SendBind(d) => SendBindCounts(s, d, x, c);
    case PendConnection(d) => PendConnectionCounts(s, d, x, c);
  }

  lemma StepForgetsNone<A>(s: State<A>, op: Op<A>)
    requires NoneForgotten(s) && Allowed(s, op)
    ensures NoneForgotten(Step(s, op).0)
  {
    if op.ConnectPending? {
      ElsewhereIs(s.pending, op.a);
    }
  }

  lemma StepKeeps<A>(s: State<A>, op: Op<A>)
    requires Inv(s) && Allowed(s, op)
    ensures Inv(Step(s, op).0)
  {
    StepForgetsNone(s, op);
    forall c
      ensures Placed(Step(s, op).0, c)
    {
      StepCounts(s, op, 0, c);
    }
    forall x
      ensures Balanced(Step(s, op).0, x)
    {
      StepCounts(s, op, x, 0);
    }
  }

  function Start<A>(): State<A> {
    State(map[], [], [], map[], map[], {}, {})
  }

  ghost predicate Run<A>(trace: seq<State<A>>, ops: seq<Op<A>>) {
    && |trace| == |ops| + 1 && trace[0] == Start()
    && forall i {:trigger ops[i]} | 0 <= i < |ops| ::
         Allowed(trace[i], ops[i]) && trace[i + 1] == Step(trace[i], ops[i]).0
  }

  lemma {:induction false} RunKeeps<A>(trace: seq<State<A>>, ops: seq<Op<A>>, k: nat)
    requires Run(trace, ops) && k < |trace|
    ensures Inv(trace[k])
    decreases k
  {
    if k > 0 {
      RunKeeps(trace, ops, k - 1);
      assert Allowed(trace[k - 1], ops[k - 1]);
      StepKeeps(trace[k - 1], ops[k - 1]);
    } else {
      forall x
        ensures Balanced(Start<A>(), x)
      {
        assert FoundFor(map[], x) == {};
      }
    }
  }

  /** In every interleaving: a connection that has been started is at every moment in exactly one place, so it
      is joined at most once and never lost; and every inc_seqnum has been matched by one command or belongs
      to a connection under way. */
  lemma NothingLostOrDoubled<A>(trace: seq<State<A>>, ops: seq<Op<A>>, k: nat, c: Connection, x: Socket)
    requires Run(trace, ops) && k < |trace|
    ensures var s := trace[k];
      && Joined(s.log, c) + Copies(s.pending, c) + (if c in s.missed then 1 else 0) + (if c in s.found then 1 else 0)
         == (if c in s.started then 1 else 0)
      && Incs(s.log, x) == Commands(s.log, x) + PendingOf(s.pending, x) + |FoundFor(s.found, x)|
  {
    RunKeeps(trace, ops, k);
    assert Placed(trace[k], c) && Balanced(trace[k], x);
  }

  /** Once a binder has called connect_pending, nothing is pending at its address until it unbinds. */
  lemma NothingPendingWhereBound<A>(trace: seq<State<A>>, ops: seq<Op<A>>, k: nat, i: nat)
    requires Run(trace, ops) && k < |trace| && i < |trace[k].pending|
    ensures trace[k].pending[i].addr in trace[k].endpoints ==> trace[k].pending[i].addr in trace[k].binding
  {
    RunKeeps(trace, ops, k);
  }

  /** When nobody is in the middle of a call, every announced command has been sent, except one for each
      connection still pending, and those are pending where nobody is bound. */
  lemma QuietStateIsSettled<A>(trace: seq<State<A>>, ops: seq<Op<A>>, k: nat, x: Socket)
    requires Run(trace, ops) && k < |trace|
    requires trace[k].found == map[] && trace[k].missed == map[] && trace[k].binding == {}
    ensures Incs(trace[k].log, x) == Commands(trace[k].log, x) + PendingOf(trace[k].pending, x)
    ensures forall i | 0 <= i < |trace[k].pending| :: trace[k].pending[i].addr !in trace[k].endpoints
    ensures forall c | c in trace[k].started && Copies(trace[k].pending, c) == 0 :: Joined(trace[k].log, c) == 1
  {
    RunKeeps(trace, ops, k);
    var s := trace[k];
    assert Balanced(s, x);
    assert FoundFor(s.found, x) == {};
    forall c | c in s.started && Copies(s.pending, c) == 0
      ensures Joined(s.log, c) == 1
    {
      assert Placed(s, c);
    }
  }
}
