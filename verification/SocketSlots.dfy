/**
 * ctx_t: the slots of the open sockets, and the shutdown of the reaper thread.
 */
module SocketSlots {
  import opened Wrappers

  /** A socket is known by its number; `slot` is where its mailbox is registered. */
  datatype Open = Open(socket: nat, slot: nat)

  /** `ios` is the number of I/O threads and `maxSockets` the limit that start found; `stopped` are the sockets that
      have been sent a stop command, `reaperStops` counts those sent to the reaper, and `nextId` numbers the sockets. */
  datatype Slots = Slots(
    starting: bool,
    terminating: bool,
    ios: nat,
    maxSockets: nat,
    emptySlots: seq<nat>,
    sockets: seq<Open>,
    stopped: seq<nat>,
    reaperStops: nat,
    nextId: nat)

  datatype Op =
    | SetLimits(ios: nat, maxSockets: nat)   // zmq_ctx_set before the first socket
    | CreateSocket(works: bool)              // `works`: whether socket_base_t::create succeeds
    | DestroySocket(socket: nat)
    | Shutdown
    | Terminate                              // the first half of terminate, again after an interruption

  /** The slots after those of the terminating thread, the reaper and the I/O threads, last one first. */
  function Range(lo: nat, n: nat): (r: seq<nat>)
    ensures |r| == n
    ensures forall i | 0 <= i < n :: r[i] == lo + n - 1 - i
  {
    if n == 0 then [] else [lo + n - 1] + Range(lo, n - 1)
  }

  function Begin(s: Slots): Slots {
    if s.starting then s.(starting := false, emptySlots := Range(s.ios + 2, s.maxSockets)) else s
  }

  function Find(sockets: seq<Open>, socket: nat): (i: nat)
    ensures i <= |sockets|
    ensures i < |sockets| ==> sockets[i].socket == socket
    ensures forall k | 0 <= k < i :: sockets[k].socket != socket
  {
    if sockets == [] || sockets[0].socket == socket then 0 else 1 + Find(sockets[1..], socket)
  }

  predicate Allowed(s: Slots, op: Op) {
    match op
    case DestroySocket(socket) => Find(s.sockets, socket) < |s.sockets|
    case _ => true
  }

  /** The reaper is asked to stop when the last socket goes after termination has begun. */
  function StopReaper(s: Slots): Slots {
    if s.sockets == [] then s.(reaperStops := s.reaperStops + 1) else s
  }

  /** The array erases an item by moving the last one into its place. */
  function Erased<T>(s: seq<T>, i: nat): seq<T>
    requires i < |s|
  {
    s[i := s[|s| - 1]][..|s| - 1]
  }

  /** The last free slot goes to a new socket. */
  function Opened(t: Slots): Slots
    requires t.emptySlots != []
  {
    var n := |t.emptySlots| - 1;
    t.(emptySlots := t.emptySlots[..n], sockets := t.sockets + [Open(t.nextId, t.emptySlots[n])],
      nextId := t.nextId + 1)
  }

  function Numbers(sockets: seq<Open>): (r: seq<nat>)
    ensures |r| == |sockets| && forall i | 0 <= i < |r| :: r[i] == sockets[i].socket
  {
    seq(|sockets|, i requires 0 <= i < |sockets| => sockets[i].socket)
  }

  /** Every open socket is sent a stop command, and the reaper if there is none. */
  function BeginEnd(s: Slots): Slots {
    StopReaper(s.(terminating := true, stopped := s.stopped + Numbers(s.sockets)))
  }

  function Step(s: Slots, op: Op): Slots
    requires Allowed(s, op)
  {
    match op
    case SetLimits(ios, maxSockets) => if s.starting then s.(ios := ios, maxSockets := maxSockets) else s
    case CreateSocket(works) =>
      var t := Begin(s);
      if t.terminating || t.emptySlots == [] then t
      else if !works then t.(nextId := t.nextId + 1)
      else Opened(t)
    case DestroySocket(socket) =>
      var i := Find(s.sockets, socket);
      var t := s.(emptySlots := s.emptySlots + [s.sockets[i].slot], sockets := Erased(s.sockets, i));
      if t.terminating then StopReaper(t) else t
    case Shutdown =>
      if s.starting || s.terminating then s else BeginEnd(s)
    case Terminate =>
      if s.starting || s.terminating then s else BeginEnd(s)
  }

  /** How often a slot is in the list of free slots, and how many open sockets have it. */
  function Free(emptySlots: seq<nat>, slot: nat): nat {
    if emptySlots == [] then 0
    else Free(emptySlots[..|emptySlots| - 1], slot) + if emptySlots[|emptySlots| - 1] == slot then 1 else 0
  }

  function Used(sockets: seq<Open>, slot: nat): nat {
    if sockets == [] then 0
    else Used(sockets[..|sockets| - 1], slot) + if sockets[|sockets| - 1].slot == slot then 1 else 0
  }

  /** The slot is free once, or belongs to one socket, if it is a socket slot, and otherwise neither. */
  predicate Shared(s: Slots, slot: nat) {
    Free(s.emptySlots, slot) + Used(s.sockets, slot) == if s.ios + 2 <= slot < s.ios + 2 + s.maxSockets then 1 else 0
  }

  predicate ReaperInStep(s: Slots) {
    s.reaperStops == if s.terminating && s.sockets == [] then 1 else 0
  }

  predicate Numbered(s: Slots) {
    && (forall i | 0 <= i < |s.sockets| :: s.sockets[i].socket < s.nextId)
    && forall i, j | 0 <= i < j < |s.sockets| :: s.sockets[i].socket != s.sockets[j].socket
  }

  ghost predicate SlotsInv(s: Slots) {
    && ReaperInStep(s) && Numbered(s)
    && (if s.starting then s.sockets == [] && s.emptySlots == [] && !s.terminating
        else |s.sockets| + |s.emptySlots| == s.maxSockets && forall slot :: Shared(s, slot))
  }

  lemma FreeAppend(a: seq<nat>, x: nat, slot: nat)
    ensures Free(a + [x], slot) == Free(a, slot) + if x == slot then 1 else 0
  {
    assert (a + [x])[..|a|] == a;
  }

  lemma UsedAppend(a: seq<Open>, x: Open, slot: nat)
    ensures Used(a + [x], slot) == Used(a, slot) + if x.slot == slot then 1 else 0
  {
    assert (a + [x])[..|a|] == a;
  }

  lemma {:induction false} UsedReplace(s: seq<Open>, i: nat, x: Open, slot: nat)
    requires i < |s|
    ensures Used(s[i := x], slot) + (if s[i].slot == slot then 1 else 0) == Used(s, slot) + if x.slot == slot then 1
      else 0
  {
    var front := s[..|s| - 1];
    if i < |s| - 1 {
      UsedReplace(front, i, x, slot);
      assert s[i := x][..|s| - 1] == front[i := x];
    } else {
      assert s[i := x][..|s| - 1] == front;
    }
  }

  lemma UsedErase(s: seq<Open>, i: nat, slot: nat)
    requires i < |s|
    ensures Used(Erased(s, i), slot) + (if s[i].slot == slot then 1 else 0) == Used(s, slot)
  {
    var last := s[|s| - 1];
    UsedReplace(s, i, last, slot);
    assert s[i := last] == Erased(s, i) + [last];
    UsedAppend(Erased(s, i), last, slot);
  }

  lemma {:induction false} FreeRange(lo: nat, n: nat, slot: nat)
    ensures Free(Range(lo, n), slot) == if lo <= slot < lo + n then 1 else 0
    decreases n
  {
    if n > 0 {
      FreeRange(lo + 1, n - 1, slot);
      assert Range(lo, n) == Range(lo + 1, n - 1) + [lo];
      FreeAppend(Range(lo + 1, n - 1), lo, slot);
    }
  }

  lemma BeginKeeps(s: Slots)
    requires SlotsInv(s)
    ensures SlotsInv(Begin(s)) && !Begin(s).starting
  {
    if s.starting {
      forall slot
        ensures Shared(Begin(s), slot)
      {
        FreeRange(s.ios + 2, s.maxSockets, slot);
      }
    }
  }

  lemma OpenedKeeps(t: Slots)
    requires SlotsInv(t) && !t.starting && !t.terminating && t.emptySlots != []
    ensures SlotsInv(Opened(t))
  {
    var n := |t.emptySlots| - 1;
    forall slot
      ensures Shared(Opened(t), slot)
    {
      assert Shared(t, slot);
      assert t.emptySlots == t.emptySlots[..n] + [t.emptySlots[n]];
      FreeAppend(t.emptySlots[..n], t.emptySlots[n], slot);
      UsedAppend(t.sockets, Open(t.nextId, t.emptySlots[n]), slot);
    }
  }

  /** A socket that could not be created has used up a number and no slot. */
  lemma FailedKeeps(t: Slots)
    requires SlotsInv(t)
    ensures SlotsInv(t.(nextId := t.nextId + 1))
  {
    var r := t.(nextId := t.nextId + 1);
    if !t.starting {
      forall slot
        ensures Shared(r, slot)
      {
        assert Shared(t, slot);
      }
    }
  }

  lemma DestroyKeeps(s: Slots, socket: nat)
    requires SlotsInv(s) && Allowed(s, DestroySocket(socket))
    ensures SlotsInv(Step(s, DestroySocket(socket)))
  {
    var i := Find(s.sockets, socket);
    forall slot
      ensures Shared(Step(s, DestroySocket(socket)), slot)
    {
      assert Shared(s, slot);
      FreeAppend(s.emptySlots, s.sockets[i].slot, slot);
      UsedErase(s.sockets, i, slot);
    }
  }

  lemma SlotsStepKeeps(s: Slots, op: Op)
    requires SlotsInv(s) && Allowed(s, op)
    ensures SlotsInv(Step(s, op))
  {
    match op
    case SetLimits(_, _) =>
    case CreateSocket(works) =>
      BeginKeeps(s);
      if !Begin(s).terminating && Begin(s).emptySlots != [] {
        if works {
          OpenedKeeps(Begin(s));
        } else {
          FailedKeeps(Begin(s));
        }
      }
    case DestroySocket(socket) => DestroyKeeps(s, socket);
    case Shutdown => BeginTermination(s);
    case Terminate => BeginTermination(s);
  }

  lemma BeginTermination(s: Slots)
    requires SlotsInv(s)
    ensures SlotsInv(if s.starting || s.terminating then s else BeginEnd(s))
  {
    if !s.starting && !s.terminating {
      var r := BeginEnd(s);
      forall slot
        ensures Shared(r, slot)
      {
        assert Shared(s, slot);
      }
    }
  }

  ghost predicate Run(trace: seq<Slots>, ops: seq<Op>) {
    && |trace| == |ops| + 1
    && (exists ios, maxSockets :: trace[0] == Slots(true, false, ios, maxSockets, [], [], [], 0, 1))
    && forall i {:trigger ops[i]} | 0 <= i < |ops| ::
         Allowed(trace[i], ops[i]) && trace[i + 1] == Step(trace[i], ops[i])
  }

  lemma {:induction false} RunKeeps(trace: seq<Slots>, ops: seq<Op>, k: nat)
    requires Run(trace, ops) && k < |trace|
    ensures SlotsInv(trace[k])
    decreases k
  {
    if k > 0 {
      RunKeeps(trace, ops, k - 1);
      assert Allowed(trace[k - 1], ops[k - 1]);
      SlotsStepKeeps(trace[k - 1], ops[k - 1]);
    }
  }

  /** In every run, once started: each socket slot is either free once or belongs to one open socket, and no
      other slot does; so there are never more open sockets than the limit; and no two share a number. */
  lemma SlotsAreShared(trace: seq<Slots>, ops: seq<Op>, k: nat, slot: nat)
    requires Run(trace, ops) && k < |trace| && !trace[k].starting
    ensures Free(trace[k].emptySlots, slot) + Used(trace[k].sockets, slot)
         == if trace[k].ios + 2 <= slot < trace[k].ios + 2 + trace[k].maxSockets then 1 else 0
    ensures |trace[k].sockets| + |trace[k].emptySlots| == trace[k].maxSockets
    ensures forall i, j | 0 <= i < j < |trace[k].sockets| :: trace[k].sockets[i].socket != trace[k].sockets[j].socket
  {
    RunKeeps(trace, ops, k);
    assert Shared(trace[k], slot);
  }

  /** In every run the reaper is asked to stop at most once, and has been exactly when termination has begun
      and no socket is open; after that no socket is ever created. */
  lemma {:induction false} ReaperStopsOnce(trace: seq<Slots>, ops: seq<Op>, j: nat, k: nat)
    requires Run(trace, ops) && j <= k < |trace|
    ensures trace[k].reaperStops <= 1
    ensures trace[k].reaperStops == 1 <==> trace[k].terminating && trace[k].sockets == []
    ensures trace[j].reaperStops == 1 ==>
      trace[k].reaperStops == 1 && trace[k].sockets == [] && trace[k].nextId == trace[j].nextId
    decreases k
  {
    RunKeeps(trace, ops, k);
    RunKeeps(trace, ops, j);
    if j < k {
      ReaperStopsOnce(trace, ops, j, k - 1);
      assert Allowed(trace[k - 1], ops[k - 1]);
      RunKeeps(trace, ops, k - 1);
    }
  }

  // ------------------------------------------------------------------ what the calls do

  /** A socket is opened exactly if it can be created, the limit is not reached, and termination has not begun; it
      has a number of its own, and the others stay as they are. */
  lemma CreatesExactly(s: Slots, works: bool)
    requires SlotsInv(s)
    ensures var r := Step(s, CreateSocket(works));
      if works && !s.terminating && |s.sockets| < s.maxSockets then
        && |r.sockets| == |s.sockets| + 1 && r.sockets[..|s.sockets|] == s.sockets
        && r.sockets[|s.sockets|].socket == s.nextId < r.nextId
      else r.sockets == s.sockets
  {
    BeginKeeps(s);
  }

  /** Only the socket that is destroyed goes. */
  lemma DestroysExactly(s: Slots, socket: nat, x: Open)
    requires Numbered(s) && Allowed(s, DestroySocket(socket))
    ensures x in Step(s, DestroySocket(socket)).sockets <==> x in s.sockets && x.socket != socket
  {
    var i, e := Find(s.sockets, socket), Erased(s.sockets, Find(s.sockets, socket));
    assert forall k | 0 <= k < |e| :: e[k] == if k == i then s.sockets[|s.sockets| - 1] else s.sockets[k];
    if x in s.sockets && x.socket != socket {
      var k :| 0 <= k < |s.sockets| && s.sockets[k] == x;
      assert e[if k == |s.sockets| - 1 then i else k] == x;
    }
    if x in e {
      var k :| 0 <= k < |e| && e[k] == x;
      assert x == s.sockets[if k == i then |s.sockets| - 1 else k];
    }
  }

  /** A call that sets the limits comes to nothing once the first socket has been asked for. */
  predicate SetsLimits(s: Slots, op: Op) {
    op.SetLimits? && s.starting
  }

  /** In every run the limits are those that the last call before the first socket has set. */
  lemma {:induction false} LimitsOfLastCall(trace: seq<Slots>, ops: seq<Op>, j: nat, k: nat)
    requires Run(trace, ops) && j < k < |trace| && SetsLimits(trace[j], ops[j])
    requires forall i {:trigger ops[i]} | j < i < k :: !SetsLimits(trace[i], ops[i])
    ensures trace[k].ios == ops[j].ios && trace[k].maxSockets == ops[j].maxSockets
    decreases k
  {
    assert trace[k - 1 + 1] == Step(trace[k - 1], ops[k - 1]);
    if k - 1 > j {
      LimitsOfLastCall(trace, ops, j, k - 1);
    }
  }

  // ------------------------------------------------------------------ termination over runs

  predicate Ends(op: Op) {
    op.Shutdown? || op.Terminate?
  }

  /** The first call stops every open socket, and the reaper if there is none. */
  lemma EndBegins(s: Slots, op: Op)
    requires SlotsInv(s) && Ends(op) && !s.starting
    ensures var r := Step(s, op);
      && r.terminating && r.sockets == s.sockets && r.emptySlots == s.emptySlots && r.nextId == s.nextId
      && r.stopped == (if s.terminating then s.stopped else s.stopped + Numbers(s.sockets))
      && (s.sockets == [] ==> r.reaperStops == 1)
  {
  }

  /** After that nothing is opened and nobody else is stopped. */
  lemma EndGoesOn(s: Slots, op: Op, x: Open)
    requires SlotsInv(s) && s.terminating && Allowed(s, op)
    ensures var r := Step(s, op);
      && r.terminating && r.stopped == s.stopped && r.nextId == s.nextId
      && (x in r.sockets <==> x in s.sockets && op != DestroySocket(x.socket))
  {
    if op.DestroySocket? {
      DestroysExactly(s, op.socket, x);
    }
  }

  /** In every run, from the first Terminate or Shutdown after start on: the context is terminating; the open sockets
      are those that were open then and have not been destroyed since, so that none is ever added; and each of those
      that were open then, and no other, has been sent one stop command. */
  lemma {:induction false} TerminationLasts(trace: seq<Slots>, ops: seq<Op>, j: nat, k: nat, x: Open)
    requires Run(trace, ops) && j < k < |trace| && Ends(ops[j]) && !trace[j].starting
    ensures trace[k].terminating && trace[k].nextId == trace[j].nextId
    ensures x in trace[k].sockets <==>
      x in trace[j].sockets && forall i {:trigger ops[i]} | j < i < k :: ops[i] != DestroySocket(x.socket)
    ensures !trace[j].terminating ==> trace[k].stopped == trace[j].stopped + Numbers(trace[j].sockets)
    decreases k
  {
    RunKeeps(trace, ops, k - 1);
    assert trace[k - 1 + 1] == Step(trace[k - 1], ops[k - 1]);
    if k - 1 == j {
      EndBegins(trace[j], ops[j]);
    } else {
      TerminationLasts(trace, ops, j, k - 1, x);
      EndGoesOn(trace[k - 1], ops[k - 1], x);
    }
  }

  /** Nobody is stopped before. */
  lemma {:induction false} NobodyStopped(trace: seq<Slots>, ops: seq<Op>, k: nat)
    requires Run(trace, ops) && k < |trace| && !trace[k].terminating
    ensures trace[k].stopped == []
    decreases k
  {
    if k > 0 {
      assert trace[k - 1 + 1] == Step(trace[k - 1], ops[k - 1]);
      NobodyStopped(trace, ops, k - 1);
    }
  }

  /** And once all sockets that were open then have been destroyed, the reaper has been asked to stop, exactly once;
      at once if there was none. */
  lemma TerminationStopsReaper(trace: seq<Slots>, ops: seq<Op>, j: nat, k: nat)
    requires Run(trace, ops) && j < k < |trace| && Ends(ops[j]) && !trace[j].starting
    requires forall x | x in trace[j].sockets :: exists i :: j < i < k && ops[i] == DestroySocket(x.socket)
    ensures trace[k].sockets == [] && trace[k].reaperStops == 1
  {
    RunKeeps(trace, ops, k);
    forall x
      ensures x !in trace[k].sockets
    {
      TerminationLasts(trace, ops, j, k, x);
    }
    if trace[k].sockets != [] {
      assert trace[k].sockets[0] in trace[k].sockets;
    }
    assert trace[k].terminating by {
      TerminationLasts(trace, ops, j, k, Open(0, 0));
    }
  }

  // ------------------------------------------------------------------ the context as an object

  class SocketTable {
    var starting: bool
    var terminating: bool
    var ioThreadCount: nat
    var maxSockets: nat
    var emptySlots: seq<nat>
    var sockets: seq<Open>
    var stopped: seq<nat>
    var reaperStops: nat
    var nextId: nat

    function View(): Slots reads this {
      Slots(starting, terminating, ioThreadCount, maxSockets, emptySlots, sockets, stopped, reaperStops, nextId)
    }

    constructor (ioThreadCount: nat, maxSockets: nat)
      ensures View() == Slots(true, false, ioThreadCount, maxSockets, [], [], [], 0, 1)
    {
      starting, terminating := true, false;
      this.ioThreadCount, this.maxSockets := ioThreadCount, maxSockets;
      emptySlots, sockets, stopped, reaperStops, nextId := [], [], [], 0, 1;
    }

    /** start: the slots after those of the other threads become the free slots. */
    method Start()
      requires starting && emptySlots == []
      modifies this`starting, this`emptySlots
      ensures View() == Begin(old(View()))
    {
      var slotCount := maxSockets + ioThreadCount + 2;
      var i := slotCount;
      while i > ioThreadCount + 2
        invariant ioThreadCount + 2 <= i <= slotCount
        invariant emptySlots == Range(i, slotCount - i)
      {
        i := i - 1;
        emptySlots := emptySlots + [i];
      }
      starting := false;
    }

    method CreateSocket(works: bool) returns (socket: Option<Open>)
      requires starting ==> emptySlots == []
      modifies this
      ensures View() == Step(old(View()), Op.CreateSocket(works))
      ensures socket == if |sockets| > |old(sockets)| then Some(sockets[|sockets| - 1]) else None
    {
      if starting {
        Start();
      }
      if terminating || emptySlots == [] {
        return None;
      }
      var slot := emptySlots[|emptySlots| - 1];
      emptySlots := emptySlots[..|emptySlots| - 1];
      var sid := nextId;
      nextId := nextId + 1;
      if !works {
        emptySlots := emptySlots + [slot];
        return None;
      }
      var s := Open(sid, slot);
      sockets := sockets + [s];
      return Some(s);
    }

    method DestroySocket(socket: nat)
      requires Find(sockets, socket) < |sockets|
      modifies this
      ensures View() == Step(old(View()), Op.DestroySocket(socket))
    {
      var i := Find(sockets, socket);
      emptySlots := emptySlots + [sockets[i].slot];
      sockets := Erased(sockets, i);
      if terminating && sockets == [] {
        reaperStops := reaperStops + 1;
      }
    }

    /** shutdown, and the first half of terminate: a restarted termination asks nobody again. */
    method BeginTermination()
      modifies this
      ensures View() == Step(old(View()), Terminate) == Step(old(View()), Shutdown)
    {
      if !starting && !terminating {
        terminating := true;
        ghost var before := stopped;
        for i := 0 to |sockets|
          invariant unchanged(`starting) && unchanged(`sockets) && unchanged(`emptySlots) && unchanged(`reaperStops)
          invariant stopped == before + Numbers(sockets)[..i]
          invariant terminating && ioThreadCount == old(ioThreadCount) && maxSockets == old(maxSockets)
          invariant nextId == old(nextId)
        {
          stopped := stopped + [sockets[i].socket];
        }
        if sockets == [] {
          reaperStops := reaperStops + 1;
        }
      }
    }
  }
}
