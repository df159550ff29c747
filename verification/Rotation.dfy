/**
 * The part that fq_t and lb_t have in common: an array of pipes whose first `active` ones take turns,
 * `current` being next.  How far a pipe is from its turn is a cyclic distance, and the lemmas here
 * say how every operation changes it.
 */
module Rotation {
  import opened Messages
  import opened Pipes

  datatype Ring<P> = Ring(items: seq<P>, active: nat, current: nat)

  /** Distinct, as a recursive predicate: it costs nothing to carry around. */
  predicate NoRepeats<P(==)>(s: seq<P>) {
    s == [] || (s[|s| - 1] !in s[..|s| - 1] && NoRepeats(s[..|s| - 1]))
  }

  lemma {:induction false} NoRepeatsIsDistinct<P>(s: seq<P>)
    ensures NoRepeats(s) <==> Distinct(s)
  {
    if s != [] {
      var front := s[..|s| - 1];
      NoRepeatsIsDistinct(front);
      if Distinct(front) && s[|s| - 1] !in front {
        forall i, j | 0 <= i < j < |s|
          ensures s[i] != s[j]
        {
          assert s[i] in front;
        }
      }
      if Distinct(s) {
        assert forall i, j | 0 <= i < j < |front| :: front[i] == s[i] && front[j] == s[j];
      }
    }
  }

  lemma NoRepeatsSwapped<P>(s: seq<P>, i: nat, j: nat)
    requires NoRepeats(s) && i < |s| && j < |s|
    ensures NoRepeats(Swapped(s, i, j))
  {
    NoRepeatsIsDistinct(s);
    SwappedDistinct(s, i, j);
    NoRepeatsIsDistinct(Swapped(s, i, j));
  }

  predicate Valid<P(==)>(q: Ring<P>) {
    NoRepeats(q.items) && q.active <= |q.items| && (q.current < q.active || q.current == q.active == 0)
  }

  /** Swaps the current pipe out of the active ones; its slot is taken by the last active pipe. */
  function Deactivate<P(==)>(q: Ring<P>): (r: Ring<P>)
    requires Valid(q) && q.active > 0
    ensures Valid(r) && r.active == q.active - 1
  {
    var last := q.active - 1;
    NoRepeatsSwapped(q.items, q.current, last);
    Ring(Swapped(q.items, q.current, last), last, if q.current == last then 0 else q.current)
  }

  /** Deactivates pipes until the current one is ready. */
  function Advance<P(==)>(q: Ring<P>, ready: set<P>): (r: Ring<P>)
    requires Valid(q)
    ensures Valid(r) && |r.items| == |q.items|
    ensures r.active > 0 ==> r.items[r.current] in ready
    decreases q.active
  {
    if q.active == 0 || q.items[q.current] in ready then q else Advance(Deactivate(q), ready)
  }

  /** Passes the turn on. */
  function Next<P(==)>(q: Ring<P>): (r: Ring<P>)
    requires Valid(q) && q.active > 0
    ensures Valid(r)
  {
    q.(current := (q.current + 1) % q.active)
  }

  function Attach<P(==)>(q: Ring<P>, p: P): Ring<P>
    requires q.active <= |q.items|
  {
    q.(items := Swapped(q.items + [p], q.active, |q.items|), active := q.active + 1)
  }

  function Position<P(==)>(s: seq<P>, p: P): (i: nat)
    requires p in s
    ensures i < |s| && s[i] == p
  {
    if s[0] == p then 0 else 1 + Position(s[1..], p)
  }

  function Activated<P(==)>(q: Ring<P>, p: P): Ring<P>
    requires p in q.items && q.active < |q.items|
  {
    q.(items := Swapped(q.items, Position(q.items, p), q.active), active := q.active + 1)
  }

  /** Removing position i when the first n are active: an active pipe is first swapped to the last
      active slot; then the last item takes the hole. */
  function Removed<P>(s: seq<P>, i: nat, n: nat): seq<P>
    requires i < |s| && n <= |s|
  {
    var t := if i < n then Swapped(s, i, n - 1) else s;
    Swapped(t, if i < n then n - 1 else i, |s| - 1)[..|s| - 1]
  }

  function Terminated<P(==)>(q: Ring<P>, p: P): Ring<P>
    requires Valid(q) && p in q.items
  {
    var i := Position(q.items, p);
    var active := if i < q.active then q.active - 1 else q.active;
    Ring(Removed(q.items, i, q.active), active, if i < q.active && q.current == active then 0 else q.current)
  }

  lemma {:induction false} AdvanceItems<P>(q: Ring<P>, ready: set<P>)
    requires Valid(q)
    ensures Prefix(Advance(q, ready).items, |q.items|) == Prefix(q.items, |q.items|)
    decreases q.active
  {
    if q.active > 0 && q.items[q.current] !in ready {
      var d := Deactivate(q);
      SwapInside(q.items, q.current, q.active - 1, |q.items|);
      assert d.items == Swapped(q.items, q.current, q.active - 1);
      AdvanceItems(d, ready);
      assert Advance(q, ready) == Advance(d, ready);
    }
  }

  lemma AttachItems<P>(q: Ring<P>, p: P)
    requires Valid(q) && p !in q.items
    ensures Valid(Attach(q, p))
    ensures Prefix(Attach(q, p).items, |q.items| + 1) == Prefix(q.items, |q.items|) + {p}
    ensures q.current < q.active ==> Attach(q, p).items[q.current] == q.items[q.current]
  {
    var t := q.items + [p];
    NoRepeatsIsDistinct(q.items);
    PrefixStep(t, |q.items|);
    assert t[..|q.items|] == q.items[..|q.items|];
    SwapInside(t, q.active, |q.items|, |t|);
    SwappedDistinct(t, q.active, |q.items|);
    NoRepeatsIsDistinct(Attach(q, p).items);
  }

  lemma ActivatedItems<P>(q: Ring<P>, p: P)
    requires Valid(q) && p in q.items && Position(q.items, p) >= q.active
    ensures Valid(Activated(q, p))
    ensures Prefix(Activated(q, p).items, |q.items|) == Prefix(q.items, |q.items|)
    ensures q.current < q.active ==> Activated(q, p).items[q.current] == q.items[q.current]
  {
    SwapInside(q.items, Position(q.items, p), q.active, |q.items|);
    NoRepeatsSwapped(q.items, Position(q.items, p), q.active);
  }

  lemma RemovedItems<P>(s: seq<P>, i: nat, n: nat)
    requires Distinct(s) && i < |s| && n <= |s|
    ensures Distinct(Removed(s, i, n))
    ensures Prefix(Removed(s, i, n), |s| - 1) == Prefix(s, |s|) - {s[i]}
  {
    var t := if i < n then Swapped(s, i, n - 1) else s;
    var k := if i < n then n - 1 else i;
    if i < n {
      SwapInside(s, i, n - 1, |s|);
      SwappedDistinct(s, i, n - 1);
    }
    SwapOut(t, k, |s| - 1);
    SwappedDistinct(t, k, |s| - 1);
    var u := Swapped(t, k, |s| - 1);
    assert u[..|s| - 1][..|s| - 1] == u[..|s| - 1];
  }

  lemma TerminatedItems<P>(q: Ring<P>, p: P)
    requires Valid(q) && p in q.items
    ensures Valid(Terminated(q, p))
    ensures |Terminated(q, p).items| == |q.items| - 1
    ensures Prefix(Terminated(q, p).items, |q.items| - 1) == Prefix(q.items, |q.items|) - {p}
  {
    NoRepeatsIsDistinct(q.items);
    RemovedItems(q.items, Position(q.items, p), q.active);
    NoRepeatsIsDistinct(Terminated(q, p).items);
  }

  lemma PositionIs<P>(s: seq<P>, k: nat)
    requires NoRepeats(s) && k < |s|
    ensures Position(s, s[k]) == k
  {
    NoRepeatsIsDistinct(s);
  }

  // ------------------------------------------------------------------ termination and the turn

  /** When the terminated pipe p leaves the turn with the pipe that has it: not when that pipe sits in
      the last active slot and has to move to fill a hole elsewhere than in slot 0. */
  predicate TurnKept<P(==)>(q: Ring<P>, p: P)
    requires p in q.items
  {
    var i := Position(q.items, p);
    i >= q.active || q.current + 1 != q.active || i == 0
  }

  lemma TerminatedAt<P>(q: Ring<P>, p: P, k: nat)
    requires Valid(q) && p in q.items && q.active > 0 && k < q.active && q.items[k] != p
    ensures var i, r := Position(q.items, p), Terminated(q, p);
      var k' := if i < q.active && k == q.active - 1 then i else k;
      k' < r.active && r.items[k'] == q.items[k]
  {
  }

  /** Exactly when the termination of another pipe leaves the turn where it is. */
  lemma TerminationAndTurn<P>(q: Ring<P>, p: P)
    requires Valid(q) && p in q.items && q.active > 0 && q.items[q.current] != p
    ensures Valid(Terminated(q, p)) && Terminated(q, p).active > 0
    ensures Terminated(q, p).items[Terminated(q, p).current] == q.items[q.current] <==> TurnKept(q, p)
  {
    TerminatedItems(q, p);
    TerminatedAt(q, p, q.current);
    var i, r := Position(q.items, p), Terminated(q, p);
    if !TurnKept(q, p) {
      DifferentSlots(r, 0, i);
    }
  }

  lemma DifferentSlots<P>(q: Ring<P>, i: nat, j: nat)
    requires Valid(q) && i < |q.items| && j < |q.items| && i != j
    ensures q.items[i] != q.items[j]
  {
    NoRepeatsIsDistinct(q.items);
  }

  // ------------------------------------------------------------------ who takes turns

  /** The pipes that take turns. */
  function Actives<P(==)>(q: Ring<P>): set<P>
    requires q.active <= |q.items|
  {
    Prefix(q.items, q.active)
  }

  lemma ActivesAre<P>(q: Ring<P>, p: P)
    requires Valid(q)
    ensures p in Actives(q) <==> IsActive(q, p)
  {
    NoRepeatsIsDistinct(q.items);
    if p in q.items {
      PrefixAt(q.items, q.active, Position(q.items, p));
    }
  }

  /** A newcomer takes turns like the others. */
  lemma AttachActives<P>(q: Ring<P>, p: P)
    requires Valid(q) && p !in q.items
    ensures Actives(Attach(q, p)) == Actives(q) + {p}
  {
    var t := q.items + [p];
    AttachItems(q, p);
    NoRepeatsIsDistinct(q.items);
    assert Swapped(t, q.active, |q.items|) == Swapped(t, |q.items|, q.active);
    SwapIn(t, |q.items|, q.active);
    assert t[..q.active] == q.items[..q.active];
  }

  /** A pipe that is reported ready takes turns again, and the others go on. */
  lemma ActivatedActives<P>(q: Ring<P>, p: P)
    requires Valid(q) && p in q.items && Position(q.items, p) >= q.active
    ensures Actives(Activated(q, p)) == Actives(q) + {p}
  {
    NoRepeatsIsDistinct(q.items);
    SwapIn(q.items, Position(q.items, p), q.active);
  }

  lemma DeactivateActives<P>(q: Ring<P>)
    requires Valid(q) && q.active > 0
    ensures Actives(Deactivate(q)) == Actives(q) - {q.items[q.current]}
  {
    NoRepeatsIsDistinct(q.items);
    SwapOut(q.items, q.current, q.active - 1);
  }

  /** Erasing behind the first m positions. */
  lemma ErasedBehind<P>(t: seq<P>, k: nat, m: nat)
    requires m <= k < |t|
    ensures Prefix(Swapped(t, k, |t| - 1)[..|t| - 1], m) == Prefix(t, m)
  {
    var u := Swapped(t, k, |t| - 1);
    SwapInside(t, k, |t| - 1, m);
    assert u[..|t| - 1][..m] == u[..m];
  }

  lemma RemovedActive<P>(s: seq<P>, i: nat, n: nat)
    requires Distinct(s) && i < n <= |s|
    ensures Prefix(Removed(s, i, n), n - 1) == Prefix(s, n) - {s[i]}
  {
    SwapOut(s, i, n - 1);
    ErasedBehind(Swapped(s, i, n - 1), n - 1, n - 1);
  }

  /** Only the pipe that goes stops taking turns. */
  lemma TerminatedActives<P>(q: Ring<P>, p: P)
    requires Valid(q) && p in q.items
    ensures Valid(Terminated(q, p)) && Actives(Terminated(q, p)) == Actives(q) - {p}
  {
    TerminatedItems(q, p);
    NoRepeatsIsDistinct(q.items);
    var i := Position(q.items, p);
    if i < q.active {
      RemovedActive(q.items, i, q.active);
    } else {
      ErasedBehind(q.items, i, q.active);
      PrefixAt(q.items, q.active, i);
    }
  }

  /** Looking for a ready pipe only leaves out pipes that are not ready. */
  lemma {:induction false} AdvanceActives<P>(q: Ring<P>, ready: set<P>)
    requires Valid(q)
    ensures Actives(Advance(q, ready)) <= Actives(q) && Actives(q) - Actives(Advance(q, ready)) !! ready
    decreases q.active
  {
    if q.active > 0 && q.items[q.current] !in ready {
      DeactivateActives(q);
      AdvanceActives(Deactivate(q), ready);
    }
  }

  /** It finds one exactly if there is one. */
  lemma AdvanceFinds<P>(q: Ring<P>, ready: set<P>)
    requires Valid(q)
    ensures Advance(q, ready).active > 0 <==> !(Actives(q) !! ready)
  {
    AdvanceActives(q, ready);
    var a := Advance(q, ready);
    if a.active > 0 {
      assert a.items[..a.active][a.current] == a.items[a.current];
      assert a.items[a.current] in Actives(a);
    }
  }

  // ------------------------------------------------------------------ distance to the turn

  predicate IsActive<P(==)>(q: Ring<P>, p: P) {
    Valid(q) && p in q.items && Position(q.items, p) < q.active
  }

  /** (position - current) mod active. */
  function Distance<P(==)>(q: Ring<P>, p: P): (d: nat)
    requires IsActive(q, p)
    ensures d < q.active && (d == 0 <==> q.items[q.current] == p)
  {
    var k := Position(q.items, p);
    PositionIs(q.items, q.current);
    if k >= q.current then k - q.current else k + q.active - q.current
  }

  lemma DeactivateDistance<P>(q: Ring<P>, p: P)
    requires IsActive(q, p) && q.items[q.current] != p
    ensures IsActive(Deactivate(q), p)
    ensures Distance(Deactivate(q), p) <= Distance(q, p)
  {
    var r := Deactivate(q);
    var k := Position(q.items, p);
    PositionIs(r.items, if k == q.active - 1 then q.current else k);
  }

  /** Looking for a ready pipe never moves a ready pipe further from its turn. */
  lemma {:induction false} AdvanceDistance<P>(q: Ring<P>, ready: set<P>, p: P)
    requires IsActive(q, p) && p in ready
    ensures IsActive(Advance(q, ready), p)
    ensures Distance(Advance(q, ready), p) <= Distance(q, p)
    decreases q.active
  {
    if q.items[q.current] !in ready {
      DeactivateDistance(q, p);
      AdvanceDistance(Deactivate(q), ready, p);
    }
  }

  /** Passing the turn on brings every other pipe one step closer. */
  lemma NextTurn<P>(q: Ring<P>)
    requires Valid(q) && q.active > 0
    ensures Next(q) == q.(current := if q.current + 1 == q.active then 0 else q.current + 1)
  {
    Wrapped(q.current, q.active);
  }

  lemma Wrapped(k: nat, n: nat)
    requires k < n
    ensures (k + 1) % n == if k + 1 == n then 0 else k + 1
  {
  }

  lemma NextDistance<P>(q: Ring<P>, p: P)
    requires IsActive(q, p) && q.items[q.current] != p
    ensures IsActive(Next(q), p) && Distance(Next(q), p) == Distance(q, p) - 1
  {
    NextTurn(q);
  }

  /** A newcomer moves it away by at most one. */
  lemma AttachDistance<P>(q: Ring<P>, x: P, p: P)
    requires IsActive(q, p) && x !in q.items
    ensures IsActive(Attach(q, x), p) && Distance(Attach(q, x), p) <= Distance(q, p) + 1
  {
    AttachItems(q, x);
    PositionIs(Attach(q, x).items, Position(q.items, p));
  }

  lemma ActivatedDistance<P>(q: Ring<P>, x: P, p: P)
    requires IsActive(q, p) && x in q.items && Position(q.items, x) >= q.active
    ensures IsActive(Activated(q, x), p) && Distance(Activated(q, x), p) <= Distance(q, p) + 1
  {
    ActivatedItems(q, x);
    PositionIs(Activated(q, x).items, Position(q.items, p));
  }
}
