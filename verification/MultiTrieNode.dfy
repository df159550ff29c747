/**
 generic_mtrie_t as nodes that are changed in place, with the source's single-node and table
 forms, its range growth and its compaction, proved equal to the operations of MultiTrie.
 */
module MultiTrieNode {
  import opened Sequences
  import opened Wrappers
  import opened MultiTrie
  import opened MultiTrieTheorems

  lemma {:induction false} LiveConcat<T>(a: seq<Option<Trie<T>>>, b: seq<Option<Trie<T>>>)
    ensures Live(a + b) == Live(a) + Live(b)
  {
    if a == [] {
      assert a + b == b;
    } else {
      assert (a + b)[1..] == a[1..] + b;
      LiveConcat(a[1..], b);
    }
  }

  lemma LiveUpdate<T>(s: seq<Option<Trie<T>>>, k: nat, x: Option<Trie<T>>)
    requires k < |s|
    ensures Live(s[k := x]) + (if s[k].Some? then 1 else 0) == Live(s) + if x.Some? then 1 else 0
  {
    var a, b := s[..k], s[k + 1..];
    assert s == a + ([s[k]] + b) && s[k := x] == a + ([x] + b);
    LiveConcat(a, [s[k]] + b);
    LiveConcat(a, [x] + b);
  }

  lemma LiveExtend<T>(t: Trie<T>, c: byte)
    requires t.next != [] ==> t.min + |t.next| <= 256
    ensures Live(Extend(t, c).next) == Live(t.next)
  {
    LiveZero(Nones<T>(c));
    if t.next == [] {
      LiveZero<T>([None]);
    } else if t.min < c {
      if c >= t.min + |t.next| {
        LiveZero(Nones<T>(c - t.min + 1 - |t.next|));
        LiveConcat(t.next, Nones(c - t.min + 1 - |t.next|));
      }
    } else if c < t.min {
      LiveZero(Nones<T>(t.min - c));
      LiveConcat(Nones(t.min - c), t.next);
    }
  }

  /** `to` is `from` moved up by d places, and null elsewhere. */
  ghost predicate Shifted<T>(from: seq<Node?<T>>, to: seq<Node?<T>>, d: nat) {
    && d + |from| <= |to|
    && (forall i | 0 <= i < |to| :: to[i] == if d <= i < d + |from| then from[i - d] else null)
  }

  ghost predicate ShiftedModel<T>(from: seq<Option<Trie<T>>>, to: seq<Option<Trie<T>>>, d: nat) {
    && d + |from| <= |to|
    && (forall i | 0 <= i < |to| :: to[i] == if d <= i < d + |from| then from[i - d] else None)
  }

  lemma ExtendShifts<T>(t: Trie<T>, c: byte, d: nat)
    requires (t.next != [] ==> t.min + |t.next| <= 256) && (c < t.min || c >= t.min + |t.next|)
    requires d == if t.next == [] || t.min < c then 0 else t.min - c
    ensures var e := Extend(t, c);
      && e.pipes == t.pipes && e.min == (if t.next == [] || c < t.min then c else t.min)
      && |e.next| == (if t.next == [] then 1 else if t.min < c then c - t.min + 1 else t.min + |t.next| - c)
      && ShiftedModel(t.next, e.next, d)
      && Live(e.next) == Live(t.next)
  {
    LiveExtend(t, c);
  }

  ghost predicate Within(parts: seq<set<object>>, all: set<object>) {
    forall i | 0 <= i < |parts| :: parts[i] <= all
  }

  ghost function ShiftParts(parts: seq<set<object>>, d: nat, n: nat, all: set<object>): (r: seq<set<object>>)
    requires d + |parts| <= n && Disjoint(parts) && Within(parts, all)
    ensures |r| == n && Disjoint(r) && Within(r, all)
    ensures forall i | 0 <= i < n :: r[i] == if d <= i < d + |parts| then parts[i - d] else {}
  {
    seq(d, _ => {}) + parts + seq(n - d - |parts|, _ => {})
  }

  lemma {:induction false} OnlyOne<T>(s: seq<Option<Trie<T>>>, i: nat)
    requires Live(s) == 1 && i < |s| && s[i].Some?
    ensures forall j | 0 <= j < |s| && j != i :: s[j].None?
  {
    LiveUpdate(s, i, None);
    LiveZero(s[i := None]);
    assert forall j | 0 <= j < |s| && j != i :: s[i := None][j] == s[j];
  }

  lemma OnlyThis<T>(s: seq<Option<Trie<T>>>, i: nat)
    requires i < |s| && s[i].Some? && forall j | 0 <= j < |s| && j != i :: s[j].None?
    ensures Live(s) == 1
  {
    LiveUpdate(s, i, None);
    LiveZero(s[i := None]);
  }

  /** called runs through the sets of hits, one after the other, and through each set once. */
  ghost predicate Calls<T>(called: seq<T>, hits: seq<(nat, set<T>)>)
    decreases |hits|
  {
    if hits == [] then called == []
    else
      var n := |hits[|hits| - 1].1|;
      && n <= |called|
      && multiset(called[|called| - n..]) == multiset(hits[|hits| - 1].1)
      && Calls(called[..|called| - n], hits[..|hits| - 1])
  }

  lemma CallsSnoc<T>(called: seq<T>, hits: seq<(nat, set<T>)>, block: seq<T>, depth: nat, s: set<T>)
    requires Calls(called, hits) && multiset(block) == multiset(s)
    ensures Calls(called + block, hits + [(depth, s)])
  {
    assert |block| == |multiset(block)| == |s|;
    var all := called + block;
    assert all[|all| - |s|..] == block && all[..|all| - |s|] == called;
    assert (hits + [(depth, s)])[..|hits|] == hits;
  }

  /** One step of the cursor: the node's own hit is done, the rest is below its child. */
  lemma HitsStep<T>(done: seq<(nat, set<T>)>, t: Trie<T>, data: Key, i: nat)
    requires i <= |data|
    ensures var here := if t.pipes.Some? then done + [(i, t.pipes.value)] else done;
      done + Hits(t, data[i..], i) ==
        if i < |data| && Has(t, data[i]) then here + Hits(Child(t, data[i]), data[i + 1..], i + 1) else here
  {
    var own := if t.pipes.Some? then [(i, t.pipes.value)] else [];
    if i < |data| && Has(t, data[i]) {
      assert data[i..][1..] == data[i + 1..];
      Assoc(done, own, Hits(Child(t, data[i]), data[i + 1..], i + 1));
    }
  }

  /** new_min and new_max after c rounds of the loop that computes them. */
  ghost function MinMax<T>(next: seq<Option<Trie<T>>>, min: byte, c: nat): (r: (nat, nat))
    requires c <= |next| && next != [] && min + |next| <= 256
    ensures min <= r.0 <= min + |next| - 1 && min <= r.1 <= min + |next| - 1
  {
    if c == 0 then (min + |next| - 1, min)
    else
      var (lo, hi) := MinMax(next, min, c - 1);
      if next[c - 1].None? then (lo, hi)
      else (if c - 1 + min < lo then c - 1 + min else lo, if c - 1 + min > hi then c - 1 + min else hi)
  }

  lemma MinMaxStep<T>(next: seq<Option<Trie<T>>>, min: byte, c: nat, lo: byte, hi: byte)
    requires c < |next| && min + |next| <= 256 && (lo, hi) == MinMax(next, min, c)
    ensures next[c].None? ==> MinMax(next, min, c + 1) == (lo, hi)
    ensures next[c].Some? ==> MinMax(next, min, c + 1).0 == if c + min < lo then c + min else lo
    ensures next[c].Some? ==> MinMax(next, min, c + 1).1 == if c + min > hi then c + min else hi
  {
  }

  lemma RangeFound<T>(next: seq<Option<Trie<T>>>, min: byte, lo: byte, hi: byte)
    requires next != [] && min + |next| <= 256 && (lo, hi) == MinMax(next, min, |next|)
    ensures min <= lo <= min + |next| - 1 && min <= hi <= min + |next| - 1
    ensures lo < min + |next| - 1 ==> next[lo - min].Some?
    ensures hi > min ==> next[hi - min].Some?
    ensures forall j | 0 <= j < |next| && next[j].Some? :: lo <= min + j <= hi
  {
    MinMaxTracks(next, min, |next|);
  }

  /** They end up as the first and the last live position (as bytes). */
  lemma {:induction false} MinMaxTracks<T>(next: seq<Option<Trie<T>>>, min: byte, c: nat)
    requires c <= |next| && next != [] && min + |next| <= 256
    ensures var (lo, hi) := MinMax(next, min, c);
      && (lo < min + |next| - 1 ==> lo - min < c && next[lo - min].Some?)
      && (hi > min ==> hi - min < c && next[hi - min].Some?)
      && forall j | 0 <= j < c && next[j].Some? :: lo <= min + j <= hi
  {
    if c > 0 {
      MinMaxTracks(next, min, c - 1);
    }
  }

  /** The table once the first c children have been stripped of v. */
  ghost function HalfNext<T>(t: Trie<T>, v: T, c: nat): (r: seq<Option<Trie<T>>>)
    requires Canonical(t)
    ensures |r| == |t.next| && forall j {:trigger r[j]} | 0 <= j < |r| ::
      r[j] == if j < c then StripChild(t.next[j], v) else t.next[j]
  {
    seq(|t.next|, j requires 0 <= j < |t.next| => if j < c then StripChild(t.next[j], v) else t.next[j])
  }

  lemma HalfStep<T>(t: Trie<T>, v: T, c: nat)
    requires Canonical(t) && c < |t.next|
    ensures HalfNext(t, v, c + 1) == HalfNext(t, v, c)[c := StripChild(t.next[c], v)]
    ensures HalfNext(t, v, c)[c] == t.next[c]
  {
  }

  lemma HalfEnds<T>(t: Trie<T>, v: T)
    requires Canonical(t)
    ensures HalfNext(t, v, 0) == t.next && HalfNext(t, v, |t.next|) == StripNext(t, v)
  {
  }

  /** rm_helper as an update of the child at k followed by its pruning. */
  ghost function RmAt<T>(t: Trie<T>, k: nat, rest: Key, v: T): (Trie<T>, RmResult)
    requires Canonical(t) && k < |t.next| && t.next[k].Some?
  {
    var (child, r) := RmKey(t.next[k].value, rest, v);
    (Trim(t.(next := t.next[k := Some(child)][k := Prune(child)])), r)
  }

  lemma RmKeyUnfold<T>(t: Trie<T>, key: Key, v: T, k: nat)
    requires Canonical(t) && key != [] && Has(t, key[0]) && k == key[0] - t.min
    ensures RmKey(t, key, v) == RmAt(t, k, key[1..], v)
  {
    var child := RmKey(t.next[k].value, key[1..], v).0;
    assert t.next[k := Some(child)][k := Prune(child)] == t.next[k := Prune(child)];
  }

  lemma SingleFacts<T>(t: Trie<T>, v: T, uniq: bool, path: Key)
    requires Canonical(t) && |t.next| == 1
    ensures t.next[0].Some?
    ensures var child := Strip(t.next[0].value, v); t.next[0 := Some(child)][0 := Prune(child)] == StripNext(t, v)
    ensures TraceUpTo(t, v, uniq, path, 1) == Trace(t.next[0].value, v, uniq, path + [t.min])
  {
    var child := Strip(t.next[0].value, v);
    assert TraceUpTo(t, v, uniq, path, 0) == [];
    TraceStep(t, v, uniq, path, 0);
    assert t.next[0 := Some(child)][0 := Prune(child)] == [StripChild(t.next[0], v)];
  }

  /** The callbacks made below one position of a table. */
  ghost function ChildTrace<T>(child: Option<Trie<T>>, v: T, uniq: bool, path: Key): seq<Key>
    requires child.Some? ==> Canonical(child.value)
  {
    if child.Some? then Trace(child.value, v, uniq, path) else []
  }

  lemma TraceStep<T>(t: Trie<T>, v: T, uniq: bool, path: Key, i: nat)
    requires Canonical(t) && i < |t.next|
    ensures TraceUpTo(t, v, uniq, path, i + 1) ==
      TraceUpTo(t, v, uniq, path, i) + ChildTrace(t.next[i], v, uniq, path + [t.min + i])
  {
  }

  lemma AssocHere<T>(log: seq<Key>, t: Trie<T>, v: T, uniq: bool, path: Key)
    requires Canonical(t)
    ensures (log + if Reported(t, v, uniq) then [path] else []) + TraceUpTo(t, v, uniq, path, |t.next|)
      == log + Trace(t, v, uniq, path)
  {
    Assoc(log, if Reported(t, v, uniq) then [path] else [], TraceUpTo(t, v, uniq, path, |t.next|));
  }

  lemma StripLeaf<T>(t: Trie<T>, v: T, uniq: bool, path: Key)
    requires Canonical(t) && t.next == []
    ensures Strip(t, v) == Erase(t, v)
    ensures TraceUpTo(t, v, uniq, path, |t.next|) == []
  {
  }

  /** What the table loop does depends on the children only, not on the node's own values. */
  lemma StripTable<T>(t: Trie<T>, v: T, uniq: bool, path: Key)
    requires Canonical(t)
    ensures Canonical(Erase(t, v))
    ensures Strip(t, v) == Trim(Erase(t, v).(next := StripNext(Erase(t, v), v)))
    ensures TraceUpTo(Erase(t, v), v, uniq, path, |t.next|) == TraceUpTo(t, v, uniq, path, |t.next|)
  {
    assert StripNext(Erase(t, v), v) == StripNext(t, v);
    TraceIgnoresPipes(t, Erase(t, v), v, uniq, path, |t.next|);
  }

  lemma {:induction false} TraceIgnoresPipes<T>(t: Trie<T>, u: Trie<T>, v: T, uniq: bool, path: Key, n: nat)
    requires Canonical(t) && Canonical(u) && t.next == u.next && t.min == u.min && n <= |t.next|
    ensures TraceUpTo(t, v, uniq, path, n) == TraceUpTo(u, v, uniq, path, n)
    decreases n
  {
    if n > 0 {
      TraceIgnoresPipes(t, u, v, uniq, path, n - 1);
    }
  }

  lemma TrimIs<T>(t: Trie<T>, lo: nat, hi: nat)
    requires lo <= hi < |t.next| && t.min + |t.next| <= 256
    requires t.next[lo].Some? && t.next[hi].Some?
    requires forall i | 0 <= i < |t.next| && !(lo <= i <= hi) :: t.next[i].None?
    ensures Trim(t) == t.(min := t.min + lo, next := t.next[lo..hi + 1])
  {
    LivePositive(t.next, lo);
    assert FirstLive(t.next) == lo && LastLive(t.next) == hi;
  }

  /** Trimming loses no live child. */
  lemma DeadFront<T>(next: seq<Option<Trie<T>>>, lo: nat)
    requires lo <= |next| && forall i | 0 <= i < lo :: next[i].None?
    ensures Live(next[lo..]) == Live(next)
  {
    assert next == next[..lo] + next[lo..];
    LiveConcat(next[..lo], next[lo..]);
    LiveZero(next[..lo]);
  }

  lemma DeadBack<T>(next: seq<Option<Trie<T>>>, n: nat)
    requires n <= |next| && forall i | n <= i < |next| :: next[i].None?
    ensures Live(next[..n]) == Live(next)
  {
    assert next == next[..n] + next[n..];
    LiveConcat(next[..n], next[n..]);
    LiveZero(next[n..]);
  }

  lemma DeadEnds<T>(next: seq<Option<Trie<T>>>, lo: nat, hi: nat)
    requires lo <= hi < |next|
    requires forall i | 0 <= i < |next| && next[i].Some? :: lo <= i <= hi
    ensures Live(next[lo..hi + 1]) == Live(next)
  {
    DeadBack(next, hi + 1);
    DeadFront(next[..hi + 1], lo);
    assert next[..hi + 1][lo..] == next[lo..hi + 1];
  }

  lemma TrimLive<T>(t: Trie<T>)
    requires t.next != [] ==> t.min + |t.next| <= 256
    ensures Live(Trim(t).next) == Live(t.next)
  {
    if Live(t.next) > 0 {
      DeadEnds(t.next, FirstLive(t.next), LastLive(t.next));
    }
  }

  ghost predicate Disjoint(parts: seq<set<object>>) {
    forall i, j | 0 <= i < j < |parts| :: parts[i] !! parts[j]
  }

  /** The growing path buffer of rm by value. */
  class PathBuffer {
    var mem: seq<byte>

    constructor ()
      ensures mem == []
    {
      mem := [];
    }

    method Realloc(n: nat)
      modifies this
      ensures |mem| == n && forall i | 0 <= i < n && i < old(|mem|) :: mem[i] == old(mem[i])
    {
      mem := if n <= |mem| then mem[..n] else mem + seq(n - |mem|, _ => 0);
    }
  }

  /** What the callback was called with. */
  class CallLog {
    var keys: seq<Key>

    constructor ()
      ensures keys == []
    {
      keys := [];
    }
  }

  class Node<T(==)> {
    var pipes: Option<set<T>>
    var min: byte
    var count: nat
    var liveNodes: nat
    var next: seq<Node?<T>>

    ghost var model: Trie<T>
    /** The objects of each subtree, and of this node together with its subtrees. */
    ghost var parts: seq<set<object>>
    ghost var repr: set<object>

    /** Null where the model has no child; otherwise a valid node, made of `part`, for that child. */
    static ghost predicate Fits(child: Node?<T>, part: set<object>, m: Option<Trie<T>>)
      reads part
      decreases part, 1
    {
      if child == null then m.None? && part == {}
      else child in part && child.repr == part && child.Valid() && m == Some(child.model)
    }

    /** The table next stands for the children m; the objects of its subtrees are parts of all. */
    static ghost predicate FitAll(next: seq<Node?<T>>, parts: seq<set<object>>, m: seq<Option<Trie<T>>>,
                                  all: set<object>)
      reads all
      decreases all, 2
    {
      && |next| == |m| == |parts| && Disjoint(parts) && Within(parts, all)
      && forall i {:trigger Fits(next[i], parts[i], m[i])} | 0 <= i < |parts| :: Fits(next[i], parts[i], m[i])
    }

    ghost predicate Valid()
      reads this, repr
      decreases repr, 0
    {
      && this in repr
      && |next| == count == |model.next| == |parts|
      && model.pipes == pipes && model.min == min && liveNodes == Live(model.next)
      && FitAll(next, parts, model.next, repr - {this})
    }

    constructor ()
      ensures Valid() && fresh(repr) && model == Empty()
    {
      pipes, min, count, liveNodes, next := None, 0, 0, 0, [];
      model, parts := Empty(), [];
      repr := {this};
    }

    predicate IsRedundant()
      requires Valid()
      reads this, repr
      ensures IsRedundant() <==> Redundant(model)
    {
      pipes.None? && liveNodes == 0
    }

    /** The branches of add_helper that reallocate the table so that c is in range. */
    method GrowTable(c: byte)
      requires |next| == count && (count > 0 ==> min + count <= 256) && (c < min || c >= min + count)
      modifies this`min, this`count, this`next
      ensures |next| == count && min + count <= 256
      ensures min == (if old(count) == 0 || c < old(min) then c else old(min))
      ensures count == (if old(count) == 0 then 1 else if old(min) < c then c - old(min) + 1
        else old(min) + old(count) - c)
      ensures Shifted(old(next), next, if old(count) == 0 then 0 else old(min) - min)
    {
      if count == 0 {
        min := c;
        count := 1;
        next := [null];
      } else if count == 1 {
        var oldc := min;
        var oldp := next[0];
        count := (if min < c then c - min else min - c) + 1;
        var table: seq<Node?<T>> := seq(count, _ => null);
        min := if min < c then min else c;
        next := table[oldc - min := oldp];
      } else if min < c {
        var oldCount := count;
        count := c - min + 1;
        next := next + seq(count - oldCount, _ => null);
      } else {
        var oldCount := count;
        count := (min + oldCount) - c;
        next := seq(min - c, _ => null) + next;
        min := c;
      }
    }

    static lemma FitShifted(next: seq<Node?<T>>, parts: seq<set<object>>, m: seq<Option<Trie<T>>>, all: set<object>,
                            next': seq<Node?<T>>, m': seq<Option<Trie<T>>>, d: nat)
      requires FitAll(next, parts, m, all)
      requires |next'| == |m'| && Shifted(next, next', d) && ShiftedModel(m, m', d)
      ensures FitAll(next', ShiftParts(parts, d, |next'|, all), m', all)
    {
      var parts' := ShiftParts(parts, d, |next'|, all);
      forall i | 0 <= i < |parts'|
        ensures Fits(next'[i], parts'[i], m'[i])
      {
        assert d <= i < d + |parts| ==> Fits(next[i - d], parts[i - d], m[i - d]);
      }
    }

    static lemma FitSliced(next: seq<Node?<T>>, parts: seq<set<object>>, m: seq<Option<Trie<T>>>, all: set<object>,
                           lo: nat, hi: nat)
      requires FitAll(next, parts, m, all) && lo <= hi <= |next|
      ensures FitAll(next[lo..hi], parts[lo..hi], m[lo..hi], all)
    {
    }

    method MakeRoom(c: byte)
      requires Valid() && Canonical(model)
      modifies this`min, this`count, this`next, this`model, this`parts
      ensures Valid() && model == Extend(old(model), c)
      ensures min <= c < min + count && min + count <= 256
    {
      if c < min || c >= min + count {
        ghost var d := if count == 0 || min < c then 0 else min - c;
        ExtendShifts(model, c, d);
        ghost var wide := Extend(model, c);
        ghost var wasNext, wasParts, wasModel := next, parts, model.next;
        GrowTable(c);
        parts := ShiftParts(parts, d, count, repr - {this});
        model := wide;
        FitShifted(wasNext, wasParts, wasModel, repr - {this}, next, model.next, d);
      }
    }

    /** Valid, except that the subtree at k has changed and the ghost fields do not know yet. */
    ghost predicate ValidBut(k: nat)
      reads this, repr, if k < |next| && next[k] != null then {next[k]} + next[k].repr else {}
    {
      && this in repr
      && k < |next| == count == |model.next| == |parts|
      && model.pipes == pipes && model.min == min && liveNodes == Live(model.next)
      && Disjoint(parts) && Within(parts, repr - {this})
      && (forall i {:trigger Fits(next[i], parts[i], model.next[i])} | 0 <= i < |parts| && i != k ::
           Fits(next[i], parts[i], model.next[i]))
      && model.next[k].Some? && next[k] != null && next[k] in next[k].repr && next[k].Valid() && this !in next[k].repr
      && (forall i | 0 <= i < |parts| && i != k :: parts[i] !! next[k].repr)
    }

    ghost method Refresh(k: nat)
      requires ValidBut(k)
      modifies this`model, this`parts, this`repr
      ensures Valid() && model == old(model).(next := old(model).next[k := Some(next[k].model)])
      ensures repr == old(repr) + next[k].repr
    {
      LiveUpdate(model.next, k, Some(next[k].model));
      model := model.(next := model.next[k := Some(next[k].model)]);
      parts := parts[k := next[k].repr];
      repr := repr + next[k].repr;
    }

    /** add_helper in the child at k, creating it if need be. */
    method AddBelow(k: nat, rest: Key, v: T) returns (result: bool)
      requires Valid() && k < count && (model.next[k].Some? ==> Canonical(model.next[k].value))
      modifies repr
      ensures Valid() && fresh(repr - old(repr))
      ensures var (child, added) :=
        MultiTrie.Add(if old(model).next[k].Some? then old(model).next[k].value else Empty(), rest, v);
        model == old(model).(next := old(model).next[k := Some(child)]) && result == added
      decreases |rest|, 1
    {
      EnsureChild(k);
      assert Fits(next[k], parts[k], model.next[k]);
      result := next[k].AddHelper(rest, v);
      Refresh(k);
    }

    method EnsureChild(k: nat)
      requires Valid() && k < count
      modifies this
      ensures Valid() && fresh(repr - old(repr)) && count == old(count) && next[k] != null
      ensures model == old(model).(next :=
        old(model).next[k := Some(if old(model).next[k].Some? then old(model).next[k].value else Empty())])
    {
      assert Fits(next[k], parts[k], model.next[k]);
      if next[k] == null {
        LiveUpdate(model.next, k, Some(Empty()));
        var node := new Node<T>();
        next := next[k := node];
        liveNodes := liveNodes + 1;
        model := model.(next := model.next[k := Some(Empty())]);
        parts := parts[k := node.repr];
        repr := repr + node.repr;
      }
    }

    method SetPipes(p: Option<set<T>>)
      requires Valid()
      modifies this`pipes, this`model
      ensures Valid() && model == old(model).(pipes := p)
    {
      pipes := p;
      model := model.(pipes := p);
    }

    method AddHelper(prefix: Key, v: T) returns (result: bool)
      requires Valid() && Canonical(model)
      modifies repr
      ensures Valid() && fresh(repr - old(repr))
      ensures (model, result) == MultiTrie.Add(old(model), prefix, v)
      decreases |prefix|, 0
    {
      if prefix == [] {
        result := pipes.None?;
        SetPipes(Some((if pipes.Some? then pipes.value else {}) + {v}));
        return;
      }
      var c := prefix[0];
      ExtendHas(model, c, c);
      ExtendEnds(model, c);
      MakeRoom(c);
      var k := if count == 1 then 0 else c - min;
      result := AddBelow(k, prefix[1..], v);
    }

    // ---------------------------------------------------------------- removal

    /** LIBZMQ_DELETE of the child at k. */
    method DropChild(k: nat)
      requires Valid() && k < count && next[k] != null
      modifies this`next, this`liveNodes, this`model, this`parts
      ensures Valid() && model == old(model).(next := old(model).next[k := None])
      ensures count == old(count) && liveNodes == old(liveNodes) - 1
    {
      assert Fits(next[k], parts[k], model.next[k]);
      LiveUpdate(model.next, k, None);
      next := next[k := null];
      liveNodes := liveNodes - 1;
      model := model.(next := model.next[k := None]);
      parts := parts[k := {}];
    }

    /** A new table holding the old one's positions lo to lo + n. */
    method Slice(lo: nat, n: nat)
      requires Valid() && n > 0 && lo + n <= count && min + count <= 256
      requires Live(model.next[lo..lo + n]) == liveNodes
      modifies this`next, this`count, this`min, this`model, this`parts
      ensures Valid() && count == n
      ensures model == old(model).(min := old(model).min + lo, next := old(model).next[lo..lo + n])
    {
      ghost var wasNext, wasParts, was := next, parts, model;
      next := next[lo..lo + n];
      min := min + lo;
      count := n;
      parts := parts[lo..lo + n];
      model := was.(min := was.min + lo, next := was.next[lo..lo + n]);
      FitSliced(wasNext, wasParts, was.next, repr - {this}, lo, lo + n);
    }

    /** Cuts the table down to lo .. lo + n, outside of which all positions are null. */
    method Reallocate(lo: nat, n: nat)
      requires Valid() && n > 0 && lo + n <= count && min + count <= 256
      requires model.next[lo].Some? && model.next[lo + n - 1].Some?
      requires forall i | 0 <= i < count && !(lo <= i < lo + n) :: model.next[i].None?
      modifies this`next, this`count, this`min, this`model, this`parts
      ensures Valid() && model == Trim(old(model))
      ensures count == n
    {
      TrimIs(model, lo, lo + n - 1);
      TrimLive(model);
      Slice(lo, n);
    }

    /** The empty table; min keeps its stale value. */
    method FreeTable()
      requires Valid() && liveNodes == 0 && min + count <= 256
      modifies this`next, this`count, this`model, this`parts
      ensures Valid() && model == Trim(old(model))
    {
      next, count, parts := [], 0, [];
      model := model.(next := []);
    }

    /** What rm_helper does to the table once the child for byte c has been deleted from it. */
    method CompactAfter(c: byte)
      requires Valid() && count > 1 && min <= c < min + count <= 256
      requires model.next[c - min].None? && liveNodes > 0
      requires forall e | e == 0 || e == count - 1 :: e != c - min ==> model.next[e].Some?
      modifies this`next, this`count, this`min, this`model, this`parts
      ensures Valid() && model == Trim(old(model))
    {
      if liveNodes == 1 {
        var i := 0;
        LiveZero(model.next);
        while i < count && next[i] == null
          invariant i <= count && forall j | 0 <= j < i :: model.next[j].None?
        {
          assert Fits(next[i], parts[i], model.next[i]);
          i := i + 1;
        }
        assert i < count;
        assert Fits(next[i], parts[i], model.next[i]);
        OnlyOne(model.next, i);
        Reallocate(i, 1);
      } else if c == min {
        var i := 1;
        while i < count && next[i] == null
          invariant 1 <= i <= count && forall j | 0 <= j < i :: model.next[j].None?
        {
          assert Fits(next[i], parts[i], model.next[i]);
          i := i + 1;
        }
        assert model.next[count - 1].Some?;
        assert Fits(next[i], parts[i], model.next[i]);
        Reallocate(i, count - i);
      } else if c == min + count - 1 {
        var i := 1;
        while i < count && next[count - 1 - i] == null
          invariant 1 <= i <= count && forall j | count - i <= j < count :: model.next[j].None?
        {
          assert Fits(next[count - 1 - i], parts[count - 1 - i], model.next[count - 1 - i]);
          i := i + 1;
        }
        assert model.next[0].Some?;
        assert Fits(next[count - 1 - i], parts[count - 1 - i], model.next[count - 1 - i]);
        Reallocate(0, count - i);
      } else {
        TrimIs(model, 0, count - 1);
        assert model.next[0..count] == model.next;
      }
    }

    method RmHere(v: T) returns (ret: RmResult)
      requires Valid() && Canonical(model)
      modifies this`pipes, this`model
      ensures Valid() && (model, ret) == MultiTrie.RmKey(old(model), [], v)
    {
      if pipes.None? {
        return NotFound;
      }
      var erased := v in pipes.value;
      if pipes.value - {v} == {} {
        assert erased;
        SetPipes(None);
        return LastValueRemoved;
      }
      assert !erased ==> pipes.value - {v} == pipes.value;
      SetPipes(Some(pipes.value - {v}));
      return if erased then ValuesRemain else NotFound;
    }

    /** Deletes the child at k if the removal below made it redundant, and compacts the table. */
    method PruneAt(k: nat)
      requires Valid() && k < count && min + count <= 256 && next[k] != null
      requires model.next[0].Some? && model.next[count - 1].Some?
      modifies this`next, this`count, this`min, this`liveNodes, this`model, this`parts
      ensures Valid()
      ensures old(model).next[k].Some?
      ensures model == Trim(old(model).(next := old(model).next[k := Prune(old(model).next[k].value)]))
    {
      assert Fits(next[k], parts[k], model.next[k]);
      if next[k].IsRedundant() {
        var c: byte := min + k;
        LiveUpdate(model.next, k, None);
        DropChild(k);
        if count == 1 {
          LiveZero(model.next);
          assert liveNodes == 0;
          FreeTable();
        } else {
          LivePositive(model.next, if k == 0 then count - 1 else 0);
          CompactAfter(c);
        }
      } else {
        assert model.next[k := model.next[k]] == model.next;
        TrimIs(model, 0, count - 1);
        assert model.next[0..count] == model.next;
      }
    }

    /** rm_helper in the child at k, and the pruning of that child. */
    method RmBelow(k: nat, rest: Key, v: T) returns (ret: RmResult)
      requires Valid() && Canonical(model) && k < count && model.next[k].Some?
      modifies repr
      ensures Valid() && repr == old(repr)
      ensures model == RmAt(old(model), k, rest, v).0 && ret == RmAt(old(model), k, rest, v).1
      decreases |rest|, 1
    {
      assert Fits(next[k], parts[k], model.next[k]);
      ret := next[k].RmKeyHelper(rest, v);
      Refresh(k);
      PruneAt(k);
    }

    method RmKeyHelper(prefix: Key, v: T) returns (ret: RmResult)
      requires Valid() && Canonical(model)
      modifies repr
      ensures Valid() && repr == old(repr)
      ensures (model, ret) == MultiTrie.RmKey(old(model), prefix, v)
      decreases |prefix|, 0
    {
      if prefix == [] {
        ret := RmHere(v);
        return;
      }
      var c := prefix[0];
      if count == 0 || c < min || c >= min + count {
        return NotFound;
      }
      var k := if count == 1 then 0 else c - min;
      assert Fits(next[k], parts[k], model.next[k]);
      if next[k] == null {
        return NotFound;
      }
      RmKeyUnfold(model, prefix, v, k);
      ret := RmBelow(k, prefix[1..], v);
    }

    // ---------------------------------------------------------------- removal of a value from all keys

    /** The part of rm_helper that concerns this node's own values. */
    method EraseHere(v: T, buff: PathBuffer, buffsize: nat, log: CallLog, uniq: bool)
      requires Valid() && Canonical(model) && buffsize <= |buff.mem| && log !in repr
      modifies this`pipes, this`model, log
      ensures Valid() && model == Erase(old(model), v)
      ensures log.keys == old(log.keys) + if Reported(old(model), v, uniq) then [buff.mem[..buffsize]] else []
    {
      if pipes.Some? && v in pipes.value {
        var rest := pipes.value - {v};
        assert rest == {} <==> pipes.value == {v};
        if !uniq || rest == {} {
          log.keys := log.keys + [buff.mem[..buffsize]];
        }
        SetPipes(if rest == {} then None else Some(rest));
      }
    }

    /** The recursive call for the child at k, after its byte has been appended to the path. */
    method RmValueBelow(k: nat, v: T, buff: PathBuffer, buffsize: nat, maxbuffsize: nat, log: CallLog, uniq: bool,
                        ghost path: Key)
      requires Valid() && k < count && min + count <= 256 && model.next[k].Some? && Canonical(model.next[k].value)
      requires buff !in repr && log !in repr && buffsize < maxbuffsize <= |buff.mem|
      requires buff.mem[..buffsize] == path
      modifies repr, buff, log
      ensures Valid() && repr == old(repr)
      ensures model == old(model).(next := old(model).next[k := Some(Strip(old(model).next[k].value, v))])
      ensures maxbuffsize <= |buff.mem| && buff.mem[..buffsize] == path
      ensures log.keys == old(log.keys) + Trace(old(model).next[k].value, v, uniq, path + [old(min) + k])
      decreases if k < |model.next| && model.next[k].Some? then model.next[k].value else Empty(), 5
    {
      buff.mem := buff.mem[buffsize := min + k];
      assert buff.mem[..buffsize + 1] == path + [min + k];
      assert Fits(next[k], parts[k], model.next[k]);
      next[k].RmValueHelper(v, buff, buffsize + 1, maxbuffsize, log, uniq, path + [min + k]);
      assert buff.mem[..buffsize] == buff.mem[..buffsize + 1][..buffsize];
      Refresh(k);
    }

    /** The end of rm_helper: the table keeps the range from the first to the last live child. */
    method CompactAll(newMin: byte, newMax: byte)
      requires Valid() && count > 1 && min + count <= 256
      requires min <= newMin <= min + count - 1 && min <= newMax <= min + count - 1
      requires newMin < min + count - 1 ==> model.next[newMin - min].Some?
      requires newMax > min ==> model.next[newMax - min].Some?
      requires forall j | 0 <= j < count && model.next[j].Some? :: newMin <= min + j <= newMax
      modifies this`next, this`count, this`min, this`model, this`parts
      ensures Valid() && model == Trim(old(model))
    {
      LiveZero(model.next);
      if liveNodes == 0 {
        FreeTable();
      } else {
        var live := FirstLive(model.next);
        assert model.next[newMin - min].Some? && model.next[newMax - min].Some?;
        if liveNodes == 1 {
          OnlyOne(model.next, newMin - min);
          assert newMin == newMax;
          Reallocate(newMin - min, 1);
        } else if newMin > min || newMax < min + count - 1 {
          if newMin == newMax {
            OnlyThis(model.next, newMin - min);
          }
          assert newMax - newMin + 1 > 1;
          assert newMax - newMin + 1 < count;
          Reallocate(newMin - min, newMax - newMin + 1);
        } else {
          TrimIs(model, 0, count - 1);
          assert model.next[0..count] == model.next;
        }
      }
    }

    /** One round of the loop over the table; tells whether position c is still in use. */
    method RmValueAt(c: nat, v: T, buff: PathBuffer, buffsize: nat, room: nat, log: CallLog, uniq: bool,
                     ghost path: Key, ghost whole: Trie<T>)
      returns (alive: bool)
      requires Valid() && c < count && min + count <= 256 && c < |whole.next| && model.next[c] == whole.next[c]
      requires model.next[c].Some? ==> Canonical(model.next[c].value)
      requires buff !in repr && log !in repr && buffsize < room <= |buff.mem|
      requires buff.mem[..buffsize] == path
      modifies repr, buff, log
      ensures Valid() && repr == old(repr)
      ensures model == old(model).(next := old(model).next[c := StripChild(old(model).next[c], v)])
      ensures alive <==> model.next[c].Some?
      ensures room <= |buff.mem| && buff.mem[..buffsize] == path
      ensures log.keys == old(log.keys) + ChildTrace(old(model).next[c], v, uniq, path + [old(min) + c])
      decreases whole, 0
    {
      ghost var start := model;
      buff.mem := buff.mem[buffsize := min + c];
      assert buff.mem[..buffsize] == path;
      assert Fits(next[c], parts[c], model.next[c]);
      alive := next[c] != null;
      if alive {
        RmValueBelow(c, v, buff, buffsize, room, log, uniq, path);
        assert Fits(next[c], parts[c], model.next[c]);
        if next[c].IsRedundant() {
          LivePositive(model.next, c);
          DropChild(c);
          alive := false;
        }
        assert model.next == start.next[c := StripChild(start.next[c], v)];
      } else {
        assert model.next == start.next[c := None];
      }
    }

    /** The round of the loop in terms of what has been done before it. */
    method RmValueRound(c: nat, v: T, buff: PathBuffer, buffsize: nat, room: nat, log: CallLog, uniq: bool,
                        ghost path: Key, ghost logged: seq<Key>, ghost start: Trie<T>, ghost whole: Trie<T>)
      returns (alive: bool)
      requires Valid() && Canonical(start) && start.next == whole.next && c < |start.next|
      requires buff !in repr && log !in repr && buffsize < room <= |buff.mem| && buff.mem[..buffsize] == path
      requires model == start.(next := HalfNext(start, v, c))
      requires log.keys == logged + TraceUpTo(start, v, uniq, path, c)
      modifies repr, buff, log
      ensures Valid() && repr == old(repr)
      ensures model == start.(next := HalfNext(start, v, c + 1))
      ensures room <= |buff.mem| && buff.mem[..buffsize] == path
      ensures log.keys == logged + TraceUpTo(start, v, uniq, path, c + 1)
      ensures alive <==> StripChild(start.next[c], v).Some?
      decreases whole, 1
    {
      HalfStep(start, v, c);
      TraceStep(start, v, uniq, path, c);
      Assoc(logged, TraceUpTo(start, v, uniq, path, c), ChildTrace(start.next[c], v, uniq, path + [start.min + c]));
      alive := RmValueAt(c, v, buff, buffsize, room, log, uniq, path, whole);
    }

    /** The range of live positions, extended to c. */
    static method Widen(c: byte, lo: byte, hi: byte) returns (newMin: byte, newMax: byte)
      ensures newMin == (if c < lo then c else lo) && newMax == if c > hi then c else hi
    {
      newMin, newMax := lo, hi;
      if c < newMin {
        newMin := c;
      }
      if c > newMax {
        newMax := c;
      }
    }

    /** The loop over a table of several positions. */
    method RmValueLoop(v: T, buff: PathBuffer, buffsize: nat, room: nat, log: CallLog, uniq: bool, ghost path: Key,
                       ghost whole: Trie<T>)
      returns (newMin: byte, newMax: byte)
      requires Valid() && Canonical(model) && count > 1 && model.next == whole.next
      requires buff !in repr && log !in repr && buffsize < room <= |buff.mem|
      requires buff.mem[..buffsize] == path
      modifies repr, buff, log
      ensures Valid() && repr == old(repr)
      ensures model == old(model).(next := StripNext(old(model), v))
      ensures (newMin, newMax) == MinMax(model.next, min, count)
      ensures room <= |buff.mem| && buff.mem[..buffsize] == path
      ensures log.keys == old(log.keys) + TraceUpTo(old(model), v, uniq, path, |old(model).next|)
      decreases whole, 2
    {
      ghost var start, logged := model, log.keys;
      HalfEnds(start, v);
      ghost var ended := StripNext(start, v);
      newMin := min + count - 1;
      newMax := min;
      for c := 0 to count
        invariant Valid() && repr == old(repr) && model == start.(next := HalfNext(start, v, c))
        invariant room <= |buff.mem| && buff.mem[..buffsize] == path
        invariant log.keys == logged + TraceUpTo(start, v, uniq, path, c)
        invariant newMin == MinMax(ended, start.min, c).0 && newMax == MinMax(ended, start.min, c).1
      {
        MinMaxStep(ended, start.min, c, newMin, newMax);
        assert ended[c] == StripChild(start.next[c], v);
        var alive := RmValueRound(c, v, buff, buffsize, room, log, uniq, path, logged, start, whole);
        if alive {
          newMin, newMax := Widen(c + min, newMin, newMax);
        }
      }
    }

    method RmValueTable(v: T, buff: PathBuffer, buffsize: nat, room: nat, log: CallLog, uniq: bool, ghost path: Key,
                        ghost whole: Trie<T>)
      requires Valid() && Canonical(model) && count > 1 && model.next == whole.next
      requires buff !in repr && log !in repr && buffsize < room <= |buff.mem|
      requires buff.mem[..buffsize] == path
      modifies repr, buff, log
      ensures Valid() && repr == old(repr)
      ensures model == Trim(old(model).(next := StripNext(old(model), v)))
      ensures room <= |buff.mem| && buff.mem[..buffsize] == path
      ensures log.keys == old(log.keys) + TraceUpTo(old(model), v, uniq, path, |old(model).next|)
      decreases whole, 3
    {
      var newMin, newMax := RmValueLoop(v, buff, buffsize, room, log, uniq, path, whole);
      RangeFound(model.next, min, newMin, newMax);
      CompactAll(newMin, newMax);
    }

    method RmValueSingle(v: T, buff: PathBuffer, buffsize: nat, room: nat, log: CallLog, uniq: bool, ghost path: Key,
                         ghost whole: Trie<T>)
      requires Valid() && Canonical(model) && count == 1 && model.next == whole.next
      requires buff !in repr && log !in repr && buffsize < room <= |buff.mem|
      requires buff.mem[..buffsize] == path
      modifies repr, buff, log
      ensures Valid() && repr == old(repr)
      ensures model == Trim(old(model).(next := StripNext(old(model), v)))
      ensures room <= |buff.mem| && buff.mem[..buffsize] == path
      ensures log.keys == old(log.keys) + TraceUpTo(old(model), v, uniq, path, |old(model).next|)
      decreases whole, 1
    {
      SingleFacts(model, v, uniq, path);
      RmValueBelow(0, v, buff, buffsize, room, log, uniq, path);
      assert Fits(next[0], parts[0], model.next[0]);
      PruneAt(0);
    }

    method RmValueHelper(v: T, buff: PathBuffer, buffsize: nat, maxbuffsize: nat, log: CallLog, uniq: bool,
                         ghost path: Key)
      requires Valid() && Canonical(model)
      requires buff !in repr && log !in repr && buffsize <= maxbuffsize <= |buff.mem|
      requires buff.mem[..buffsize] == path
      modifies repr, buff, log
      ensures Valid() && repr == old(repr) && model == Strip(old(model), v)
      ensures maxbuffsize <= |buff.mem| && buff.mem[..buffsize] == path
      ensures log.keys == old(log.keys) + Trace(old(model), v, uniq, path)
      decreases model, 4
    {
      ghost var start := model;
      AssocHere(log.keys, start, v, uniq, path);
      EraseHere(v, buff, buffsize, log, uniq);

      var room := maxbuffsize;
      if buffsize >= room {
        room := buffsize + 256;
        buff.Realloc(room);
        assert buff.mem[..buffsize] == path;
      }

      StripTable(start, v, uniq, path);
      if count == 0 {
        StripLeaf(start, v, uniq, path);
      } else if count == 1 {
        RmValueSingle(v, buff, buffsize, room, log, uniq, path, start);
      } else {
        RmValueTable(v, buff, buffsize, room, log, uniq, path, start);
      }
    }

    // ---------------------------------------------------------------- the public operations

    method Add(prefix: Key, v: T) returns (result: bool)
      requires Valid() && Canonical(model)
      modifies repr
      ensures Valid() && Canonical(model) && fresh(repr - old(repr))
      ensures (model, result) == MultiTrie.Add(old(model), prefix, v)
    {
      AddCanonical(model, prefix, v);
      result := AddHelper(prefix, v);
    }

    method RmKey(prefix: Key, v: T) returns (ret: RmResult)
      requires Valid() && Canonical(model)
      modifies repr
      ensures Valid() && Canonical(model) && repr == old(repr)
      ensures (model, ret) == MultiTrie.RmKey(old(model), prefix, v)
    {
      RmKeyCanonical(model, prefix, v);
      ret := RmKeyHelper(prefix, v);
    }

    /** rm by value; `called` are the arguments of the callback, in order. */
    method RmValue(v: T, uniq: bool) returns (called: seq<Key>)
      requires Valid() && Canonical(model)
      modifies repr
      ensures Valid() && Canonical(model) && repr == old(repr)
      ensures model == Strip(old(model), v) && called == Trace(old(model), v, uniq, [])
    {
      var buff := new PathBuffer();
      var log := new CallLog();
      StripCanonical(model, v);
      RmValueHelper(v, buff, 0, 0, log, uniq, []);
      called := log.keys;
    }

    /** Runs through a set once, in any order. */
    static method Signal(values: set<T>) returns (block: seq<T>)
      ensures multiset(block) == multiset(values)
    {
      block := [];
      var rest := values;
      while rest != {}
        invariant rest <= values && multiset(block) == multiset(values - rest)
        decreases rest
      {
        var v :| v in rest;
        assert values - (rest - {v}) == (values - rest) + {v};
        rest := rest - {v};
        block := block + [v];
      }
      assert values - rest == values;
    }

    /** Calls back for this node's values. */
    method SignalHere(before: seq<T>, ghost done: seq<(nat, set<T>)>, ghost i: nat)
      returns (called: seq<T>, ghost done': seq<(nat, set<T>)>)
      requires Valid() && Calls(before, done)
      ensures done' == (if model.pipes.Some? then done + [(i, model.pipes.value)] else done) && Calls(called, done')
    {
      called, done' := before, done;
      if pipes.Some? {
        var block := Signal(pipes.value);
        CallsSnoc(called, done, block, i, pipes.value);
        called := called + block;
        done' := done + [(i, model.pipes.value)];
      }
    }

    /** The tests by which match goes from this node to the one for byte c, or stops. */
    method Follow(c: byte) returns (child: Node?<T>)
      requires Valid() && Canonical(model)
      ensures child == null <==> !Has(model, c)
      ensures child != null ==> child.Valid() && child.model == Child(model, c) && Canonical(child.model)
    {
      if count == 0 {
        return null;
      }
      if count == 1 {
        if c != min {
          return null;
        }
        assert Fits(next[0], parts[0], model.next[0]);
        return next[0];
      }
      if c < min || c >= min + count {
        return null;
      }
      assert Fits(next[c - min], parts[c - min], model.next[c - min]);
      return next[c - min];
    }

    /** The callback's arguments: for each visited node, its values once each, in any order. */
    method Match(data: Key) returns (called: seq<T>)
      requires Valid() && Canonical(model)
      ensures Calls(called, Hits(model, data, 0))
    {
      called := [];
      var current: Node<T> := this;
      var i := 0;
      ghost var done: seq<(nat, set<T>)> := [];
      assert data[0..] == data;
      while true
        invariant i <= |data| && current.Valid() && Canonical(current.model)
        invariant Calls(called, done) && done + Hits(current.model, data[i..], i) == Hits(model, data, 0)
        decreases |data| - i
      {
        HitsStep(done, current.model, data, i);
        called, done := current.SignalHere(called, done, i);
        if i == |data| {
          break;
        }
        var child := current.Follow(data[i]);
        if child == null {
          break;
        }
        current := child;
        i := i + 1;
      }
    }
  }
}
