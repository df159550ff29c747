/** The multi-trie is canonical, and its operations refine a map from keys to non-empty sets. */
module MultiTrieTheorems {
  import opened Wrappers
  import opened MultiTrie

  // ------------------------------------------------------------------ widening and trimming

  lemma ExtendHas<T>(t: Trie<T>, c: byte, d: byte)
    requires t.next != [] ==> t.min + |t.next| <= 256
    ensures var e := Extend(t, c);
      && e.min + |e.next| <= 256 && e.pipes == t.pipes
      && (Has(e, d) <==> Has(t, d))
      && (Has(t, d) ==> Child(e, d) == Child(t, d))
  {
  }

  lemma ExtendEnds<T>(t: Trie<T>, c: byte)
    requires Canonical(t)
    ensures var e := Extend(t, c);
      && (e.min == c || e.next[0].Some?)
      && (c == e.min + |e.next| - 1 || e.next[|e.next| - 1].Some?)
      && forall i | 0 <= i < |e.next| && e.next[i].Some? :: Canonical(e.next[i].value) && !Redundant(e.next[i].value)
  {
  }

  lemma LivePositive<T>(next: seq<Option<Trie<T>>>, i: nat)
    requires i < |next| && next[i].Some?
    ensures Live(next) > 0
  {
    LiveZero(next);
  }

  lemma TrimHas<T>(t: Trie<T>, c: byte)
    requires t.next != [] ==> t.min + |t.next| <= 256
    ensures var r := Trim(t);
      && r.pipes == t.pipes && (r.next != [] ==> r.min + |r.next| <= 256)
      && (Has(r, c) <==> Has(t, c))
      && (Has(t, c) ==> Child(r, c) == Child(t, c))
  {
    LiveZero(t.next);
  }

  lemma TrimCanonical<T>(t: Trie<T>)
    requires t.pipes.Some? ==> t.pipes.value != {}
    requires t.next != [] ==> t.min + |t.next| <= 256
    requires forall i | 0 <= i < |t.next| && t.next[i].Some? ::
      Canonical(t.next[i].value) && !Redundant(t.next[i].value)
    ensures Canonical(Trim(t))
  {
    if Live(t.next) > 0 {
      var lo, hi := FirstLive(t.next), LastLive(t.next);
      var cut := t.next[lo..hi + 1];
      assert forall i | 0 <= i < |cut| :: cut[i] == t.next[lo + i];
      assert cut[0].Some? && cut[|cut| - 1].Some? && Trim(t).next == cut;
    }
  }

  // ------------------------------------------------------------------ canonical form

  lemma {:induction false} AddCanonical<T>(t: Trie<T>, key: Key, v: T)
    requires Canonical(t)
    ensures Canonical(Add(t, key, v).0) && !Redundant(Add(t, key, v).0)
    decreases |key|
  {
    if key != [] {
      var e := Extend(t, key[0]);
      ExtendHas(t, key[0], key[0]);
      ExtendEnds(t, key[0]);
      AddCanonical(ChildOrEmpty(e, key[0]), key[1..], v);
      LivePositive(Add(t, key, v).0.next, key[0] - e.min);
    }
  }

  lemma {:induction false} RmKeyCanonical<T>(t: Trie<T>, key: Key, v: T)
    requires Canonical(t)
    ensures Canonical(RmKey(t, key, v).0)
    decreases |key|
  {
    if key != [] && Has(t, key[0]) {
      RmKeyCanonical(Child(t, key[0]), key[1..], v);
      TrimCanonical(t.(next := t.next[key[0] - t.min := Prune(RmKey(Child(t, key[0]), key[1..], v).0)]));
    }
  }

  function Stripped<T>(t: Trie<T>, v: T): Trie<T>
    requires Canonical(t)
  {
    Erase(t, v).(next := StripNext(t, v))
  }

  lemma {:induction false} StripCanonical<T>(t: Trie<T>, v: T)
    requires Canonical(t)
    ensures Canonical(Strip(t, v))
    decreases t
  {
    forall i | 0 <= i < |t.next| && Stripped(t, v).next[i].Some?
      ensures Canonical(Stripped(t, v).next[i].value) && !Redundant(Stripped(t, v).next[i].value)
    {
      StripCanonical(t.next[i].value, v);
    }
    TrimCanonical(Stripped(t, v));
  }

  /** A node that is not redundant holds something somewhere. */
  lemma {:induction false} SomeKey<T>(t: Trie<T>) returns (key: Key)
    requires Canonical(t) && !Redundant(t)
    ensures Lookup(t, key) != {}
    decreases t
  {
    if t.pipes.Some? {
      return [];
    }
    var rest := SomeKey(t.next[FirstLive(t.next)].value);
    key := [t.min + FirstLive(t.next)] + rest;
    assert key[1..] == rest;
  }

  /** Equal nodes, up to the stale `min` of childless ones. */
  ghost predicate Same<T>(t: Trie<T>, u: Trie<T>) {
    && t.pipes == u.pipes && |t.next| == |u.next| && (t.next != [] ==> t.min == u.min)
    && forall i | 0 <= i < |t.next| :: t.next[i].Some? == u.next[i].Some? &&
         (t.next[i].Some? ==> Same(t.next[i].value, u.next[i].value))
  }

  ghost predicate SameContents<T(!new)>(t: Trie<T>, u: Trie<T>) {
    forall key :: Lookup(t, key) == Lookup(u, key)
  }

  lemma ContentsBelow<T>(t: Trie<T>, c: byte, rest: Key)
    ensures Lookup(t, [c] + rest) == if Has(t, c) then Lookup(Child(t, c), rest) else {}
  {
    assert ([c] + rest)[1..] == rest;
  }

  lemma SameChildren<T(!new)>(t: Trie<T>, u: Trie<T>, c: byte)
    requires Canonical(t) && Canonical(u) && SameContents(t, u) && Has(t, c)
    ensures Has(u, c) && SameContents(Child(t, c), Child(u, c))
  {
    var key := SomeKey(Child(t, c));
    ContentsBelow(t, c, key);
    ContentsBelow(u, c, key);
    assert Lookup(t, [c] + key) == Lookup(u, [c] + key);
    forall rest
      ensures Lookup(Child(t, c), rest) == Lookup(Child(u, c), rest)
    {
      ContentsBelow(t, c, rest);
      ContentsBelow(u, c, rest);
      assert Lookup(t, [c] + rest) == Lookup(u, [c] + rest);
    }
  }

  /** Two tries with the same contents are the same trie, whatever operations led to them. */
  lemma {:induction false} ContentsDetermineShape<T(!new)>(t: Trie<T>, u: Trie<T>)
    requires Canonical(t) && Canonical(u) && SameContents(t, u)
    ensures Same(t, u)
    decreases t
  {
    assert Lookup(t, []) == Lookup(u, []);
    if t.next != [] {
      SameChildren(t, u, t.min);
      SameChildren(t, u, t.min + |t.next| - 1);
    }
    if u.next != [] {
      SameChildren(u, t, u.min);
      SameChildren(u, t, u.min + |u.next| - 1);
    }
    forall i | 0 <= i < |t.next|
      ensures t.next[i].Some? == u.next[i].Some? && (t.next[i].Some? ==> Same(t.next[i].value, u.next[i].value))
    {
      if t.next[i].Some? {
        SameChildren(t, u, t.min + i);
        ContentsDetermineShape(t.next[i].value, u.next[i].value);
      } else if u.next[i].Some? {
        SameChildren(u, t, u.min + i);
      }
    }
  }

  // ------------------------------------------------------------------ what the operations do to the map

  /** Replacing the child for byte c touches nothing else. */
  lemma SetChildHas<T>(t: Trie<T>, c: byte, x: Option<Trie<T>>, d: byte)
    requires t.min <= c < t.min + |t.next|
    ensures var u := t.(next := t.next[c - t.min := x]);
      && (Has(u, d) <==> if d == c then x.Some? else Has(t, d))
      && (Has(u, d) ==> Child(u, d) == if d == c then x.value else Child(t, d))
  {
  }

  lemma AddUnfold<T>(t: Trie<T>, key: Key, v: T)
    requires Canonical(t) && key != []
    ensures var e := Extend(t, key[0]);
      && Add(t, key, v).0 == e.(next := e.next[key[0] - e.min := Some(Add(ChildOrEmpty(t, key[0]), key[1..], v).0)])
      && Add(t, key, v).1 == Add(ChildOrEmpty(t, key[0]), key[1..], v).1
  {
    ExtendHas(t, key[0], key[0]);
  }

  lemma AddHas<T>(t: Trie<T>, key: Key, v: T, d: byte)
    requires Canonical(t) && key != []
    ensures var r := Add(t, key, v).0;
      && (Has(r, d) <==> d == key[0] || Has(t, d))
      && (d == key[0] ==> Child(r, d) == Add(ChildOrEmpty(t, d), key[1..], v).0)
      && (Has(t, d) && d != key[0] ==> Child(r, d) == Child(t, d))
    ensures Add(t, key, v).0.pipes == t.pipes
  {
    AddUnfold(t, key, v);
    ExtendHas(t, key[0], d);
    SetChildHas(Extend(t, key[0]), key[0], Some(Add(ChildOrEmpty(t, key[0]), key[1..], v).0), d);
  }

  lemma SplitEqual(k: Key, key: Key)
    requires k != [] && key != []
    ensures k == key <==> k[0] == key[0] && k[1..] == key[1..]
  {
    assert k == [k[0]] + k[1..] && key == [key[0]] + key[1..];
  }

  /** Adding changes the set of one key only, and reports whether that key was new. */
  lemma {:induction false} AddLookup<T>(t: Trie<T>, key: Key, v: T, k: Key)
    requires Canonical(t)
    ensures Lookup(Add(t, key, v).0, k) == Lookup(t, k) + if k == key then {v} else {}
    ensures Add(t, key, v).1 <==> Lookup(t, key) == {}
    decreases |key|
  {
    if key != [] {
      AddUnfold(t, key, v);
      AddHas(t, key, v, key[0]);
      AddLookup(ChildOrEmpty(t, key[0]), key[1..], v, if k == [] then [] else k[1..]);
      if k != [] {
        AddHas(t, key, v, k[0]);
        SplitEqual(k, key);
      }
    }
  }

  lemma RmKeyHas<T>(t: Trie<T>, key: Key, v: T, d: byte)
    requires Canonical(t) && key != [] && Has(t, key[0])
    ensures var r := RmKey(t, key, v).0;
      var child := RmKey(Child(t, key[0]), key[1..], v).0;
      && r.pipes == t.pipes
      && (d != key[0] ==> (Has(r, d) <==> Has(t, d)) && (Has(t, d) ==> Child(r, d) == Child(t, d)))
      && (d == key[0] ==> (Has(r, d) <==> !Redundant(child)) && (Has(r, d) ==> Child(r, d) == child))
  {
    var child := RmKey(Child(t, key[0]), key[1..], v).0;
    SetChildHas(t, key[0], Prune(child), d);
    TrimHas(t.(next := t.next[key[0] - t.min := Prune(child)]), d);
  }

  /** Removing an entry changes the set of one key only; the result tells what became of it. */
  lemma {:induction false} RmKeyLookup<T>(t: Trie<T>, key: Key, v: T, k: Key)
    requires Canonical(t)
    ensures Lookup(RmKey(t, key, v).0, k) == Lookup(t, k) - if k == key then {v} else {}
    ensures RmKey(t, key, v).1 ==
      if v !in Lookup(t, key) then NotFound
      else if Lookup(t, key) == {v} then LastValueRemoved else ValuesRemain
    decreases |key|
  {
    if key != [] && Has(t, key[0]) {
      RmKeyHas(t, key, v, key[0]);
      RmKeyLookup(Child(t, key[0]), key[1..], v, if k == [] then [] else k[1..]);
      if k != [] {
        RmKeyHas(t, key, v, k[0]);
        SplitEqual(k, key);
        RedundantIsEmpty(RmKey(Child(t, key[0]), key[1..], v).0, k[1..]);
      }
    }
  }

  lemma RedundantIsEmpty<T>(t: Trie<T>, k: Key)
    ensures Redundant(t) ==> Lookup(t, k) == {}
  {
    LiveZero(t.next);
  }

  lemma {:induction false} StripLookup<T>(t: Trie<T>, v: T, k: Key)
    requires Canonical(t)
    ensures Lookup(Strip(t, v), k) == Lookup(t, k) - {v}
    decreases |k|
  {
    var u := Stripped(t, v);
    if k == [] {
      TrimHas(u, 0);
    } else {
      TrimHas(u, k[0]);
      if Has(t, k[0]) {
        StripLookup(Child(t, k[0]), v, k[1..]);
        RedundantIsEmpty(Strip(Child(t, k[0]), v), k[1..]);
      }
    }
  }

  // ------------------------------------------------------------------ the callbacks of rm by value

  /** a and b agree before n; there a ends or has the smaller byte. */
  predicate SplitsAt(a: Key, b: Key, n: nat) {
    n <= |a| && n < |b| && a[..n] == b[..n] && (n == |a| || a[n] < b[n])
  }

  /** Strict lexicographic order. */
  ghost predicate Less(a: Key, b: Key) {
    exists n :: SplitsAt(a, b, n)
  }

  ghost predicate Sorted(keys: seq<Key>) {
    forall i, j | 0 <= i < j < |keys| :: Less(keys[i], keys[j])
  }

  predicate Extends(x: Key, path: Key) {
    |path| <= |x| && x[..|path|] == path
  }

  predicate ExtendsBelow(x: Key, path: Key, c: nat) {
    |path| < |x| && x[..|path|] == path && x[|path|] < c
  }

  lemma {:induction false} TraceExtends<T>(t: Trie<T>, v: T, uniq: bool, path: Key, x: Key)
    requires Canonical(t) && x in Trace(t, v, uniq, path)
    ensures Extends(x, path)
    decreases t, |t.next| + 1
  {
    if x in TraceUpTo(t, v, uniq, path, |t.next|) {
      TraceUpToExtends(t, v, uniq, path, |t.next|, x);
    } else {
      assert x == path;
    }
  }

  lemma ExtendsHere(x: Key, path: Key, c: byte)
    requires Extends(x, path + [c])
    ensures ExtendsBelow(x, path, c + 1) && x[|path|] == c
  {
    assert x[..|path|] == (path + [c])[..|path|];
    assert x[|path|] == (path + [c])[|path|];
  }

  lemma {:induction false} TraceUpToExtends<T>(t: Trie<T>, v: T, uniq: bool, path: Key, n: nat, x: Key)
    requires Canonical(t) && n <= |t.next| && x in TraceUpTo(t, v, uniq, path, n)
    ensures ExtendsBelow(x, path, t.min + n)
    decreases t, n
  {
    if n == 0 {
      NothingYet(t, v, uniq, path, x);
    } else {
      var i := n - 1;
      TraceUpToMember(t, v, uniq, path, i, x);
      if x in TraceUpTo(t, v, uniq, path, i) {
        TraceUpToExtends(t, v, uniq, path, i, x);
      } else {
        TraceExtends(t.next[i].value, v, uniq, path + [t.min + i], x);
        ExtendsHere(x, path, t.min + i);
      }
    }
  }

  lemma NothingYet<T>(t: Trie<T>, v: T, uniq: bool, path: Key, x: Key)
    requires Canonical(t)
    ensures x !in TraceUpTo(t, v, uniq, path, 0)
  {
  }

  lemma {:induction false} TraceSorted<T>(t: Trie<T>, v: T, uniq: bool, path: Key)
    requires Canonical(t)
    ensures Sorted(Trace(t, v, uniq, path))
    decreases t, |t.next| + 1
  {
    TraceUpToSorted(t, v, uniq, path, |t.next|);
    var rest := TraceUpTo(t, v, uniq, path, |t.next|);
    forall j | 0 <= j < |rest|
      ensures Less(path, rest[j])
    {
      TraceUpToExtends(t, v, uniq, path, |t.next|, rest[j]);
      assert SplitsAt(path, rest[j], |path|);
    }
  }

  lemma SortedConcat(a: seq<Key>, b: seq<Key>)
    requires Sorted(a) && Sorted(b)
    requires forall i, j | 0 <= i < |a| && 0 <= j < |b| :: Less(a[i], b[j])
    ensures Sorted(a + b)
  {
  }

  lemma {:induction false} TraceUpToSorted<T>(t: Trie<T>, v: T, uniq: bool, path: Key, n: nat)
    requires Canonical(t) && n <= |t.next|
    ensures Sorted(TraceUpTo(t, v, uniq, path, n))
    decreases t, n
  {
    if n > 0 {
      TraceUpToSorted(t, v, uniq, path, n - 1);
      if t.next[n - 1].Some? {
        var here := path + [t.min + (n - 1)];
        var before := TraceUpTo(t, v, uniq, path, n - 1);
        var last := Trace(t.next[n - 1].value, v, uniq, here);
        TraceSorted(t.next[n - 1].value, v, uniq, here);
        forall a, b | 0 <= a < |before| && 0 <= b < |last|
          ensures Less(before[a], last[b])
        {
          TraceUpToExtends(t, v, uniq, path, n - 1, before[a]);
          TraceExtends(t.next[n - 1].value, v, uniq, here, last[b]);
          ExtendsHere(last[b], path, t.min + (n - 1));
          assert SplitsAt(before[a], last[b], |path|);
        }
        SortedConcat(before, last);
      }
    }
  }

  /** v is stored in the set, and alone in it if only last removals are reported. */
  predicate ToReport<T>(s: set<T>, v: T, uniq: bool) {
    v in s && (uniq ==> s == {v})
  }

  lemma NotAlong(path: Key, k: Key, c: byte)
    requires k != [] && k[0] != c
    ensures !Extends(path + k, path + [c])
  {
    assert (path + k)[..|path| + 1][|path|] == k[0];
  }

  lemma {:induction false} TraceExact<T>(t: Trie<T>, v: T, uniq: bool, path: Key, k: Key)
    requires Canonical(t)
    ensures path + k in Trace(t, v, uniq, path) <==> ToReport(Lookup(t, k), v, uniq)
    decreases t, |t.next| + 2
  {
    if k == [] {
      assert path + k == path;
      if path in TraceUpTo(t, v, uniq, path, |t.next|) {
        TraceUpToExtends(t, v, uniq, path, |t.next|, path);
      }
    } else {
      assert path + k != path;
      TraceUpToExact(t, v, uniq, path, |t.next|, k);
      if !Has(t, k[0]) {
        NotStored(t, k, v, uniq);
      }
    }
  }

  lemma {:induction false} TraceAtExact<T>(t: Trie<T>, v: T, uniq: bool, path: Key, i: nat, k: Key)
    requires Canonical(t) && k != [] && i < |t.next| && t.next[i].Some?
    ensures path + k in Trace(t.next[i].value, v, uniq, path + [t.min + i])
      <==> k[0] == t.min + i && ToReport(Lookup(t, k), v, uniq)
    decreases t, 0
  {
    var here := path + [t.min + i];
    if k[0] == t.min + i {
      TraceExact(t.next[i].value, v, uniq, here, k[1..]);
      assert here + k[1..] == path + k;
    } else if path + k in Trace(t.next[i].value, v, uniq, here) {
      NotAlong(path, k, t.min + i);
      TraceExtends(t.next[i].value, v, uniq, here, path + k);
    }
  }

  lemma TraceUpToMember<T>(t: Trie<T>, v: T, uniq: bool, path: Key, i: nat, x: Key)
    requires Canonical(t) && i < |t.next|
    ensures x in TraceUpTo(t, v, uniq, path, i + 1) <==>
      x in TraceUpTo(t, v, uniq, path, i)
        || (t.next[i].Some? && x in Trace(t.next[i].value, v, uniq, path + [t.min + i]))
  {
  }

  lemma NotStored<T>(t: Trie<T>, k: Key, v: T, uniq: bool)
    requires k != [] && !Has(t, k[0])
    ensures !ToReport(Lookup(t, k), v, uniq)
  {
  }

  lemma {:induction false} TraceUpToExact<T>(t: Trie<T>, v: T, uniq: bool, path: Key, n: nat, k: Key)
    requires Canonical(t) && k != [] && n <= |t.next|
    ensures path + k in TraceUpTo(t, v, uniq, path, n)
      <==> t.min <= k[0] < t.min + n && ToReport(Lookup(t, k), v, uniq)
    decreases t, n + 1
  {
    if n == 0 {
      NothingYet(t, v, uniq, path, path + k);
    } else {
      TraceUpToExact(t, v, uniq, path, n - 1, k);
      TraceStepExact(t, v, uniq, path, n - 1, k);
    }
  }

  lemma {:induction false} TraceStepExact<T>(t: Trie<T>, v: T, uniq: bool, path: Key, i: nat, k: Key)
    requires Canonical(t) && k != [] && i < |t.next|
    ensures path + k in TraceUpTo(t, v, uniq, path, i + 1) <==>
      path + k in TraceUpTo(t, v, uniq, path, i) || (k[0] == t.min + i && ToReport(Lookup(t, k), v, uniq))
    decreases t, 1
  {
    TraceUpToMember(t, v, uniq, path, i, path + k);
    if t.next[i].Some? {
      TraceAtExact(t, v, uniq, path, i, k);
    } else if k[0] == t.min + i {
      NotStored(t, k, v, uniq);
    }
  }

  /** rm by value reports, in lexicographic order and once each, exactly the keys that held the
      value (or held nothing else), and takes the value out of every key. */
  lemma RmValueExact<T>(t: Trie<T>, v: T, uniq: bool, k: Key)
    requires Canonical(t)
    ensures Sorted(Trace(t, v, uniq, []))
    ensures k in Trace(t, v, uniq, []) <==> ToReport(Lookup(t, k), v, uniq)
    ensures Lookup(Strip(t, v), k) == Lookup(t, k) - {v}
  {
    TraceSorted(t, v, uniq, []);
    TraceExact(t, v, uniq, [], k);
    assert [] + k == k;
    StripLookup(t, v, k);
  }

  // ------------------------------------------------------------------ match

  lemma {:induction false} HitsOrdered<T>(t: Trie<T>, data: Key, depth: nat)
    ensures forall h | h in Hits(t, data, depth) :: depth <= h.0
    ensures forall i, j | 0 <= i < j < |Hits(t, data, depth)| :: Hits(t, data, depth)[i].0 < Hits(t, data, depth)[j].0
    decreases |data|
  {
    if data != [] && Has(t, data[0]) {
      var rest := Hits(Child(t, data[0]), data[1..], depth + 1);
      HitsOrdered(Child(t, data[0]), data[1..], depth + 1);
      assert forall j | 0 <= j < |rest| :: rest[j] in rest;
    }
  }

  lemma HitsHere<T>(t: Trie<T>, data: Key, depth: nat, s: set<T>)
    requires Canonical(t)
    ensures (depth, s) in Hits(t, data, depth) <==> Lookup(t, []) == s && s != {}
  {
    if data != [] && Has(t, data[0]) {
      HitsOrdered(Child(t, data[0]), data[1..], depth + 1);
    }
  }

  lemma HitsBelow<T>(t: Trie<T>, data: Key, depth: nat, at: nat, s: set<T>)
    requires depth < at
    ensures (at, s) in Hits(t, data, depth) <==>
      data != [] && Has(t, data[0]) && (at, s) in Hits(Child(t, data[0]), data[1..], depth + 1)
  {
  }

  lemma LookupBelow<T>(t: Trie<T>, data: Key, n: nat)
    requires 0 < n <= |data|
    ensures Lookup(t, data[..n]) == if Has(t, data[0]) then Lookup(Child(t, data[0]), data[1..][..n - 1]) else {}
  {
    assert data[..n] == [data[0]] + data[1..][..n - 1];
    ContentsBelow(t, data[0], data[1..][..n - 1]);
  }

  predicate IsHit<T>(t: Trie<T>, data: Key, n: nat, s: set<T>) {
    n <= |data| && Lookup(t, data[..n]) == s && s != {}
  }

  /** match visits the prefixes of the data that are keys, shortest first, with their values. */
  lemma {:induction false} HitsExact<T>(t: Trie<T>, data: Key, depth: nat, at: nat, s: set<T>)
    requires Canonical(t) && depth <= at
    ensures (at, s) in Hits(t, data, depth) <==> IsHit(t, data, at - depth, s)
    decreases |data|
  {
    if at == depth {
      HitsHere(t, data, depth, s);
      assert data[..0] == [];
    } else {
      HitsBelow(t, data, depth, at, s);
      if at - depth <= |data| {
        LookupBelow(t, data, at - depth);
      }
      if data != [] && Has(t, data[0]) {
        HitsExact(Child(t, data[0]), data[1..], depth + 1, at, s);
      }
    }
  }

  // ------------------------------------------------------------------ histories

  datatype Op<T> = OpAdd(key: Key, v: T) | OpRmKey(key: Key, v: T) | OpRmValue(v: T)

  function Apply<T>(t: Trie<T>, op: Op<T>): Trie<T>
    requires Canonical(t)
  {
    match op
    case OpAdd(key, v) => Add(t, key, v).0
    case OpRmKey(key, v) => RmKey(t, key, v).0
    case OpRmValue(v) => Strip(t, v)
  }

  /** The trie after a history, starting from the empty one. */
  function History<T>(ops: seq<Op<T>>): (t: Trie<T>)
    ensures Canonical(t)
  {
    if ops == [] then Empty()
    else
      var t := History(ops[..|ops| - 1]);
      var op := ops[|ops| - 1];
      ApplyCanonical(t, op);
      Apply(t, op)
  }

  lemma ApplyCanonical<T>(t: Trie<T>, op: Op<T>)
    requires Canonical(t)
    ensures Canonical(Apply(t, op))
  {
    match op
    case OpAdd(key, v) => AddCanonical(t, key, v);
    case OpRmKey(key, v) => RmKeyCanonical(t, key, v);
    case OpRmValue(v) => StripCanonical(t, v);
  }

  function Get<T>(m: map<Key, set<T>>, k: Key): set<T> {
    if k in m then m[k] else {}
  }

  function ApplyMap<T>(m: map<Key, set<T>>, op: Op<T>): map<Key, set<T>> {
    match op
    case OpAdd(key, v) => m[key := Get(m, key) + {v}]
    case OpRmKey(key, v) => if Get(m, key) <= {v} then m - {key} else m[key := Get(m, key) - {v}]
    case OpRmValue(v) => map k | k in m && m[k] != {v} :: m[k] - {v}
  }

  ghost predicate NoEmptySet<T>(m: map<Key, set<T>>) {
    forall key | key in m :: m[key] != {}
  }

  lemma ApplyRefines<T>(t: Trie<T>, m: map<Key, set<T>>, op: Op<T>, k: Key)
    requires Canonical(t) && Lookup(t, k) == Get(m, k) && NoEmptySet(m)
    ensures Lookup(Apply(t, op), k) == Get(ApplyMap(m, op), k) && NoEmptySet(ApplyMap(m, op))
  {
    match op
    case OpAdd(key, v) => AddLookup(t, key, v, k);
    case OpRmKey(key, v) => RmKeyLookup(t, key, v, k);
    case OpRmValue(v) => StripLookup(t, v, k);
  }

  /** The same history on a plain map that never stores an empty set. */
  function MapHistory<T>(ops: seq<Op<T>>): (m: map<Key, set<T>>) {
    if ops == [] then map[] else ApplyMap(MapHistory(ops[..|ops| - 1]), ops[|ops| - 1])
  }

  /** After any history the trie holds what the map holds. */
  lemma {:induction false} HistoryRefinesMap<T>(ops: seq<Op<T>>, k: Key)
    ensures Lookup(History(ops), k) == Get(MapHistory(ops), k)
    ensures NoEmptySet(MapHistory(ops))
  {
    if ops != [] {
      HistoryRefinesMap(ops[..|ops| - 1], k);
      ApplyRefines(History(ops[..|ops| - 1]), MapHistory(ops[..|ops| - 1]), ops[|ops| - 1], k);
    }
  }

  /** Histories that leave the same map leave the same trie. */
  lemma HistoryIndependent<T(!new)>(first: seq<Op<T>>, second: seq<Op<T>>)
    requires MapHistory(first) == MapHistory(second)
    ensures Same(History(first), History(second))
  {
    forall k
      ensures Lookup(History(first), k) == Lookup(History(second), k)
    {
      HistoryRefinesMap(first, k);
      HistoryRefinesMap(second, k);
    }
    ContentsDetermineShape(History(first), History(second));
  }
}
