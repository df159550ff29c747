/**
 generic_mtrie_t on values: what each operation makes of a compressed byte trie, and the map
 from byte strings to sets that the trie stands for.

 `next` has an entry for each byte of the range [min, min + |next|); its length is the source's
 `count`. A null pointer is None. `min` is meaningless while `next` is empty, and may be stale.
 */
module MultiTrie {
  import opened Wrappers

  type byte = b: nat | b < 256
  type Key = seq<byte>

  datatype Trie<T> = Trie(pipes: Option<set<T>>, min: byte, next: seq<Option<Trie<T>>>)

  datatype RmResult = NotFound | LastValueRemoved | ValuesRemain

  function Empty<T>(): Trie<T> { Trie(None, 0, []) }

  function Live<T>(next: seq<Option<Trie<T>>>): nat {
    if next == [] then 0 else Live(next[1..]) + if next[0].Some? then 1 else 0
  }

  predicate Redundant<T>(t: Trie<T>) {
    t.pipes.None? && Live(t.next) == 0
  }

  /** The representation invariant of a node and everything below it. */
  ghost predicate Canonical<T>(t: Trie<T>) {
    && (t.pipes.Some? ==> t.pipes.value != {})
    && (t.next != [] ==> t.min + |t.next| <= 256 && t.next[0].Some? && t.next[|t.next| - 1].Some?)
    && forall i {:trigger Canonical(t.next[i].value)} {:trigger Redundant(t.next[i].value)}
         | 0 <= i < |t.next| && t.next[i].Some? :: Canonical(t.next[i].value) && !Redundant(t.next[i].value)
  }

  predicate Has<T>(t: Trie<T>, c: byte) {
    t.min <= c < t.min + |t.next| && t.next[c - t.min].Some?
  }

  function Child<T>(t: Trie<T>, c: byte): Trie<T>
    requires Has(t, c)
  {
    t.next[c - t.min].value
  }

  function ChildOrEmpty<T>(t: Trie<T>, c: byte): Trie<T> {
    if Has(t, c) then Child(t, c) else Empty()
  }

  /** The set stored under a key; empty when the key is absent. */
  function Lookup<T>(t: Trie<T>, key: Key): set<T>
    decreases |key|
  {
    if key == [] then (if t.pipes.Some? then t.pipes.value else {})
    else if Has(t, key[0]) then Lookup(Child(t, key[0]), key[1..])
    else {}
  }

  // ------------------------------------------------------------------ operations

  function Nones<T>(n: nat): (r: seq<Option<Trie<T>>>) {
    seq(n, _ => None)
  }

  /** Widens the range of handled bytes so that it includes c. */
  function Extend<T>(t: Trie<T>, c: byte): (r: Trie<T>)
    ensures r.min <= c < r.min + |r.next|
  {
    if t.min <= c < t.min + |t.next| then t
    else if t.next == [] then Trie(t.pipes, c, [None])
    else if t.min < c then t.(next := t.next + Nones(c - t.min + 1 - |t.next|))
    else t.(min := c, next := Nones(t.min - c) + t.next)
  }

  function Add<T>(t: Trie<T>, key: Key, v: T): (r: (Trie<T>, bool))
    decreases |key|
  {
    if key == [] then
      (t.(pipes := Some((if t.pipes.Some? then t.pipes.value else {}) + {v})), t.pipes.None?)
    else
      var e := Extend(t, key[0]);
      var (child, added) := Add(ChildOrEmpty(e, key[0]), key[1..], v);
      (e.(next := e.next[key[0] - e.min := Some(child)]), added)
  }

  function FirstLive<T>(next: seq<Option<Trie<T>>>): (i: nat)
    requires Live(next) > 0
    ensures i < |next| && next[i].Some? && forall j | 0 <= j < i :: next[j].None?
  {
    if next[0].Some? then 0
    else
      assert forall j | 0 < j < |next| :: next[j] == next[1..][j - 1];
      1 + FirstLive(next[1..])
  }

  function LastLive<T>(next: seq<Option<Trie<T>>>): (i: nat)
    requires Live(next) > 0
    ensures i < |next| && next[i].Some? && forall j | i < j < |next| :: next[j].None?
  {
    if Live(next[1..]) > 0 then
      var i := LastLive(next[1..]);
      assert forall j | 0 < j < |next| :: next[j] == next[1..][j - 1];
      1 + i
    else
      LiveZero(next[1..]);
      assert forall j | 0 < j < |next| :: next[j] == next[1..][j - 1];
      0
  }

  lemma {:induction false} LiveZero<T>(next: seq<Option<Trie<T>>>)
    ensures Live(next) == 0 <==> forall i | 0 <= i < |next| :: next[i].None?
  {
    if next != [] {
      LiveZero(next[1..]);
      assert forall i | 0 < i < |next| :: next[i] == next[1..][i - 1];
    }
  }

  /** Cuts the range down to the live children; no live child leaves no table and a stale min. */
  function Trim<T>(t: Trie<T>): (r: Trie<T>)
    requires |t.next| > 0 ==> t.min + |t.next| <= 256
  {
    if Live(t.next) == 0 then t.(next := [])
    else
      var lo, hi := FirstLive(t.next), LastLive(t.next);
      assert lo <= hi;
      t.(min := t.min + lo, next := t.next[lo..hi + 1])
  }

  function Prune<T>(t: Trie<T>): Option<Trie<T>> {
    if Redundant(t) then None else Some(t)
  }

  function Erase<T>(t: Trie<T>, v: T): (r: Trie<T>) {
    if t.pipes.Some? && v in t.pipes.value then
      t.(pipes := if t.pipes.value == {v} then None else Some(t.pipes.value - {v}))
    else t
  }

  function RmKey<T>(t: Trie<T>, key: Key, v: T): (r: (Trie<T>, RmResult))
    requires Canonical(t)
    decreases |key|
  {
    if key == [] then
      (Erase(t, v),
       if t.pipes.None? || v !in t.pipes.value then NotFound
       else if t.pipes.value == {v} then LastValueRemoved else ValuesRemain)
    else if !Has(t, key[0]) then (t, NotFound)
    else
      var (child, r) := RmKey(Child(t, key[0]), key[1..], v);
      (Trim(t.(next := t.next[key[0] - t.min := Prune(child)])), r)
  }

  function StripChild<T>(child: Option<Trie<T>>, v: T): Option<Trie<T>>
    requires child.Some? ==> Canonical(child.value)
    decreases child, 1
  {
    if child.None? then None else Prune(Strip(child.value, v))
  }

  function StripNext<T>(t: Trie<T>, v: T): (r: seq<Option<Trie<T>>>)
    requires Canonical(t)
    ensures |r| == |t.next| && forall i {:trigger r[i]} | 0 <= i < |r| :: r[i] == StripChild(t.next[i], v)
    decreases t, 0
  {
    seq(|t.next|, i requires 0 <= i < |t.next| => StripChild(t.next[i], v))
  }

  /** Removes v from every key. */
  function Strip<T>(t: Trie<T>, v: T): (r: Trie<T>)
    requires Canonical(t)
    decreases t, 1
  {
    Trim(Erase(t, v).(next := StripNext(t, v)))
  }

  /** The keys the callback receives at a node: v was there, and was the last value if `uniq`. */
  predicate Reported<T>(t: Trie<T>, v: T, uniq: bool) {
    t.pipes.Some? && v in t.pipes.value && (uniq ==> t.pipes.value == {v})
  }

  /** The callback's arguments, in order, when v is removed from everywhere below `path`. */
  function Trace<T>(t: Trie<T>, v: T, uniq: bool, path: Key): (r: seq<Key>)
    requires Canonical(t)
    decreases t, |t.next| + 1
  {
    (if Reported(t, v, uniq) then [path] else []) + TraceUpTo(t, v, uniq, path, |t.next|)
  }

  /** The callbacks made below the first n positions of a node's table. */
  function TraceUpTo<T>(t: Trie<T>, v: T, uniq: bool, path: Key, n: nat): (r: seq<Key>)
    requires Canonical(t) && n <= |t.next|
    decreases t, n
  {
    if n == 0 then []
    else
      var i := n - 1;
      TraceUpTo(t, v, uniq, path, i)
      + if t.next[i].Some? then Trace(t.next[i].value, v, uniq, path + [t.min + i]) else []
  }

  /** The visited nodes that hold values: (length of the key, values), shortest key first. */
  function Hits<T>(t: Trie<T>, data: Key, depth: nat): (r: seq<(nat, set<T>)>)
    decreases |data|
  {
    (if t.pipes.Some? then [(depth, t.pipes.value)] else [])
    + if data != [] && Has(t, data[0]) then Hits(Child(t, data[0]), data[1..], depth + 1) else []
  }
}
