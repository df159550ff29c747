/**
 * The array of pipes whose items store their own position (array.hpp), and as much of pipe_t as its
 * users in dist.cpp, fq.cpp and lb.cpp see: a queue of frames in each direction whose reads and
 * writes may fail.
 */
module Pipes {
  import opened Messages
  import opened MessageObjects

  /** `incoming` can be read now; `outgoing` has been written, its first `flushed` frames for good.
      `room` says whether a write would be accepted; the other end changes it at will. */
  class Pipe {
    var arrayIndex: int
    var incoming: seq<Value>
    var outgoing: seq<Value>
    var flushed: nat
    var room: bool

    /** Everything written, and how much of it for good. */
    ghost function Out(): (seq<Value>, nat) reads this`outgoing, this`flushed {
      (outgoing, flushed)
    }

    constructor ()
      ensures arrayIndex == -1 && incoming == [] && outgoing == [] && flushed == 0 && room
    {
      arrayIndex, incoming, outgoing, flushed, room := -1, [], [], 0, true;
    }

    method CheckRead() returns (ready: bool)
      ensures ready == (incoming != [])
    {
      ready := incoming != [];
    }

    method Read(msg: Msg) returns (ok: bool)
      modifies this`incoming, msg
      ensures ok == (old(incoming) != [])
      ensures ok ==> msg.View() == old(incoming[0]) && incoming == old(incoming[1..])
      ensures !ok ==> msg.View() == old(msg.View()) && incoming == old(incoming)
    {
      ok := incoming != [];
      if ok {
        msg.Assign(incoming[0]);
        incoming := incoming[1..];
      }
    }

    method CheckWrite() returns (ready: bool)
      ensures ready == room
    {
      ready := room;
    }

    method Write(v: Value) returns (ok: bool)
      modifies this`outgoing
      ensures ok == room
      ensures outgoing == if ok then old(outgoing) + [v] else old(outgoing)
    {
      ok := room;
      if ok {
        outgoing := outgoing + [v];
      }
    }

    method Flush()
      modifies this`flushed
      ensures flushed == |outgoing|
    {
      flushed := |outgoing|;
    }

    /** Takes back the frames of the incomplete message. */
    method Rollback()
      modifies this`outgoing
      ensures outgoing == if flushed <= |old(outgoing)| then old(outgoing[..flushed]) else old(outgoing)
    {
      if flushed <= |outgoing| {
        outgoing := outgoing[..flushed];
      }
    }
  }

  /** One frame written; the last frame of a message is flushed. */
  function Sent<C>(out: (seq<Message<C>>, nat), v: Message<C>): (seq<Message<C>>, nat) {
    (out.0 + [v], if v.more then out.1 else |out.0| + 1)
  }

  // ------------------------------------------------------------------ sequences of distinct items

  function Swapped<P>(s: seq<P>, i: nat, j: nat): (r: seq<P>)
    requires i < |s| && j < |s|
    ensures |r| == |s|
    ensures forall k {:trigger r[k]} | 0 <= k < |s| :: r[k] == s[if k == i then j else if k == j then i else k]
  {
    s[i := s[j]][j := s[i]]
  }

  /** The item at position k at the end of the first m, then of the first a, then of the first e. */
  function MovedBack<P>(s: seq<P>, k: nat, m: nat, a: nat, e: nat): (r: seq<P>)
    requires k < m <= a <= e <= |s|
    ensures |r| == |s|
  {
    Swapped(Swapped(Swapped(s, k, m - 1), m - 1, a - 1), a - 1, e - 1)
  }

  /** The items in the first n positions. */
  function Prefix<P(==)>(s: seq<P>, n: nat): set<P>
    requires n <= |s|
  {
    set p | p in s[..n]
  }

  lemma PrefixAt<P>(s: seq<P>, n: nat, k: nat)
    requires Distinct(s) && n <= |s| && k < |s|
    ensures s[k] in Prefix(s, n) <==> k < n
  {
    if k < n {
      assert s[..n][k] == s[k];
    }
  }

  lemma SwappedDistinct<P>(s: seq<P>, i: nat, j: nat)
    requires Distinct(s) && i < |s| && j < |s|
    ensures Distinct(Swapped(s, i, j))
  {
  }

  /** A swap on one side of the boundary does not change who is before it. */
  lemma SwapInside<P>(s: seq<P>, i: nat, j: nat, n: nat)
    requires n <= |s| && i < |s| && j < |s| && (i < n <==> j < n)
    ensures Prefix(Swapped(s, i, j), n) == Prefix(s, n)
  {
    var r := Swapped(s, i, j);
    forall p
      ensures p in Prefix(r, n) <==> p in Prefix(s, n)
    {
      if p in s[..n] {
        var k :| 0 <= k < n && s[k] == p;
        assert r[if k == i then j else if k == j then i else k] == p;
        assert p in r[..n];
      }
      if p in r[..n] {
        var k :| 0 <= k < n && r[k] == p;
        assert s[if k == i then j else if k == j then i else k] == p;
        assert p in s[..n];
      }
    }
  }

  lemma PrefixStep<P>(s: seq<P>, n: nat)
    requires Distinct(s) && n < |s|
    ensures Prefix(s, n + 1) == Prefix(s, n) + {s[n]} && s[n] !in Prefix(s, n)
  {
    assert s[..n + 1] == s[..n] + [s[n]];
    PrefixAt(s, n, n);
  }

  /** Swapping an item of the region to its last place and shrinking the region removes the item. */
  lemma SwapOut<P>(s: seq<P>, i: nat, n: nat)
    requires Distinct(s) && i <= n < |s|
    ensures Prefix(Swapped(s, i, n), n) == Prefix(s, n + 1) - {s[i]}
  {
    SwapInside(s, i, n, n + 1);
    SwappedDistinct(s, i, n);
    PrefixStep(Swapped(s, i, n), n);
  }

  /** Swapping an item to just behind the region and growing the region adds the item. */
  lemma SwapIn<P>(s: seq<P>, i: nat, n: nat)
    requires Distinct(s) && n <= i < |s|
    ensures Prefix(Swapped(s, i, n), n + 1) == Prefix(s, n) + {s[i]}
  {
    SwapInside(s, i, n, n);
    SwappedDistinct(s, i, n);
    PrefixStep(Swapped(s, i, n), n);
  }

  // ------------------------------------------------------------------ the array

  class PipeArray {
    var items: seq<Pipe>

    /** Every item knows where it is. */
    ghost predicate Valid()
      reads this, items`arrayIndex
    {
      forall i | 0 <= i < |items| :: items[i].arrayIndex == i
    }

    lemma ValidDistinct()
      requires Valid()
      ensures Distinct(items)
    {
    }

    constructor ()
      ensures Valid() && items == []
    {
      items := [];
    }

    method PushBack(item: Pipe)
      requires Valid() && item !in items
      modifies this`items, item`arrayIndex
      ensures Valid() && items == old(items) + [item]
    {
      item.arrayIndex := |items|;
      items := items + [item];
    }

    function Index(item: Pipe): (i: nat)
      requires Valid() && item in items
      reads this, items`arrayIndex
      ensures i < |items| && items[i] == item
    {
      item.arrayIndex
    }

    /** The last item takes the place of the erased one. */
    method EraseAt(index: nat)
      requires Valid() && index < |items|
      modifies this`items, items`arrayIndex
      ensures Valid()
      ensures items == old(Swapped(items, index, |items| - 1)[..|items| - 1])
      ensures old(items[index]) !in items
    {
      var last := |items| - 1;
      items[last].arrayIndex := index;
      items := items[index := items[last]];
      items := items[..last];
    }

    method Erase(item: Pipe)
      requires Valid() && item in items
      modifies this`items, items`arrayIndex
      ensures Valid() && item !in items
      ensures items == old(Swapped(items, Index(item), |items| - 1)[..|items| - 1])
    {
      EraseAt(item.arrayIndex);
    }

    method Swap(index1: nat, index2: nat)
      requires Valid() && index1 < |items| && index2 < |items|
      modifies this`items, items`arrayIndex
      ensures Valid()
      ensures items == old(Swapped(items, index1, index2))
      ensures index1 == index2 ==> items == old(items)
      ensures forall i | 0 <= i < |items| :: items[i] in old(items)
      ensures Prefix(items, |items|) == old(Prefix(items, |items|))
    {
      SwapInside(items, index1, index2, |items|);
      items[index1].arrayIndex := index2;
      items[index2].arrayIndex := index1;
      items := items[index1 := items[index2]][index2 := items[index1]];
    }

    /** The swaps with which an item leaves three nested regions, one behind the other. */
    method MoveBack(item: Pipe, m: nat, a: nat, e: nat)
      requires Valid() && item in items && Index(item) < m <= a <= e <= |items|
      modifies this`items, items`arrayIndex
      ensures Valid() && items == old(MovedBack(items, Index(item), m, a, e))
      ensures forall i | 0 <= i < |items| :: items[i] in old(items)
    {
      ghost var s, k := items, Index(item);
      Swap(item.arrayIndex, m - 1);
      ghost var s1 := items;
      assert s1 == Swapped(s, k, m - 1) && s1[m - 1] == item;
      Swap(item.arrayIndex, a - 1);
      ghost var s2 := items;
      assert s2 == Swapped(s1, m - 1, a - 1) && s2[a - 1] == item;
      Swap(a - 1, e - 1);
      assert items == Swapped(s2, a - 1, e - 1);
      assert items == MovedBack(s, k, m, a, e);
    }

    /** How pipes are attached: appended, and swapped to the given position. */
    method Insert(item: Pipe, index: nat)
      requires Valid() && item !in items && index <= |items|
      modifies this`items, items`arrayIndex, item`arrayIndex
      ensures Valid() && items == old(Swapped(items + [item], index, |items|))
    {
      PushBack(item);
      Swap(index, |items| - 1);
    }
  }
}
