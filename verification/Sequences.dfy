/** Concatenation of a sequence of sequences. */
module Sequences {
  function Concat<T>(s: seq<seq<T>>): seq<T> {
    if s == [] then [] else s[0] + Concat(s[1..])
  }

  lemma Assoc<T>(a: seq<T>, b: seq<T>, c: seq<T>)
    ensures (a + b) + c == a + (b + c)
  {
  }

  lemma {:induction false} ConcatMore<T>(s: seq<seq<T>>, x: seq<T>)
    ensures Concat(s + [x]) == Concat(s) + x
  {
    if s == [] {
      assert s + [x] == [x];
      assert [x][1..] == [];
      assert x + [] == x;
    } else {
      assert (s + [x])[1..] == s[1..] + [x];
      ConcatMore(s[1..], x);
      Assoc(s[0], Concat(s[1..]), x);
    }
  }
}
