/**
 * dist_t over its pipe array: three counters split the array into matching, active, eligible and
 * passive pipes.  Every method is proved to do to the regions what the set functions of module
 * Distribution do.
 */
module DistributionObjects {
  import opened Messages
  import opened MessageObjects
  import opened Pipes
  import D = Distribution

  // ------------------------------------------------------------------ layouts

  predicate Counters(size: nat, matching: nat, active: nat, eligible: nat, more: bool) {
    matching <= active <= eligible <= size && (!more ==> active == eligible)
  }

  /** The sets that an array and three counters stand for. */
  function Regions<P>(s: seq<P>, matching: nat, active: nat, eligible: nat, more: bool): D.Dist<P>
    requires matching <= |s| && active <= |s| && eligible <= |s|
  {
    D.Dist(Prefix(s, matching), Prefix(s, active), Prefix(s, eligible), Prefix(s, |s|), more)
  }

  lemma PrefixGrown<P>(s: seq<P>, p: P, n: nat)
    requires n <= |s|
    ensures Prefix(s + [p], n) == Prefix(s, n)
  {
    assert (s + [p])[..n] == s[..n];
  }

  lemma AttachLayout<P>(s: seq<P>, p: P, m: nat, a: nat, e: nat, more: bool)
    requires Distinct(s + [p]) && Counters(|s|, m, a, e, more)
    ensures Regions(Swapped(s + [p], if more then e else a, |s|), m, if more then a else a + 1, e + 1, more)
         == D.Attach(Regions(s, m, a, e, more), p)
  {
    var t := s + [p];
    PrefixStep(t, |s|);
    PrefixGrown(s, p, |s|);
    PrefixGrown(s, p, m);
    PrefixGrown(s, p, a);
    PrefixGrown(s, p, e);
    SwapIn(t, |s|, e);
    SwapInside(t, e, |s|, a);
    SwapInside(t, e, |s|, m);
    SwapInside(t, e, |s|, |t|);
    assert Swapped(t, |s|, e) == Swapped(t, e, |s|);
  }

  lemma MatchLayout<P>(s: seq<P>, k: nat, m: nat, a: nat)
    requires Distinct(s) && m <= k < a <= |s|
    ensures Regions(Swapped(s, k, m), m + 1, a, a, false) == D.Match(Regions(s, m, a, a, false), s[k])
  {
    PrefixAt(s, a, k);
    SwapIn(s, k, m);
    SwapInside(s, k, m, a);
    SwapInside(s, k, m, |s|);
  }

  lemma ActivateLayout<P>(s: seq<P>, k: nat, m: nat, a: nat, e: nat, more: bool)
    requires Distinct(s) && Counters(|s|, m, a, e, more) && e <= k < |s|
    ensures Regions(Swapped(s, k, e), m, if more then a else a + 1, e + 1, more)
         == D.Activated(Regions(s, m, a, e, more), s[k])
  {
    SwapIn(s, k, e);
    SwapInside(s, k, e, a);
    SwapInside(s, k, e, m);
    SwapInside(s, k, e, |s|);
  }

  lemma ReverseLayout<P>(s: seq<P>, t: seq<P>, prev: nat, i: nat, n: nat)
    requires Distinct(s) && Distinct(t) && |t| == |s| && prev <= i < n <= |s|
    requires Prefix(t, i - prev) == Prefix(s, i) - Prefix(s, prev)
    requires Prefix(t, n) == Prefix(s, n) && t[i] == s[i]
    ensures var r := Swapped(t, i, i - prev);
      && Distinct(r) && Prefix(r, n) == Prefix(s, n)
      && Prefix(r, i + 1 - prev) == Prefix(s, i + 1) - Prefix(s, prev)
  {
    SwapIn(t, i, i - prev);
    SwapInside(t, i, i - prev, n);
    SwappedDistinct(t, i, i - prev);
    PrefixStep(s, i);
    PrefixAt(s, prev, i);
  }

  /** Moving the item at position k out of the region of the first n, if it is in it: the array,
      the boundary and the item's position afterwards. */
  function Evict<P>(s: seq<P>, k: nat, n: nat): (r: (seq<P>, nat, nat))
    requires k < |s| && n <= |s|
    ensures |r.0| == |s| && r.1 <= n && r.1 <= r.2 < |s|
  {
    if k < n then (Swapped(s, k, n - 1), n - 1, n - 1) else (s, n, k)
  }

  lemma EvictFacts<P>(s: seq<P>, k: nat, n: nat)
    requires Distinct(s) && k < |s| && n <= |s|
    ensures var (t, n', k') := Evict(s, k, n);
      Distinct(t) && t[k'] == s[k] && Prefix(t, n') == Prefix(s, n) - {s[k]}
  {
    PrefixAt(s, n, k);
    if k < n {
      SwapOut(s, k, n - 1);
      SwappedDistinct(s, k, n - 1);
    }
  }

  /** The other regions do not notice: larger ones keep the item, smaller ones never had it. */
  lemma EvictElsewhere<P>(s: seq<P>, k: nat, n: nat, x: nat)
    requires k < |s| && n <= |s| && x <= |s| && (n <= x || (x <= k && x < n))
    ensures Prefix(Evict(s, k, n).0, x) == Prefix(s, x)
  {
    if k < n {
      SwapInside(s, k, n - 1, x);
    }
  }

  /** Out of matching, then out of active, then out of eligible. */
  function EvictAll<P>(s: seq<P>, k: nat, m: nat, a: nat, e: nat): (r: (seq<P>, nat, nat, nat, nat))
    requires k < |s| && m <= a <= e <= |s|
    ensures |r.0| == |s| && r.1 <= r.2 <= r.3 <= r.4 < |s|
  {
    var (s1, m', k1) := Evict(s, k, m);
    var (s2, a', k2) := Evict(s1, k1, a);
    var (s3, e', k3) := Evict(s2, k2, e);
    (s3, m', a', e', k3)
  }

  lemma EvictAllFacts<P>(s: seq<P>, k: nat, m: nat, a: nat, e: nat)
    requires Distinct(s) && k < |s| && m <= a <= e <= |s|
    ensures var (t, m', a', e', k') := EvictAll(s, k, m, a, e);
      && Distinct(t) && t[k'] == s[k] && Prefix(t, |t|) == Prefix(s, |s|)
      && Prefix(t, m') == Prefix(s, m) - {s[k]}
      && Prefix(t, a') == Prefix(s, a) - {s[k]}
      && Prefix(t, e') == Prefix(s, e) - {s[k]}
  {
    var (s1, m', k1) := Evict(s, k, m);
    EvictFacts(s, k, m);
    EvictElsewhere(s, k, m, a);
    EvictElsewhere(s, k, m, e);
    EvictElsewhere(s, k, m, |s|);
    var (s2, a', k2) := Evict(s1, k1, a);
    EvictFacts(s1, k1, a);
    EvictElsewhere(s1, k1, a, m');
    EvictElsewhere(s1, k1, a, e);
    EvictElsewhere(s1, k1, a, |s|);
    EvictFacts(s2, k2, e);
    EvictElsewhere(s2, k2, e, m');
    EvictElsewhere(s2, k2, e, a');
    EvictElsewhere(s2, k2, e, |s|);
  }

  lemma EvictAllBelow<P>(s: seq<P>, k: nat, m: nat, a: nat, e: nat, x: nat)
    requires Distinct(s) && x <= k < m <= a <= e <= |s|
    ensures Prefix(EvictAll(s, k, m, a, e).0, x) == Prefix(s, x)
  {
    var (s1, m', k1) := Evict(s, k, m);
    EvictElsewhere(s, k, m, x);
    var (s2, a', k2) := Evict(s1, k1, a);
    EvictElsewhere(s1, k1, a, x);
    EvictElsewhere(s2, k2, e, x);
  }

  lemma EvictMatching<P>(s: seq<P>, k: nat, m: nat, a: nat, e: nat)
    requires k < m <= a <= e <= |s|
    ensures EvictAll(s, k, m, a, e) == (MovedBack(s, k, m, a, e), m - 1, a - 1, e - 1, e - 1)
  {
  }

  lemma EraseLayout<P>(t: seq<P>, k: nat, n: nat)
    requires Distinct(t) && n <= k < |t|
    ensures Prefix(Swapped(t, k, |t| - 1)[..|t| - 1], n) == Prefix(t, n)
    ensures Prefix(Swapped(t, k, |t| - 1)[..|t| - 1], |t| - 1) == Prefix(t, |t|) - {t[k]}
  {
    var r := Swapped(t, k, |t| - 1);
    assert r[..|t| - 1][..n] == r[..n];
    assert r[..|t| - 1][..|t| - 1] == r[..|t| - 1];
    SwapInside(t, k, |t| - 1, n);
    SwapOut(t, k, |t| - 1);
  }

  lemma EraseRegions<P>(t: seq<P>, k: nat, m: nat, a: nat, e: nat, more: bool)
    requires Distinct(t) && m <= a <= e <= k < |t|
    ensures Regions(Swapped(t, k, |t| - 1)[..|t| - 1], m, a, e, more)
         == Regions(t, m, a, e, more).(pipes := Prefix(t, |t|) - {t[k]})
  {
    EraseLayout(t, k, m);
    EraseLayout(t, k, a);
    EraseLayout(t, k, e);
  }

  /** The structure each receiver gets: references are reserved when there is more than one. */
  function Handed(v: Value, matching: nat): Value {
    if matching > 1 && Counted(v) then v.(shared := true) else v
  }

  /** What giving back references does to the counter. */
  function Returned(shared: bool, cell: Cell, refs: nat): Cell {
    if refs == 0 then cell else if shared then Drop(cell, refs) else CloseCell(false, cell)
  }

  // ------------------------------------------------------------------ the distributor

  class Distributor {
    const pipes: PipeArray
    var matching: nat
    var active: nat
    var eligible: nat
    var more: bool

    ghost predicate Valid()
      reads this, pipes, pipes.items`arrayIndex
    {
      pipes.Valid() && Counters(|pipes.items|, matching, active, eligible, more)
    }

    ghost function View(): D.Dist<Pipe>
      reads this, pipes, pipes.items`arrayIndex
      requires Valid()
    {
      Regions(pipes.items, matching, active, eligible, more)
    }

    constructor ()
      ensures Valid() && fresh(pipes) && View() == D.Start().d
    {
      pipes := new PipeArray();
      matching, active, eligible, more := 0, 0, 0, false;
    }

    method Attach(pipe: Pipe)
      requires Valid() && pipe !in pipes.items
      modifies this, pipes, pipes.items`arrayIndex, pipe`arrayIndex
      ensures Valid() && View() == D.Attach(old(View()), pipe)
    {
      AttachFacts(pipe);
      if more {
        pipes.Insert(pipe, eligible);
        eligible := eligible + 1;
      } else {
        pipes.Insert(pipe, active);
        active := active + 1;
        eligible := eligible + 1;
      }
    }

    lemma AttachFacts(pipe: Pipe)
      requires Valid() && pipe !in pipes.items
      ensures var s := pipes.items;
        Regions(Swapped(s + [pipe], if more then eligible else active, |s|), matching,
                if more then active else active + 1, eligible + 1, more) == D.Attach(View(), pipe)
    {
      pipes.ValidDistinct();
      AttachLayout(pipes.items, pipe, matching, active, eligible, more);
    }

    method Match(pipe: Pipe)
      requires Valid() && pipe in pipes.items && !more
      modifies this, pipes, pipes.items`arrayIndex
      ensures Valid() && View() == D.Match(old(View()), pipe)
    {
      pipes.ValidDistinct();
      ghost var s := pipes.items;
      ghost var k := pipes.Index(pipe);
      PrefixAt(s, matching, k);
      PrefixAt(s, eligible, k);
      if pipes.Index(pipe) < matching {
        return;
      }
      if pipes.Index(pipe) >= eligible {
        return;
      }
      MatchLayout(s, k, matching, active);
      pipes.Swap(pipes.Index(pipe), matching);
      matching := matching + 1;
    }

    method Unmatch()
      requires Valid()
      modifies this`matching
      ensures Valid() && View() == D.Unmatch(old(View())) && matching == 0
    {
      matching := 0;
    }

    /** Swaps the pipe at position i behind the pipes already taken. */
    method Take(i: nat, ghost s: seq<Pipe>, ghost prev: nat)
      requires pipes.Valid() && Distinct(s) && |pipes.items| == |s| && prev <= i < eligible <= |s|
      requires matching == i - prev && pipes.items[i..] == s[i..]
      requires Prefix(pipes.items, matching) == Prefix(s, i) - Prefix(s, prev)
      requires Prefix(pipes.items, eligible) == Prefix(s, eligible) && Prefix(pipes.items, |s|) == Prefix(s, |s|)
      modifies this`matching, pipes, pipes.items`arrayIndex
      ensures pipes.Valid() && |pipes.items| == |s| && matching == i + 1 - prev
      ensures pipes.items[i + 1..] == s[i + 1..]
      ensures Prefix(pipes.items, matching) == Prefix(s, i + 1) - Prefix(s, prev)
      ensures Prefix(pipes.items, eligible) == Prefix(s, eligible) && Prefix(pipes.items, |s|) == Prefix(s, |s|)
      ensures forall x | 0 <= x < |pipes.items| :: pipes.items[x] in old(pipes.items)
    {
      pipes.ValidDistinct();
      assert pipes.items[i] == pipes.items[i..][0];
      ReverseLayout(s, pipes.items, prev, i, eligible);
      ReverseLayout(s, pipes.items, prev, i, |s|);
      assert forall x | i < x < |s| :: pipes.items[x] == pipes.items[i..][x - i] == s[x];
      pipes.Swap(i, matching);
      matching := matching + 1;
    }

    method ReverseMatch()
      requires Valid() && !more
      modifies this`matching, pipes, pipes.items`arrayIndex
      ensures Valid() && View() == D.ReverseMatch(old(View()))
    {
      pipes.ValidDistinct();
      ghost var s := pipes.items;
      var prevMatching := matching;
      Unmatch();
      var i := prevMatching;
      assert Prefix(s, prevMatching) - Prefix(s, prevMatching) == {};
      while i < eligible
        invariant prevMatching <= i <= eligible && matching == i - prevMatching
        invariant pipes.Valid() && |pipes.items| == |s| && pipes.items[i..] == s[i..]
        invariant Prefix(pipes.items, matching) == Prefix(s, i) - Prefix(s, prevMatching)
        invariant Prefix(pipes.items, eligible) == Prefix(s, eligible)
        invariant Prefix(pipes.items, |s|) == Prefix(s, |s|)
        invariant forall x | 0 <= x < |pipes.items| :: pipes.items[x] in s
      {
        Take(i, s, prevMatching);
        i := i + 1;
      }
    }

    method PipeTerminated(pipe: Pipe)
      requires Valid() && pipe in pipes.items
      modifies this, pipes, pipes.items`arrayIndex
      ensures Valid() && View() == D.PipeTerminated(old(View()), pipe)
      ensures pipe !in pipes.items
    {
      TerminateFacts(pipe);
      LeaveRegions(pipe);
      pipes.Erase(pipe);
    }

    lemma TerminateFacts(pipe: Pipe)
      requires Valid() && pipe in pipes.items
      ensures var (t, m, a, e, k) := EvictAll(pipes.items, pipes.Index(pipe), matching, active, eligible);
        Regions(Swapped(t, k, |t| - 1)[..|t| - 1], m, a, e, more) == D.PipeTerminated(View(), pipe)
    {
      pipes.ValidDistinct();
      EvictAllFacts(pipes.items, pipes.Index(pipe), matching, active, eligible);
      var (t, m, a, e, k) := EvictAll(pipes.items, pipes.Index(pipe), matching, active, eligible);
      EraseRegions(t, k, m, a, e, more);
    }

    /** The pipe becomes passive: each region it is in loses it. */
    method LeaveRegions(pipe: Pipe)
      requires Valid() && pipe in pipes.items
      modifies this, pipes, pipes.items`arrayIndex
      ensures Valid() && pipe in pipes.items && more == old(more)
      ensures (pipes.items, matching, active, eligible, pipes.Index(pipe))
           == old(EvictAll(pipes.items, pipes.Index(pipe), matching, active, eligible))
      ensures forall i | 0 <= i < |pipes.items| :: pipes.items[i] in old(pipes.items)
    {
      matching := LeaveRegion(pipe, matching);
      active := LeaveRegion(pipe, active);
      eligible := LeaveRegion(pipe, eligible);
    }

    /** Swaps the pipe to the end of the region of the first n, if it is in it, and shrinks it. */
    method LeaveRegion(pipe: Pipe, n: nat) returns (n': nat)
      requires pipes.Valid() && pipe in pipes.items && n <= |pipes.items|
      modifies pipes, pipes.items`arrayIndex
      ensures pipes.Valid() && pipe in pipes.items
      ensures (pipes.items, n', pipes.Index(pipe)) == old(Evict(pipes.items, pipes.Index(pipe), n))
      ensures forall i | 0 <= i < |pipes.items| :: pipes.items[i] in old(pipes.items)
    {
      n' := n;
      if pipes.Index(pipe) < n {
        pipes.Swap(pipes.Index(pipe), n - 1);
        n' := n - 1;
        assert pipes.items[n - 1] == pipe;
      }
    }

    lemma ActivateFacts(pipe: Pipe)
      requires Valid() && pipe in pipes.items && pipes.Index(pipe) >= eligible
      ensures Regions(Swapped(pipes.items, pipes.Index(pipe), eligible), matching,
                      if more then active else active + 1, eligible + 1, more) == D.Activated(View(), pipe)
    {
      pipes.ValidDistinct();
      ActivateLayout(pipes.items, pipes.Index(pipe), matching, active, eligible, more);
    }

    /** Called for a passive pipe that can be written to again. */
    method Activated(pipe: Pipe)
      requires Valid() && pipe in pipes.items && pipes.Index(pipe) >= eligible
      modifies this, pipes, pipes.items`arrayIndex
      ensures Valid() && View() == D.Activated(old(View()), pipe)
    {
      ActivateFacts(pipe);
      if eligible < |pipes.items| {
        pipes.Swap(pipes.Index(pipe), eligible);
        eligible := eligible + 1;
      }
      if !more && active < |pipes.items| {
        pipes.Swap(eligible - 1, active);
        active := active + 1;
      }
    }

    /** The pipes a write to which would be accepted now. */
    ghost function Room(): set<Pipe>
      reads pipes, pipes.items`room
    {
      set p | p in pipes.items && p.room
    }

    lemma WriteFacts(i: nat)
      requires Valid() && i < matching
      ensures var s := pipes.items;
        var (t, m, a, e, k) := EvictAll(s, i, matching, active, eligible);
        && Prefix(t, i) == Prefix(s, i)
        && Regions(t, m, a, e, more) == D.PipeTerminated(View(), s[i]).(pipes := View().pipes)
      ensures Prefix(pipes.items, i + 1) == Prefix(pipes.items, i) + {pipes.items[i]}
      ensures pipes.items[i] !in Prefix(pipes.items, i) && pipes.items[i] in View().matching
    {
      pipes.ValidDistinct();
      EvictAllFacts(pipes.items, i, matching, active, eligible);
      EvictAllBelow(pipes.items, i, matching, active, eligible, i);
      PrefixStep(pipes.items, i);
      PrefixAt(pipes.items, matching, i);
    }

    /** What write does when it fails: the pipe moves to the end of each region in turn.  It is matching, so that
        these are the swaps of LeaveRegions. */
    method Deactivate(pipe: Pipe, ghost i: nat)
      requires Valid() && i < matching && pipes.items[i] == pipe
      modifies this, pipes, pipes.items`arrayIndex
      ensures Valid() && more == old(more) && matching == old(matching) - 1
      ensures View() == D.PipeTerminated(old(View()), pipe).(pipes := old(View()).pipes)
      ensures Prefix(pipes.items, i) == old(Prefix(pipes.items, i))
      ensures forall k | 0 <= k < |pipes.items| :: pipes.items[k] in old(pipes.items)
    {
      WriteFacts(i);
      EvictMatching(pipes.items, i, matching, active, eligible);
      pipes.MoveBack(pipe, matching, active, eligible);
      matching, active, eligible := matching - 1, active - 1, eligible - 1;
    }

    /** Sends to the matching pipe at position i; a pipe without room becomes passive, and another
        one takes its place. */
    method Write(pipe: Pipe, msg: Msg, ghost i: nat) returns (ok: bool)
      requires Valid() && i < matching && pipes.items[i] == pipe
      modifies this, pipes, pipes.items`arrayIndex, pipe`outgoing, pipe`flushed
      ensures Valid() && ok == pipe.room && more == old(more)
      ensures matching == if ok then old(matching) else old(matching) - 1
      ensures pipe.Out() == if ok then Sent(old(pipe.Out()), msg.View()) else old(pipe.Out())
      ensures View() == if ok then old(View()) else
        D.PipeTerminated(old(View()), pipe).(pipes := old(View()).pipes)
      ensures pipe in old(View()).matching && pipe !in old(Prefix(pipes.items, i))
      ensures Prefix(pipes.items, i) == old(Prefix(pipes.items, i))
      ensures ok ==> Prefix(pipes.items, i + 1) == old(Prefix(pipes.items, i)) + {pipe}
      ensures forall k | 0 <= k < |pipes.items| :: pipes.items[k] in old(pipes.items)
    {
      WriteFacts(i);
      ok := pipe.Write(msg.View());
      if !ok {
        Deactivate(pipe, i);
        return;
      }
      if !msg.more {
        pipe.Flush();
      }
    }

    /** The loop of distribute: each matching pipe is tried once; when a write fails another pipe has
        taken the place, which is tried next. */
    method WriteAll(msg: Msg) returns (failed: nat)
      requires Valid()
      modifies this, pipes, pipes.items`arrayIndex, pipes.items`outgoing, pipes.items`flushed
      ensures Valid() && more == old(more) && matching + failed == old(matching)
      ensures View() == D.SendToMatching(old(View()), true, Room()).(more := more)
      ensures forall p | p in old(pipes.items) ::
        p.Out() == if p in View().matching then Sent(old(p.Out()), msg.View()) else old(p.Out())
    {
      failed := 0;
      var i := 0;
      ghost var was, room, all := View(), Room(), pipes.items;
      ghost var gone: set<Pipe>, done: set<Pipe> := {}, {};
      while i < matching
        invariant Valid() && i <= matching && more == old(more) && matching + failed == old(matching)
        invariant View() == D.Dist(was.matching - gone, was.active - gone, was.eligible - gone, was.pipes, was.more)
        invariant gone <= was.matching && gone !! room
        invariant Prefix(pipes.items, i) == done <= room
        invariant forall x | 0 <= x < |pipes.items| :: pipes.items[x] in all
        invariant forall p | p in all ::
          p.Out() == if p in done then Sent(old(p.Out()), msg.View()) else old(p.Out())
        decreases matching - i
      {
        ghost var pipe := pipes.items[i];
        var ok := Write(pipes.items[i], msg, i);
        if ok {
          i := i + 1;
          done := done + {pipe};
        } else {
          failed := failed + 1;
          gone := gone + {pipe};
        }
      }
      assert done == View().matching == was.matching - gone;
      assert gone == was.matching - room;
    }

    /** The counter of a shared message is alive and n more references do not overflow it. */
    ghost predicate Countable(msg: Msg, n: nat)
      reads msg, msg.Block()
    {
      && n + 1 < COUNTER_MODULUS
      && (Counted(msg.View()) && msg.shared ==>
            1 <= msg.body.content.refcnt && msg.body.content.refcnt + n < COUNTER_MODULUS)
    }

    /** Each matching pipe with room gets the frame, and one reference to its content; the sender is
        left with a blank message. */
    method Distribute(msg: Msg)
      requires Valid() && Countable(msg, matching)
      modifies this, pipes, pipes.items`arrayIndex, pipes.items`outgoing, pipes.items`flushed, msg, msg.Block()
      ensures Valid() && more == old(more) && matching <= old(matching)
      ensures View() == D.SendToMatching(old(View()), true, Room()).(more := more)
      ensures forall p | p in old(pipes.items) ::
        p.Out() == if p in View().matching then Sent(old(p.Out()), Handed(old(msg.View()), old(matching)))
          else old(p.Out())
      ensures msg.View() == Blank()
      ensures old(Counted(msg.View())) ==>
        var c := old(msg.body.content);
        c.View() == SpreadCell(old(msg.shared), old(c.View()), matching, old(matching) - matching)
    {
      if matching == 0 {
        var _ := msg.Close();
        msg.Init();
        assert Prefix(pipes.items, 0) == {};
        return;
      }
      if msg.body.Vsm? {
        var _ := WriteAll(msg);
        var _ := msg.Close();
        msg.Init();
        return;
      }
      DistributeShared(msg);
    }

    method DistributeShared(msg: Msg)
      requires Valid() && Countable(msg, matching) && matching > 0
      modifies this, pipes, pipes.items`arrayIndex, pipes.items`outgoing, pipes.items`flushed, msg, msg.Block()
      ensures Valid() && more == old(more) && matching <= old(matching)
      ensures View() == D.SendToMatching(old(View()), true, Room()).(more := more)
      ensures forall p | p in old(pipes.items) ::
        p.Out() == if p in View().matching then Sent(old(p.Out()), Handed(old(msg.View()), old(matching)))
          else old(p.Out())
      ensures msg.View() == Blank()
      ensures old(Counted(msg.View())) ==>
        var c := old(msg.body.content);
        c.View() == SpreadCell(old(msg.shared), old(c.View()), matching, old(matching) - matching)
    {
      msg.AddRefs(matching - 1);
      WriteCounted(msg);
      msg.Init();
    }

    /** The second loop of distribute, and the references given back for the writes that failed. */
    method WriteCounted(msg: Msg)
      requires Valid() && (Counted(msg.View()) && msg.shared ==> matching <= msg.body.content.refcnt < COUNTER_MODULUS)
      modifies this, pipes, pipes.items`arrayIndex, pipes.items`outgoing, pipes.items`flushed, msg, msg.Block()
      ensures Valid() && more == old(more) && matching <= old(matching)
      ensures View() == D.SendToMatching(old(View()), true, Room()).(more := more)
      ensures forall p | p in old(pipes.items) ::
        p.Out() == if p in View().matching then Sent(old(p.Out()), old(msg.View())) else old(p.Out())
      ensures old(Counted(msg.View())) ==>
        var c := old(msg.body.content);
        c.View() == Returned(old(msg.shared), old(c.View()), old(matching) - matching)
    {
      var failed := WriteAll(msg);
      if failed > 0 {
        var _ := msg.RmRefs(failed);
      }
    }

    method SendToMatching(msg: Msg)
      requires Valid() && Countable(msg, matching)
      modifies this, pipes, pipes.items`arrayIndex, pipes.items`outgoing, pipes.items`flushed, msg, msg.Block()
      ensures Valid() && matching <= old(matching)
      ensures View() == D.SendToMatching(old(View()), old(msg.more), Room())
      ensures forall p | p in old(pipes.items) ::
        p.Out() == if p in View().matching then Sent(old(p.Out()), Handed(old(msg.View()), old(matching)))
          else old(p.Out())
      ensures msg.View() == Blank()
      ensures old(Counted(msg.View())) ==>
        var c := old(msg.body.content);
        c.View() == SpreadCell(old(msg.shared), old(c.View()), matching, old(matching) - matching)
    {
      var msgMore := msg.more;
      Distribute(msg);
      if !msgMore {
        active := eligible;
      }
      more := msgMore;
    }

    method SendToAll(msg: Msg)
      requires Valid() && Countable(msg, active)
      modifies this, pipes, pipes.items`arrayIndex, pipes.items`outgoing, pipes.items`flushed, msg, msg.Block()
      ensures Valid() && matching <= old(active)
      ensures View() == D.SendToAll(old(View()), old(msg.more), Room())
      ensures forall p | p in old(pipes.items) ::
        p.Out() == if p in View().matching then Sent(old(p.Out()), Handed(old(msg.View()), old(active)))
          else old(p.Out())
      ensures msg.View() == Blank()
      ensures old(Counted(msg.View())) ==>
        var c := old(msg.body.content);
        c.View() == SpreadCell(old(msg.shared), old(c.View()), matching, old(active) - matching)
    {
      matching := active;
      SendToMatching(msg);
    }
  }
}
