/**
 * Reference-counted message contents (msg.cpp) and the multicast client that copies a message
 * structure byte by byte after reserving references (dist.cpp, distribute).
 *
 * A world holds all message structures ("handles") and all content blocks.  Each operation is one
 * atomic step, so a run is any interleaving of the threads that own the handles.
 */
module Messages {
  /** The type tag of msg_t with the pointer that goes with it; Closed is the invalid tag 0. */
  datatype Body<C> =
    | Vsm | Cmsg | Delimiter | Join | Leave
    | Lmsg(content: C) | Zclmsg(content: C)
    | Closed

  datatype Message<C> = Message(body: Body<C>, more: bool, shared: bool)

  /** content_t: `refcnt` is meaningful once the message is shared; `frees` counts deallocations. */
  datatype Cell = Cell(refcnt: int, frees: nat)

  predicate Counted<C>(m: Message<C>) {
    m.body.Lmsg? || m.body.Zclmsg?
  }

  predicate Holds<C(==)>(m: Message<C>, c: C) {
    Counted(m) && m.body.content == c
  }

  function Blank<C>(): Message<C> {
    Message(Vsm, false, false)
  }

  /** All frames but the last announce another one. */
  predicate WholeMessage<C>(m: seq<Message<C>>) {
    m != [] && !m[|m| - 1].more && forall i | 0 <= i < |m| - 1 :: m[i].more
  }

  // ------------------------------------------------------------------ one message and its content

  /** refcnt.sub(n) followed by deallocation when it reaches zero. */
  function Drop(cell: Cell, n: nat): Cell {
    Cell(cell.refcnt - n, if cell.refcnt - n == 0 then cell.frees + 1 else cell.frees)
  }

  /** What close does to the content of a counted message. */
  function CloseCell(shared: bool, cell: Cell): Cell {
    if shared then Drop(cell, 1) else cell.(frees := cell.frees + 1)
  }

  /** What taking n more references does to the content; the message becomes shared. */
  function ShareCell(shared: bool, cell: Cell, n: nat): Cell {
    cell.(refcnt := if shared then cell.refcnt + n else n + 1)
  }

  // ------------------------------------------------------------------ all messages

  type Handle = nat
  type ContentId = nat
  type Handles = map<Handle, Message<ContentId>>

  /** `loans[c]` is the number of references reserved by add_refs and not yet used up. */
  datatype World = World(handles: Handles, cells: map<ContentId, Cell>, loans: map<ContentId, int>)

  predicate Shaped(w: World) {
    && w.loans.Keys == w.cells.Keys
    && forall h | h in w.handles && Counted(w.handles[h]) :: w.handles[h].body.content in w.cells
  }

  /** init_size, init_data, init_external_storage: a message with a new content block. */
  function InitCounted(w: World, h: Handle, c: ContentId, zeroCopy: bool): World {
    World(w.handles[h := Message(if zeroCopy then Zclmsg(c) else Lmsg(c), false, false)],
          w.cells[c := Cell(0, 0)], w.loans[c := 0])
  }

  function Put(w: World, h: Handle, m: Message<ContentId>): World {
    w.(handles := w.handles[h := m])
  }

  function PutCell(w: World, c: ContentId, cell: Cell): World {
    w.(cells := w.cells[c := cell])
  }

  function Lend(w: World, c: ContentId, n: int): World
    requires c in w.loans
  {
    w.(loans := w.loans[c := w.loans[c] + n])
  }

  /** close; an already closed message is refused and nothing changes. */
  function Close(w: World, h: Handle): World
    requires Shaped(w) && h in w.handles
  {
    var m := w.handles[h];
    var u := Put(w, h, m.(body := Closed));
    if Counted(m) then PutCell(u, m.body.content, CloseCell(m.shared, w.cells[m.body.content])) else u
  }

  /** add_refs: n references are reserved. */
  function AddRefs(w: World, h: Handle, n: nat): World
    requires Shaped(w) && h in w.handles
  {
    var m := w.handles[h];
    if n == 0 || !Counted(m) then w
    else
      var c := m.body.content;
      Lend(PutCell(Put(w, h, m.(shared := true)), c, ShareCell(m.shared, w.cells[c], n)), c, n)
  }

  /** Copying the message structure byte by byte; uses up one reserved reference. */
  function PodCopy(w: World, h: Handle, dst: Handle): World
    requires Shaped(w) && h in w.handles
  {
    var m := w.handles[h];
    if Counted(m) then Lend(Put(w, dst, m), m.body.content, -1) else Put(w, dst, m)
  }

  /** init on a message whose reference, if it holds one, has been handed on. */
  function Detach(w: World, h: Handle): World
    requires Shaped(w) && h in w.handles
  {
    var m := w.handles[h];
    if Counted(m) then Lend(Put(w, h, Blank()), m.body.content, 1) else Put(w, h, Blank())
  }

  predicate Distinct<T(==)>(s: seq<T>) {
    forall i, j | 0 <= i < j < |s| :: s[i] != s[j]
  }

  /** move: the target is closed and takes the source's structure, and the source becomes blank. */
  function Move(w: World, dst: Handle, src: Handle): World
    requires Shaped(w) && dst in w.handles && src in w.handles && dst != src
  {
    if w.handles[src].body.Closed? || w.handles[dst].body.Closed? then w
    else Detach(PodCopy(Close(w, dst), src, dst), src)
  }

  /** copy: the target is closed, then shares the source's content. */
  function Copy(w: World, dst: Handle, src: Handle): World
    requires Shaped(w) && dst in w.handles && src in w.handles && dst != src
  {
    if w.handles[src].body.Closed? || w.handles[dst].body.Closed? then w
    else PodCopy(AddRefs(Close(w, dst), src, 1), src, dst)
  }

  /** rm_refs; a message that is not counted, or not shared, is closed instead. */
  function RmRefs(w: World, h: Handle, n: nat): World
    requires Shaped(w) && h in w.handles
  {
    var m := w.handles[h];
    if n == 0 then w
    else if !Counted(m) || !m.shared then Close(w, h)
    else
      var c := m.body.content;
      Lend(PutCell(w, c, Drop(w.cells[c], n)), c, 0 - n)
  }

  /** Distinct slots that hold no structure yet. */
  predicate Fresh(w: World, dsts: seq<Handle>) {
    Distinct(dsts) && forall d | d in dsts :: d !in w.handles
  }

  function PodCopies(w: World, h: Handle, dsts: seq<Handle>): World
    requires Shaped(w) && h in w.handles
    requires Fresh(w, dsts)
    ensures Shaped(PodCopies(w, h, dsts)) && h in PodCopies(w, h, dsts).handles
    ensures PodCopies(w, h, dsts).handles[h] == w.handles[h]
  {
    if dsts == [] then w
    else PodCopy(PodCopies(w, h, dsts[..|dsts| - 1]), h, dsts[|dsts| - 1])
  }

  /** The last two calls of distribute: the failed references are given back, the sender lets go. */
  function Settle(w: World, h: Handle, failed: nat): World
    requires Shaped(w) && h in w.handles
  {
    Detach(RmRefs(w, h, failed), h)
  }

  /** distribute: `dsts` are the queue slots of the pipes whose write succeeded, `failed` the number
      of matching pipes whose write did not. */
  function Distribute(w: World, h: Handle, dsts: seq<Handle>, failed: nat): World
    requires Shaped(w) && h in w.handles
    requires Fresh(w, dsts)
  {
    var matching := |dsts| + failed;
    if matching == 0 then Put(Close(w, h), h, Blank())
    else if w.handles[h].body.Vsm? then Put(Close(PodCopies(w, h, dsts), h), h, Blank())
    else Settle(PodCopies(AddRefs(w, h, matching - 1), h, dsts), h, failed)
  }

  /** The same operation seen from the one content block: what distribute does to its counter. */
  function SpreadCell(shared: bool, cell: Cell, accepted: nat, failed: nat): Cell {
    var matching := accepted + failed;
    if matching == 0 then CloseCell(shared, cell)
    else
      var reserved := if matching == 1 then cell else ShareCell(shared, cell, matching - 1);
      if failed == 0 then reserved
      else if shared || matching > 1 then Drop(reserved, failed)
      else CloseCell(false, reserved)
  }

  // ------------------------------------------------------------------ runs

  datatype Op =
    | OpInit(h: Handle, m: Message<ContentId>)
    | OpInitCounted(h: Handle, c: ContentId, zeroCopy: bool)
    | OpFlags(h: Handle, more: bool)
    | OpClose(h: Handle)
    | OpMove(dst: Handle, src: Handle)
    | OpCopy(dst: Handle, src: Handle)
    | OpAddRefs(h: Handle, n: nat)
    | OpPodCopy(h: Handle, dst: Handle)
    | OpRmRefs(h: Handle, n: nat)
    | OpDistribute(h: Handle, dsts: seq<Handle>, failed: nat)

  /** A structure that may be overwritten: unused, closed, or without content. */
  predicate Vacant(w: World, h: Handle) {
    h in w.handles ==> !Counted(w.handles[h])
  }

  /** What msg_t asks of its callers. */
  predicate Allowed(w: World, op: Op)
    requires Shaped(w)
  {
    match op
    case OpInit(h, m) => Vacant(w, h) && !Counted(m) && !m.shared
    case OpInitCounted(h, c, _) => Vacant(w, h) && c !in w.cells
    case OpFlags(h, _) => h in w.handles
    case OpClose(h) => h in w.handles
    case OpMove(dst, src) => dst in w.handles && src in w.handles && dst != src
    case OpCopy(dst, src) => dst in w.handles && src in w.handles && dst != src
    case OpAddRefs(h, _) => h in w.handles && Counted(w.handles[h])
    case OpPodCopy(h, dst) =>
      && h in w.handles && Vacant(w, dst) && dst != h
      && (Counted(w.handles[h]) ==> w.loans[w.handles[h].body.content] > 0)
    case OpRmRefs(h, n) =>
      && h in w.handles && Counted(w.handles[h]) && n <= w.loans[w.handles[h].body.content]
    case OpDistribute(h, dsts, failed) =>
      h in w.handles && Fresh(w, dsts)
  }

  function Step(w: World, op: Op): World
    requires Shaped(w) && Allowed(w, op)
  {
    match op
    case OpInit(h, m) => Put(w, h, m)
    case OpInitCounted(h, c, zeroCopy) => InitCounted(w, h, c, zeroCopy)
    case OpFlags(h, more) => Put(w, h, w.handles[h].(more := more))
    case OpClose(h) => Close(w, h)
    case OpMove(dst, src) => Move(w, dst, src)
    case OpCopy(dst, src) => Copy(w, dst, src)
    case OpAddRefs(h, n) => AddRefs(w, h, n)
    case OpPodCopy(h, dst) => PodCopy(w, h, dst)
    case OpRmRefs(h, n) => RmRefs(w, h, n)
    case OpDistribute(h, dsts, failed) => Distribute(w, h, dsts, failed)
  }

  // ------------------------------------------------------------------ the invariant

  function Holders(handles: Handles, c: ContentId): set<Handle> {
    set h | h in handles && Holds(handles[h], c)
  }

  /** Every reference to a content block there is: handles plus reserved references. */
  function Tokens(w: World, c: ContentId): int
    requires c in w.loans
  {
    |Holders(w.handles, c)| + w.loans[c]
  }

  predicate AllShared(handles: Handles, c: ContentId, shared: bool) {
    forall h | h in Holders(handles, c) :: handles[h].shared == shared
  }

  /** The count is exact once the message is shared; until then there is one reference. */
  predicate Sound(w: World, c: ContentId)
    requires Shaped(w) && c in w.cells
  {
    var n := Tokens(w, c);
    && w.cells[c].frees == (if n == 0 then 1 else 0)
    && (n == 0 || (AllShared(w.handles, c, true) && w.cells[c].refcnt == n)
               || (AllShared(w.handles, c, false) && n == 1))
    && n >= 0
  }

  predicate Core(w: World) {
    Shaped(w) && forall c | c in w.cells :: Sound(w, c)
  }

  predicate Inv(w: World) {
    Core(w) && forall c | c in w.cells :: w.loans[c] >= 0
  }

  lemma HoldersPut(handles: Handles, h: Handle, m: Message<ContentId>, c: ContentId)
    ensures Holders(handles[h := m], c) ==
            Holders(handles, c) - {h} + (if Holds(m, c) then {h} else {})
  {
    var r := Holders(handles[h := m], c);
    var e := Holders(handles, c) - {h} + (if Holds(m, c) then {h} else {});
    forall x
      ensures x in r <==> x in e
    {
    }
  }

  lemma CountPut(handles: Handles, h: Handle, m: Message<ContentId>, c: ContentId)
    ensures |Holders(handles[h := m], c)| ==
            |Holders(handles, c)| - (if h in handles && Holds(handles[h], c) then 1 else 0)
            + (if Holds(m, c) then 1 else 0)
  {
    HoldersPut(handles, h, m, c);
    var was := Holders(handles, c);
    assert h in was <==> h in handles && Holds(handles[h], c);
    if h in was {
      assert |was - {h}| == |was| - 1;
    } else {
      assert was - {h} == was;
    }
  }

  /** Overwriting a structure that neither held nor will hold c leaves c's accounts alone. */
  lemma PutElsewhere(handles: Handles, h: Handle, m: Message<ContentId>, c: ContentId)
    requires h in handles ==> !Holds(handles[h], c)
    requires !Holds(m, c)
    ensures Holders(handles[h := m], c) == Holders(handles, c)
    ensures forall b :: AllShared(handles[h := m], c, b) == AllShared(handles, c, b)
  {
    HoldersPut(handles, h, m, c);
    forall b
      ensures AllShared(handles[h := m], c, b) == AllShared(handles, c, b)
    {
      forall x | x in Holders(handles, c)
        ensures handles[h := m][x] == handles[x]
      {
      }
    }
  }

  lemma CloseKeeps(w: World, h: Handle)
    requires Core(w) && h in w.handles
    requires Counted(w.handles[h]) ==> Tokens(w, w.handles[h].body.content) > 0
    ensures Core(Close(w, h)) && Close(w, h).loans == w.loans
  {
    var m := w.handles[h];
    var closed := m.(body := Closed);
    var r := Close(w, h);
    forall c | c in r.cells
      ensures Sound(r, c)
    {
      if Holds(m, c) {
        CountPut(w.handles, h, closed, c);
        HoldersPut(w.handles, h, closed, c);
        assert h in Holders(w.handles, c);
      } else {
        PutElsewhere(w.handles, h, closed, c);
      }
    }
  }

  lemma SharedPut(handles: Handles, h: Handle, m: Message<ContentId>, c: ContentId, b: bool)
    requires AllShared(handles, c, b) && (Holds(m, c) ==> m.shared == b)
    ensures AllShared(handles[h := m], c, b)
  {
    HoldersPut(handles, h, m, c);
    var r := handles[h := m];
    forall x | x in Holders(r, c)
      ensures r[x].shared == b
    {
      assert x != h ==> x in Holders(handles, c);
    }
  }

  lemma AddRefsKeeps(w: World, h: Handle, n: nat)
    requires Core(w) && h in w.handles
    requires Counted(w.handles[h]) ==> w.loans[w.handles[h].body.content] >= 0
    ensures Core(AddRefs(w, h, n))
  {
    var r := AddRefs(w, h, n);
    forall c | c in r.cells
      ensures Sound(r, c)
    {
      AddRefsSound(w, h, n, c);
    }
  }

  lemma AddRefsSound(w: World, h: Handle, n: nat, c: ContentId)
    requires Shaped(w) && h in w.handles && c in w.cells && Sound(w, c)
    requires Holds(w.handles[h], c) ==> w.loans[c] >= 0
    ensures Sound(AddRefs(w, h, n), c)
  {
    var m := w.handles[h];
    if n > 0 && Counted(m) {
      var m' := m.(shared := true);
      CountPut(w.handles, h, m', c);
      if Holds(m, c) {
        assert h in Holders(w.handles, c);
        if m.shared {
          SharedPut(w.handles, h, m', c, true);
        } else {
          Single(Holders(w.handles, c), h);
          HoldersPut(w.handles, h, m', c);
        }
      } else {
        PutElsewhere(w.handles, h, m', c);
      }
    }
  }

  lemma Single<T>(s: set<T>, x: T)
    requires x in s && |s| <= 1
    ensures s == {x}
  {
    assert |s - {x}| == |s| - 1;
  }

  lemma PodCopyKeeps(w: World, h: Handle, dst: Handle)
    requires Core(w) && h in w.handles && Vacant(w, dst) && dst != h
    ensures Core(PodCopy(w, h, dst))
  {
    var r := PodCopy(w, h, dst);
    forall c | c in r.cells
      ensures Sound(r, c)
    {
      PodCopySound(w, h, dst, c);
    }
  }

  lemma PodCopySound(w: World, h: Handle, dst: Handle, c: ContentId)
    requires Shaped(w) && h in w.handles && Vacant(w, dst) && dst != h
    requires c in w.cells && Sound(w, c)
    ensures Sound(PodCopy(w, h, dst), c)
  {
    var m := w.handles[h];
    CountPut(w.handles, dst, m, c);
    assert Holds(m, c) ==> h in Holders(w.handles, c);
    if AllShared(w.handles, c, true) && (Holds(m, c) ==> m.shared) {
      SharedPut(w.handles, dst, m, c, true);
    }
    if AllShared(w.handles, c, false) && (Holds(m, c) ==> !m.shared) {
      SharedPut(w.handles, dst, m, c, false);
    }
  }

  lemma RmRefsKeeps(w: World, h: Handle, n: nat)
    requires Core(w) && h in w.handles
    requires Counted(w.handles[h]) ==> Tokens(w, w.handles[h].body.content) >= n
    ensures Core(RmRefs(w, h, n))
  {
    var m := w.handles[h];
    if n > 0 {
      if !Counted(m) || !m.shared {
        CloseKeeps(w, h);
      } else {
        assert h in Holders(w.handles, m.body.content);
      }
    }
  }

  lemma DetachKeeps(w: World, h: Handle)
    requires Core(w) && h in w.handles
    ensures Core(Detach(w, h))
  {
    var m := w.handles[h];
    var r := Detach(w, h);
    forall c | c in r.cells
      ensures Sound(r, c)
    {
      if Holds(m, c) {
        CountPut(w.handles, h, Blank(), c);
        HoldersPut(w.handles, h, Blank(), c);
      } else {
        PutElsewhere(w.handles, h, Blank(), c);
      }
    }
  }

  // ------------------------------------------------------------------ distribute

  lemma {:induction false} PodCopiesHandles(w: World, h: Handle, dsts: seq<Handle>)
    requires Shaped(w) && h in w.handles && Fresh(w, dsts)
    ensures var r := PodCopies(w, h, dsts);
      && r.cells == w.cells
      && r.handles.Keys == w.handles.Keys + (set d | d in dsts)
      && (forall x | x in r.handles :: r.handles[x] == if x in dsts then w.handles[h] else w.handles[x])
  {
    if dsts != [] {
      var front, last := dsts[..|dsts| - 1], dsts[|dsts| - 1];
      assert dsts == front + [last];
      PodCopiesHandles(w, h, front);
    }
  }

  /** Each copy uses up one reserved reference, so the number of references stays. */
  lemma {:induction false} PodCopiesAccounts(w: World, h: Handle, dsts: seq<Handle>, c: ContentId)
    requires Shaped(w) && h in w.handles && Fresh(w, dsts) && c in w.loans
    ensures var r := PodCopies(w, h, dsts);
      && c in r.loans && r.loans[c] == w.loans[c] - (if Holds(w.handles[h], c) then |dsts| else 0)
      && Tokens(r, c) == Tokens(w, c)
  {
    if dsts != [] {
      var front, last := dsts[..|dsts| - 1], dsts[|dsts| - 1];
      assert last !in front;
      PodCopiesAccounts(w, h, front, c);
      PodCopiesHandles(w, h, front);
      CountPut(PodCopies(w, h, front).handles, last, w.handles[h], c);
    }
  }

  lemma {:induction false} PodCopiesCore(w: World, h: Handle, dsts: seq<Handle>)
    requires Core(w) && h in w.handles && Fresh(w, dsts)
    ensures Core(PodCopies(w, h, dsts))
  {
    if dsts != [] {
      var front, last := dsts[..|dsts| - 1], dsts[|dsts| - 1];
      assert last !in front;
      PodCopiesCore(w, h, front);
      PodCopiesHandles(w, h, front);
      PodCopyKeeps(PodCopies(w, h, front), h, last);
    }
  }

  lemma {:induction false} PodCopiesLoans(w: World, h: Handle, dsts: seq<Handle>)
    requires Shaped(w) && h in w.handles && Fresh(w, dsts)
    ensures var m := w.handles[h];
      PodCopies(w, h, dsts).loans ==
        if Counted(m) then w.loans[m.body.content := w.loans[m.body.content] - |dsts|] else w.loans
  {
    if dsts != [] {
      PodCopiesLoans(w, h, dsts[..|dsts| - 1]);
    }
  }

  lemma SettleEffect(w: World, h: Handle, failed: nat)
    requires Shaped(w) && h in w.handles
    ensures Settle(w, h, failed).handles == w.handles[h := Blank()]
    ensures var m := w.handles[h];
      Settle(w, h, failed).loans ==
        if !Counted(m) || (failed > 0 && !m.shared) then w.loans
        else w.loans[m.body.content := w.loans[m.body.content] - failed + 1]
  {
  }

  lemma SettleKeeps(w: World, h: Handle, failed: nat)
    requires Core(w) && h in w.handles
    requires Counted(w.handles[h]) ==> Tokens(w, w.handles[h].body.content) >= failed
    ensures Core(Settle(w, h, failed))
  {
    RmRefsKeeps(w, h, failed);
    DetachKeeps(RmRefs(w, h, failed), h);
  }

  /** Copying to the accepting pipes and settling: the handles. */
  lemma SpreadHandles(w: World, h: Handle, dsts: seq<Handle>, failed: nat)
    requires Shaped(w) && h in w.handles && Fresh(w, dsts)
    ensures var r := Settle(PodCopies(w, h, dsts), h, failed).handles;
      && r.Keys == w.handles.Keys + (set d | d in dsts)
      && r[h] == Blank()
      && (forall d | d in dsts :: r[d] == w.handles[h])
      && (forall x | x in w.handles && x != h :: r[x] == w.handles[x])
  {
    PodCopiesHandles(w, h, dsts);
    SettleEffect(PodCopies(w, h, dsts), h, failed);
  }

  /** The same: the reserved references. */
  lemma SpreadLoans(w: World, h: Handle, dsts: seq<Handle>, failed: nat)
    requires Shaped(w) && h in w.handles && Fresh(w, dsts)
    ensures var m := w.handles[h];
      Settle(PodCopies(w, h, dsts), h, failed).loans ==
        if !Counted(m) then w.loans
        else w.loans[m.body.content := w.loans[m.body.content] - |dsts|
                                       + if failed > 0 && !m.shared then 0 else 1 - failed]
  {
    var m, u := w.handles[h], PodCopies(w, h, dsts);
    PodCopiesLoans(w, h, dsts);
    SettleEffect(u, h, failed);
    assert u.handles[h] == m;
    if Counted(m) {
      assert u.loans[m.body.content] == w.loans[m.body.content] - |dsts|;
    }
  }

  /** The same: the accounts. */
  lemma SpreadKeeps(w: World, h: Handle, dsts: seq<Handle>, failed: nat)
    requires Core(w) && h in w.handles && Fresh(w, dsts)
    requires Counted(w.handles[h]) ==> Tokens(w, w.handles[h].body.content) >= failed
    ensures Core(Settle(PodCopies(w, h, dsts), h, failed))
  {
    PodCopiesCore(w, h, dsts);
    if Counted(w.handles[h]) {
      PodCopiesAccounts(w, h, dsts, w.handles[h].body.content);
    }
    SettleKeeps(PodCopies(w, h, dsts), h, failed);
  }

  /** u is w with n more references reserved on h, which is shared if that matters. */
  predicate Reserved(w: World, u: World, h: Handle, n: nat)
    requires Shaped(w) && h in w.handles
  {
    var m := w.handles[h];
    && u.handles == w.handles[h := if n > 0 && Counted(m) then m.(shared := true) else m]
    && u.cells.Keys == w.cells.Keys
    && u.loans == if Counted(m) then w.loans[m.body.content := w.loans[m.body.content] + n] else w.loans
  }

  lemma AddRefsAccounts(w: World, h: Handle, n: nat)
    requires Shaped(w) && h in w.handles
    ensures Reserved(w, AddRefs(w, h, n), h, n)
  {
    assert w.handles == w.handles[h := w.handles[h]];
  }

  lemma ReservedTokens(w: World, u: World, h: Handle, n: nat)
    requires Shaped(w) && h in w.handles && Counted(w.handles[h]) && Reserved(w, u, h, n)
    ensures Tokens(u, w.handles[h].body.content) == Tokens(w, w.handles[h].body.content) + n
  {
    CountPut(w.handles, h, u.handles[h], w.handles[h].body.content);
  }

  lemma DistributeCore(w: World, h: Handle, dsts: seq<Handle>, failed: nat)
    requires Inv(w) && h in w.handles && Fresh(w, dsts) && |dsts| + failed > 0
    ensures Core(Settle(PodCopies(AddRefs(w, h, |dsts| + failed - 1), h, dsts), h, failed))
  {
    var n := |dsts| + failed - 1;
    AddRefsKeeps(w, h, n);
    AddRefsAccounts(w, h, n);
    if Counted(w.handles[h]) {
      assert h in Holders(w.handles, w.handles[h].body.content);
      ReservedTokens(w, AddRefs(w, h, n), h, n);
    }
    SpreadKeeps(AddRefs(w, h, n), h, dsts, failed);
  }

  lemma LoansReturn(w: World, u: World, h: Handle, dsts: seq<Handle>, failed: nat)
    requires Shaped(w) && h in w.handles && |dsts| + failed > 0
    requires Reserved(w, u, h, |dsts| + failed - 1) && Shaped(u) && Fresh(u, dsts)
    ensures Settle(PodCopies(u, h, dsts), h, failed).loans == w.loans
  {
    SpreadLoans(u, h, dsts, failed);
  }

  lemma DistributeVsm(w: World, h: Handle, dsts: seq<Handle>)
    requires Core(w) && h in w.handles && Fresh(w, dsts) && w.handles[h].body.Vsm?
    ensures var r := Put(Close(PodCopies(w, h, dsts), h), h, Blank());
      && Core(r) && r.loans == w.loans && r.handles == PodCopies(w, h, dsts).handles[h := Blank()]
  {
    var u := PodCopies(w, h, dsts);
    PodCopiesCore(w, h, dsts);
    PodCopiesLoans(w, h, dsts);
    assert Core(u) && u.handles[h].body.Vsm? && u.loans == w.loans;
    CloseBlank(u, h);
  }

  /** What close followed by init does to a message without content. */
  lemma CloseBlank(u: World, h: Handle)
    requires Core(u) && h in u.handles && !Counted(u.handles[h])
    ensures var r := Put(Close(u, h), h, Blank());
      Core(r) && r.loans == u.loans && r.handles == u.handles[h := Blank()]
  {
    CloseKeeps(u, h);
    BlankKeeps(Close(u, h), h);
  }

  /** The reserved references and the sender's own are exactly used up: one goes with each
      successful write, the failed ones are given back, and nothing stays reserved. */
  lemma DistributeKeeps(w: World, h: Handle, dsts: seq<Handle>, failed: nat)
    requires Inv(w) && Allowed(w, OpDistribute(h, dsts, failed))
    ensures Inv(Distribute(w, h, dsts, failed))
    ensures Distribute(w, h, dsts, failed).loans == w.loans
  {
    if |dsts| + failed == 0 {
      if Counted(w.handles[h]) {
        assert h in Holders(w.handles, w.handles[h].body.content);
      }
      CloseKeeps(w, h);
      BlankKeeps(Close(w, h), h);
    } else if w.handles[h].body.Vsm? {
      DistributeVsm(w, h, dsts);
    } else {
      DistributeCore(w, h, dsts, failed);
      var n := |dsts| + failed - 1;
      AddRefsAccounts(w, h, n);
      LoansReturn(w, AddRefs(w, h, n), h, dsts, failed);
    }
  }

  /** What copying and settling do to one content block. */
  lemma SpreadCells(u: World, h: Handle, dsts: seq<Handle>, failed: nat, c: ContentId)
    requires Shaped(u) && h in u.handles && Fresh(u, dsts) && c in u.cells
    ensures var m, r := u.handles[h], Settle(PodCopies(u, h, dsts), h, failed);
      c in r.cells && r.cells[c] ==
        if failed == 0 || !Holds(m, c) then u.cells[c]
        else if m.shared then Drop(u.cells[c], failed) else CloseCell(false, u.cells[c])
  {
    PodCopiesHandles(u, h, dsts);
    var v := PodCopies(u, h, dsts);
    assert v.cells == u.cells && v.handles[h] == u.handles[h];
  }

  lemma ReservedCell(w: World, h: Handle, n: nat, c: ContentId)
    requires Shaped(w) && h in w.handles && c in w.cells
    ensures var m, u := w.handles[h], AddRefs(w, h, n);
      && Shaped(u) && h in u.handles && c in u.cells
      && u.handles[h] == (if n == 0 || !Counted(m) then m else m.(shared := true))
      && u.cells[c] == if n == 0 || !Holds(m, c) then w.cells[c] else ShareCell(m.shared, w.cells[c], n)
  {
  }

  lemma DistributeContent(w: World, h: Handle, dsts: seq<Handle>, failed: nat, c: ContentId)
    requires Shaped(w) && h in w.handles && Fresh(w, dsts) && c in w.cells && |dsts| + failed > 0
    ensures var m, r := w.handles[h], Settle(PodCopies(AddRefs(w, h, |dsts| + failed - 1), h, dsts), h, failed);
      c in r.cells && r.cells[c] ==
        if Holds(m, c) then SpreadCell(m.shared, w.cells[c], |dsts|, failed) else w.cells[c]
  {
    var u := AddRefs(w, h, |dsts| + failed - 1);
    ReservedCell(w, h, |dsts| + failed - 1, c);
    SpreadCells(u, h, dsts, failed, c);
  }

  /** distribute changes the sender's content as SpreadCell says, and no other content. */
  lemma DistributeCell(w: World, h: Handle, dsts: seq<Handle>, failed: nat, c: ContentId)
    requires Shaped(w) && h in w.handles && Fresh(w, dsts) && c in w.cells
    ensures var r := Distribute(w, h, dsts, failed);
      c in r.cells && r.cells[c] ==
        if Holds(w.handles[h], c) then SpreadCell(w.handles[h].shared, w.cells[c], |dsts|, failed)
        else w.cells[c]
  {
    var n := |dsts| + failed;
    if n > 0 {
      if w.handles[h].body.Vsm? {
        PodCopiesHandles(w, h, dsts);
      } else {
        DistributeContent(w, h, dsts, failed, c);
      }
    }
  }

  /** Every pipe that accepted the frame has its own reference to the sender's content, the sender
      has none, and nobody else's structure is touched. */
  lemma DistributeHandsOn(w: World, h: Handle, dsts: seq<Handle>, failed: nat)
    requires Inv(w) && Allowed(w, OpDistribute(h, dsts, failed))
    ensures var r := Distribute(w, h, dsts, failed).handles;
      && r.Keys == w.handles.Keys + (set d | d in dsts)
      && r[h] == Blank()
      && (forall d | d in dsts :: r[d].body == w.handles[h].body)
      && (forall x | x in w.handles && x != h :: r[x] == w.handles[x])
  {
    var n := |dsts| + failed;
    if n > 0 {
      if w.handles[h].body.Vsm? {
        PodCopiesHandles(w, h, dsts);
        DistributeVsm(w, h, dsts);
      } else {
        AddRefsAccounts(w, h, n - 1);
        SpreadHandles(AddRefs(w, h, n - 1), h, dsts, failed);
      }
    }
  }

  lemma BlankKeeps(w: World, h: Handle)
    requires Core(w) && Vacant(w, h)
    ensures Core(Put(w, h, Blank()))
  {
    forall c | c in w.cells
      ensures Sound(Put(w, h, Blank()), c)
    {
      PutElsewhere(w.handles, h, Blank(), c);
    }
  }

  // ------------------------------------------------------------------ every operation, every run

  lemma RestingTokens(w: World, h: Handle)
    requires Inv(w) && h in w.handles && Counted(w.handles[h])
    ensures Tokens(w, w.handles[h].body.content) > 0
  {
    assert h in Holders(w.handles, w.handles[h].body.content);
  }

  lemma InitKeeps(w: World, h: Handle, m: Message<ContentId>)
    requires Core(w) && Vacant(w, h) && !Counted(m)
    ensures Core(Put(w, h, m))
  {
    forall c | c in w.cells
      ensures Sound(Put(w, h, m), c)
    {
      PutElsewhere(w.handles, h, m, c);
    }
  }

  lemma InitCountedKeeps(w: World, h: Handle, c: ContentId, zeroCopy: bool)
    requires Core(w) && Vacant(w, h) && c !in w.cells
    ensures Core(InitCounted(w, h, c, zeroCopy))
  {
    var r := InitCounted(w, h, c, zeroCopy);
    forall x | x in r.cells
      ensures Sound(r, x)
    {
      if x == c {
        NewContentSound(w, h, c, zeroCopy);
      } else {
        PutElsewhere(w.handles, h, r.handles[h], x);
      }
    }
  }

  lemma NewContentSound(w: World, h: Handle, c: ContentId, zeroCopy: bool)
    requires Shaped(w) && Vacant(w, h) && c !in w.cells
    ensures Sound(InitCounted(w, h, c, zeroCopy), c)
  {
    var r := InitCounted(w, h, c, zeroCopy);
    HoldersPut(w.handles, h, r.handles[h], c);
    assert Holders(w.handles, c) == {};
    assert Holders(r.handles, c) == {h};
  }

  lemma FlagsKeep(w: World, h: Handle, more: bool)
    requires Core(w) && h in w.handles
    ensures Core(Put(w, h, w.handles[h].(more := more)))
  {
    var m := w.handles[h].(more := more);
    forall c | c in w.cells
      ensures Sound(Put(w, h, m), c)
    {
      CountPut(w.handles, h, m, c);
      forall b | AllShared(w.handles, c, b)
        ensures AllShared(w.handles[h := m], c, b)
      {
        assert Holds(m, c) ==> h in Holders(w.handles, c);
        SharedPut(w.handles, h, m, c, b);
      }
    }
  }

  lemma MoveKeeps(w: World, dst: Handle, src: Handle)
    requires Inv(w) && dst in w.handles && src in w.handles && dst != src
    ensures Inv(Move(w, dst, src))
  {
    if !w.handles[src].body.Closed? && !w.handles[dst].body.Closed? {
      if Counted(w.handles[dst]) {
        RestingTokens(w, dst);
      }
      CloseKeeps(w, dst);
      var u := Close(w, dst);
      PodCopyKeeps(u, src, dst);
      DetachKeeps(PodCopy(u, src, dst), src);
    }
  }

  /** Copying uses up the reference that was reserved for it. */
  lemma LentAndUsed(u: World, v: World, src: Handle, dst: Handle)
    requires Shaped(u) && Shaped(v) && src in u.handles && Reserved(u, v, src, 1)
    ensures PodCopy(v, src, dst).loans == u.loans
  {
  }

  lemma CopyKeeps(w: World, dst: Handle, src: Handle)
    requires Inv(w) && dst in w.handles && src in w.handles && dst != src
    ensures Inv(Copy(w, dst, src))
  {
    if !w.handles[src].body.Closed? && !w.handles[dst].body.Closed? {
      if Counted(w.handles[dst]) {
        RestingTokens(w, dst);
      }
      CloseKeeps(w, dst);
      var u := Close(w, dst);
      var v := AddRefs(u, src, 1);
      AddRefsKeeps(u, src, 1);
      AddRefsAccounts(u, src, 1);
      PodCopyKeeps(v, src, dst);
      LentAndUsed(u, v, src, dst);
    }
  }

  lemma StepKeeps(w: World, op: Op)
    requires Inv(w) && Allowed(w, op)
    ensures Inv(Step(w, op))
  {
    match op
    case OpInit(h, m) => InitKeeps(w, h, m);
    case OpInitCounted(h, c, zeroCopy) => InitCountedKeeps(w, h, c, zeroCopy);
    case OpFlags(h, more) => FlagsKeep(w, h, more);
    case OpClose(h) =>
      if Counted(w.handles[h]) {
        RestingTokens(w, h);
      }
      CloseKeeps(w, h);
    case OpMove(dst, src) => MoveKeeps(w, dst, src);
    case OpCopy(dst, src) => CopyKeeps(w, dst, src);
    case OpAddRefs(h, n) => AddRefsKeeps(w, h, n);
    case OpPodCopy(h, dst) => PodCopyKeeps(w, h, dst);
    case OpRmRefs(h, n) =>
      RestingTokens(w, h);
      RmRefsKeeps(w, h, n);
    case OpDistribute(h, dsts, failed) => DistributeKeeps(w, h, dsts, failed);
  }

  ghost predicate Run(trace: seq<World>, ops: seq<Op>) {
    && |trace| == |ops| + 1 && trace[0] == World(map[], map[], map[])
    && forall i | 0 <= i < |ops| ::
         Shaped(trace[i]) && Allowed(trace[i], ops[i]) && trace[i + 1] == Step(trace[i], ops[i])
  }

  lemma {:induction false} RunKeeps(trace: seq<World>, ops: seq<Op>, k: nat)
    requires Run(trace, ops) && k < |trace|
    ensures Inv(trace[k])
    decreases k
  {
    if k > 0 {
      RunKeeps(trace, ops, k - 1);
      assert trace[k - 1 + 1] == Step(trace[k - 1], ops[k - 1]);
      StepKeeps(trace[k - 1], ops[k - 1]);
    }
  }

  /** In every state of every run: a content block has been freed exactly once if no message and no
      reserved reference is left, and not at all before; no message points at a freed block; and the
      count of a shared block is the number of its messages plus the reserved references, while an
      unshared one has exactly one message. */
  lemma FreedExactlyOnce(trace: seq<World>, ops: seq<Op>, k: nat, c: ContentId)
    requires Run(trace, ops) && k < |trace| && c in trace[k].cells
    ensures var w := trace[k];
      && Shaped(w) && w.loans[c] >= 0
      && w.cells[c].frees == (if Holders(w.handles, c) == {} && w.loans[c] == 0 then 1 else 0)
      && (Holders(w.handles, c) != {} ==>
            || (AllShared(w.handles, c, true) && w.cells[c].refcnt == |Holders(w.handles, c)| + w.loans[c])
            || (AllShared(w.handles, c, false) && |Holders(w.handles, c)| == 1 && w.loans[c] == 0))
  {
    RunKeeps(trace, ops, k);
  }

  /** distribute on a counted message nobody else holds: afterwards there is one reference for each
      pipe that accepted, the count says so, and with none accepting the block is freed. */
  lemma DistributeExact(w: World, h: Handle, dsts: seq<Handle>, failed: nat, c: ContentId)
    requires Inv(w) && Allowed(w, OpDistribute(h, dsts, failed))
    requires Holds(w.handles[h], c)
    ensures var r := Distribute(w, h, dsts, failed);
      && Inv(r) && c in r.cells
      && Holders(r.handles, c) == Holders(w.handles, c) - {h} + (set d | d in dsts)
      && Tokens(r, c) == Tokens(w, c) - 1 + |dsts|
      && (r.cells[c].frees == 1 <==> Tokens(w, c) == 1 && dsts == [])
  {
    DistributeKeeps(w, h, dsts, failed);
    DistributeHandsOn(w, h, dsts, failed);
    HandedOn(w.handles, Distribute(w, h, dsts, failed).handles, h, dsts, c);
    RestingTokens(w, h);
  }

  lemma HandedOn(was: Handles, now: Handles, h: Handle, dsts: seq<Handle>, c: ContentId)
    requires h in was && Holds(was[h], c) && Distinct(dsts) && forall d | d in dsts :: d !in was
    requires now.Keys == was.Keys + (set d | d in dsts) && now[h] == Blank()
    requires forall d | d in dsts :: now[d].body == was[h].body
    requires forall x | x in was && x != h :: now[x] == was[x]
    ensures Holders(now, c) == Holders(was, c) - {h} + (set d | d in dsts)
    ensures |Holders(now, c)| == |Holders(was, c)| - 1 + |dsts|
  {
    var slots := set d | d in dsts;
    var rest := Holders(was, c) - {h};
    forall x
      ensures x in Holders(now, c) <==> x in rest + slots
    {
    }
    DistinctSize(dsts);
    assert h in Holders(was, c);
    assert |rest| == |Holders(was, c)| - 1;
    assert rest !! slots;
  }

  lemma {:induction false} DistinctSize<T>(s: seq<T>)
    requires Distinct(s)
    ensures |set x | x in s| == |s|
  {
    if s != [] {
      var front := s[..|s| - 1];
      DistinctSize(front);
      assert (set x | x in s) == (set x | x in front) + {s[|s| - 1]};
      assert s[|s| - 1] !in front;
    }
  }
}
