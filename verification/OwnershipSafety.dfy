/** The inductive invariant of the ownership protocol and safety over all its runs. */
module OwnershipSafety {
  import opened Wrappers
  import opened Ownership

  // ------------------------------------------------------------------ counting in a mailbox

  datatype Kind = Counted | AnyTerm | AnyAck | OwnOf(child: nat)

  predicate Is(k: Kind, cmd: Command) {
    match k
    case Counted => cmd.Plug? || cmd.Own? || cmd.Attach? || cmd.Bind? || cmd.InprocConnected?
    case AnyTerm => cmd.Term?
    case AnyAck => cmd.TermAck?
    case OwnOf(c) => cmd == Own(c)
  }

  function One(b: bool): nat { if b then 1 else 0 }

  function Tally(q: seq<Command>, k: Kind): nat {
    if q == [] then 0 else One(Is(k, q[0])) + Tally(q[1..], k)
  }

  lemma {:induction false} TallySnoc(q: seq<Command>, cmd: Command, k: Kind)
    ensures Tally(q + [cmd], k) == Tally(q, k) + One(Is(k, cmd))
  {
    if q == [] {
    } else {
      assert (q + [cmd])[1..] == q[1..] + [cmd];
      TallySnoc(q[1..], cmd, k);
    }
  }

  lemma {:induction false} TallyZero(q: seq<Command>, k: Kind)
    requires Tally(q, k) == 0
    ensures forall i | 0 <= i < |q| :: !Is(k, q[i])
  {
    if q != [] {
      TallyZero(q[1..], k);
      forall i | 0 <= i < |q|
        ensures !Is(k, q[i])
      {
        assert i > 0 ==> q[i] == q[1..][i - 1];
      }
    }
  }

  lemma {:induction false} TallyPositive(q: seq<Command>, i: nat, k: Kind)
    requires i < |q| && Is(k, q[i])
    ensures Tally(q, k) > 0
  {
    if i > 0 {
      TallyPositive(q[1..], i - 1, k);
    }
  }

  /** An acknowledgement is queued behind position i. */
  predicate AckAfter(q: seq<Command>, i: nat) {
    exists j :: i < j < |q| && q[j].TermAck?
  }

  // ------------------------------------------------------------------ the invariant

  predicate Sized(w: World) {
    |w.mail| == |w.external| == |w.reserved| == |w.nodes|
  }

  /** c has been told to terminate. */
  predicate Termed(w: World, c: nat)
    requires Sized(w) && c < |w.nodes|
  {
    w.nodes[c].terminating || Tally(w.mail[c], AnyTerm) > 0
  }

  predicate Awaited(w: World, o: nat, c: nat)
    requires Sized(w)
  {
    c < |w.nodes| && w.nodes[c].owner == Some(o) && !w.nodes[c].destroyed && Termed(w, c)
  }

  /** The children of o that were told to terminate and have not been destroyed. */
  function Waiting(w: World, o: nat): set<nat>
    requires Sized(w)
  {
    set c | 0 <= c < |w.nodes| && Awaited(w, o, c)
  }

  predicate Links(w: World, o: nat)
    requires Sized(w) && o < |w.nodes|
  {
    && (w.nodes[o].owner.Some? ==> w.nodes[o].owner.value < o)
    && (forall c | c in w.nodes[o].owned :: c < |w.nodes| && w.nodes[c].owner == Some(o))
    && (forall i | 0 <= i < |w.mail[o]| :: w.mail[o][i].Own? ==>
          w.mail[o][i].child < |w.nodes| && w.nodes[w.mail[o][i].child].owner == Some(o))
  }

  /** A termination request from a destroyed child has that child's acknowledgement behind it. */
  predicate Requests(w: World, o: nat)
    requires Sized(w) && o < |w.nodes|
  {
    forall i | 0 <= i < |w.mail[o]| :: w.mail[o][i].TermReq? ==>
      var c := w.mail[o][i].child;
      c < |w.nodes| && w.nodes[c].owner == Some(o) && (w.nodes[c].destroyed ==> AckAfter(w.mail[o], i))
  }

  /** sent - processed is what is in flight or announced; term_acks is what is still owed. */
  predicate Accounts(w: World, o: nat)
    requires Sized(w) && o < |w.nodes|
  {
    && w.nodes[o].sent == w.nodes[o].processed + Tally(w.mail[o], Counted) + w.reserved[o]
    && w.nodes[o].sent < SEQNUM_MODULUS
    && w.nodes[o].termAcks == w.external[o] + Tally(w.mail[o], AnyAck) + |Waiting(w, o)|
  }

  /** An object is told to terminate at most once. */
  predicate TermOnce(w: World, o: nat)
    requires Sized(w) && o < |w.nodes|
  {
    && Tally(w.mail[o], AnyTerm) <= 1
    && (w.nodes[o].terminating || w.nodes[o].owner.None? ==> Tally(w.mail[o], AnyTerm) == 0)
  }

  predicate OwnsNothing(w: World, o: nat)
    requires o < |w.nodes|
  {
    w.nodes[o].terminating ==> w.nodes[o].owned == {}
  }

  /** A child is in exactly one stage: announced to its owner, owned by it, or told to terminate. */
  predicate Stage(w: World, c: nat)
    requires Sized(w) && c < |w.nodes|
  {
    w.nodes[c].owner.Some? ==>
      var p := w.nodes[c].owner.value;
      p < c && One(Termed(w, c)) + One(c in w.nodes[p].owned) + Tally(w.mail[p], OwnOf(c)) == 1
  }

  /** Nothing is left of a destroyed object, and its children went before it. */
  predicate Buried(w: World, o: nat)
    requires Sized(w) && o < |w.nodes|
  {
    w.nodes[o].destroyed ==>
      && w.nodes[o].terminating && w.mail[o] == [] && w.external[o] == 0 && w.reserved[o] == 0
      && forall c | 0 <= c < |w.nodes| && w.nodes[c].owner == Some(o) :: w.nodes[c].destroyed
  }

  predicate Core(w: World, o: nat)
    requires Sized(w) && o < |w.nodes|
  {
    Links(w, o) && Requests(w, o) && Accounts(w, o) && TermOnce(w, o) && Stage(w, o) && Buried(w, o)
  }

  predicate AllCore(w: World) {
    Sized(w) && forall o | 0 <= o < |w.nodes| :: Core(w, o)
  }

  /** A terminating object that could be destroyed has been. */
  predicate Wake(w: World, o: nat)
    requires o < |w.nodes|
  {
    w.nodes[o].terminating && !w.nodes[o].destroyed ==>
      w.nodes[o].sent != w.nodes[o].processed || w.nodes[o].termAcks != 0
  }

  /** The invariant, with object `but` allowed to be ready for destruction. */
  predicate InvBut(w: World, but: nat) {
    && w.ok && AllCore(w)
    && (forall o | 0 <= o < |w.nodes| :: OwnsNothing(w, o))
    && (forall o | 0 <= o < |w.nodes| && o != but :: Wake(w, o))
  }

  predicate Inv(w: World) {
    && w.ok && AllCore(w)
    && (forall o | 0 <= o < |w.nodes| :: OwnsNothing(w, o))
    && (forall o | 0 <= o < |w.nodes| :: Wake(w, o))
  }

  lemma InvShaped(w: World)
    requires AllCore(w)
    ensures Shaped(w)
  {
    forall o | 0 <= o < |w.nodes|
      ensures NodeShaped(w, o)
    {
      assert Core(w, o);
    }
  }

  // ------------------------------------------------------------------ pieces of one step

  /** Objects whose membership in Waiting(_, o) is unchanged leave it unchanged. */
  lemma WaitingSame(w: World, v: World, o: nat)
    requires Sized(w) && Sized(v)
    requires forall c: nat | c < |w.nodes| || c < |v.nodes| :: Awaited(w, o, c) == Awaited(v, o, c)
    ensures Waiting(w, o) == Waiting(v, o)
  {
    forall c: nat
      ensures c in Waiting(w, o) <==> c in Waiting(v, o)
    {
    }
  }

  lemma AckAfterSnoc(q: seq<Command>, cmd: Command, i: nat)
    requires i < |q| && AckAfter(q, i)
    ensures AckAfter(q + [cmd], i)
  {
    var j :| i < j < |q| && q[j].TermAck?;
    assert (q + [cmd])[j].TermAck?;
  }

  lemma AckAfterTail(q: seq<Command>, i: nat)
    requires 0 < i < |q| && AckAfter(q, i)
    ensures AckAfter(q[1..], i - 1)
  {
    var j :| i < j < |q| && q[j].TermAck?;
    assert q[1..][j - 1].TermAck?;
  }

  /** o is ready to go: nothing is in its mailbox and all its children are destroyed. */
  lemma ReadyIsAlone(w: World, o: nat)
    requires InvBut(w, o) && o < |w.nodes|
    requires w.nodes[o].terminating && w.nodes[o].sent == w.nodes[o].processed && w.nodes[o].termAcks == 0
    ensures w.mail[o] == [] && w.external[o] == 0 && w.reserved[o] == 0
    ensures forall c | 0 <= c < |w.nodes| && w.nodes[c].owner == Some(o) :: w.nodes[c].destroyed
  {
    assert Core(w, o) && OwnsNothing(w, o);
    var q := w.mail[o];
    TallyZero(q, Counted);
    TallyZero(q, AnyAck);
    TallyZero(q, AnyTerm);
    assert Waiting(w, o) == {};
    forall c | 0 <= c < |w.nodes| && w.nodes[c].owner == Some(o)
      ensures w.nodes[c].destroyed
    {
      assert Core(w, c);
      if Tally(q, OwnOf(c)) > 0 {
        NoOwn(q, c);
      }
      assert Termed(w, c);
      assert c !in Waiting(w, o);
    }
    if q != [] {
      assert false;
    }
  }

  lemma {:induction false} NoOwn(q: seq<Command>, c: nat)
    ensures Tally(q, OwnOf(c)) <= Tally(q, Counted)
  {
    if q != [] {
      NoOwn(q[1..], c);
    }
  }

  lemma Tallies(q: seq<Command>, cmd: Command)
    ensures forall k :: Tally(q + [cmd], k) == Tally(q, k) + One(Is(k, cmd))
  {
    forall k
      ensures Tally(q + [cmd], k) == Tally(q, k) + One(Is(k, cmd))
    {
      TallySnoc(q, cmd, k);
    }
  }

  // ------------------------------------------------------------------ check_term_acks

  function Checked(w: World, o: nat): World
    requires Shaped(w) && o < |w.nodes|
  {
    Put(w, o, CheckTermAcks(At(w, o)))
  }

  function Bury(w: World, o: nat): (v: World)
    requires Shaped(w) && o < |w.nodes|
    ensures Sized(v) && |v.nodes| == |w.nodes|
  {
    assert NodeShaped(w, o);
    w.(nodes := w.nodes[o := w.nodes[o].(destroyed := true)],
       mail := if w.nodes[o].owner.Some? then Send(w.mail, w.nodes[o].owner.value, TermAck) else w.mail)
  }

  predicate Ready(w: World, o: nat) {
    && InvBut(w, o) && Shaped(w) && Live(w, o)
    && w.nodes[o].terminating && w.nodes[o].sent == w.nodes[o].processed && w.nodes[o].termAcks == 0
  }

  lemma BuryTallies(w: World, o: nat, i: nat)
    requires Shaped(w) && o < |w.nodes| && i < |w.nodes|
    ensures forall k ::
      Tally(Bury(w, o).mail[i], k) == Tally(w.mail[i], k) + One(k.AnyAck? && w.nodes[o].owner == Some(i))
  {
    Tallies(w.mail[i], TermAck);
  }

  lemma BuryAccounts(w: World, o: nat, i: nat)
    requires Ready(w, o) && i < |w.nodes|
    ensures Accounts(Bury(w, o), i)
  {
    var v := Bury(w, o);
    assert Core(w, i) && Core(w, o);
    BuryTallies(w, o, i);
    forall c: nat | c < |w.nodes|
      ensures Termed(v, c) == Termed(w, c)
    {
      BuryTallies(w, o, c);
    }
    if w.nodes[o].owner == Some(i) {
      assert Waiting(v, i) == Waiting(w, i) - {o} by {
        forall c: nat
          ensures c in Waiting(v, i) <==> c in Waiting(w, i) - {o}
        {
        }
      }
      assert Awaited(w, i, o) && o in Waiting(w, i);
    } else {
      WaitingSame(w, v, i);
    }
  }

  lemma BuryRequests(w: World, o: nat, i: nat)
    requires Ready(w, o) && i < |w.nodes|
    ensures Requests(Bury(w, o), i)
  {
    var v := Bury(w, o);
    var q := w.mail[i];
    assert Core(w, i);
    forall j | 0 <= j < |v.mail[i]| && v.mail[i][j].TermReq?
      ensures j < |q| && w.nodes[q[j].child].owner == Some(i)
      ensures v.nodes[q[j].child].destroyed ==> AckAfter(v.mail[i], j)
    {
      if q[j].child == o {
        assert v.mail[i][|q|].TermAck?;
      } else if w.nodes[q[j].child].destroyed && v.mail[i] != q {
        AckAfterSnoc(q, TermAck, j);
      }
    }
  }

  lemma BuryStage(w: World, o: nat, i: nat)
    requires Ready(w, o) && i < |w.nodes|
    ensures Links(Bury(w, o), i) && TermOnce(Bury(w, o), i) && Stage(Bury(w, o), i)
  {
    assert Core(w, i);
    BuryTallies(w, o, i);
    if w.nodes[i].owner.Some? {
      BuryTallies(w, o, w.nodes[i].owner.value);
    }
  }

  lemma BuryCore(w: World, o: nat, i: nat)
    requires Ready(w, o) && i < |w.nodes|
    ensures Core(Bury(w, o), i)
  {
    BuryAccounts(w, o, i);
    BuryRequests(w, o, i);
    BuryStage(w, o, i);
    ReadyIsAlone(w, o);
    assert Core(w, i) && Core(w, o);
  }

  lemma CheckKeeps(w: World, o: nat)
    requires InvBut(w, o) && Shaped(w) && Live(w, o)
    ensures Inv(Checked(w, o))
  {
    assert Core(w, o) && OwnsNothing(w, o);
    var v := Checked(w, o);
    if w.nodes[o].terminating && w.nodes[o].sent == w.nodes[o].processed && w.nodes[o].termAcks == 0 {
      assert v == Bury(w, o);
      forall i | 0 <= i < |w.nodes|
        ensures Core(v, i) && Wake(v, i) && OwnsNothing(v, i)
      {
        BuryCore(w, o, i);
        assert OwnsNothing(w, i) && (i != o ==> Wake(w, i));
      }
    } else {
      assert v.nodes == w.nodes;
      assert v == w;
    }
  }

  // ------------------------------------------------------------------ delivery, up to the final check

  /** w with o's mailbox popped and o's fields replaced. */
  function Popping(w: World, o: nat, node: Node): (v: World)
    requires Shaped(w) && o < |w.nodes| && w.mail[o] != []
    ensures Sized(v) && |v.nodes| == |w.nodes|
  {
    w.(nodes := w.nodes[o := node], mail := w.mail[o := w.mail[o][1..]])
  }

  /** Taking out the first command keeps every later request's acknowledgement behind it. */
  lemma PopRequests(w: World, o: nat)
    requires Sized(w) && o < |w.nodes| && w.mail[o] != [] && Requests(w, o) && Links(w, o)
    ensures Requests(w.(mail := w.mail[o := w.mail[o][1..]]), o)
    ensures Links(w.(mail := w.mail[o := w.mail[o][1..]]), o)
  {
    var q := w.mail[o];
    forall i | 0 <= i < |q[1..]| && q[1..][i].TermReq?
      ensures w.nodes[q[1..][i].child].destroyed ==> AckAfter(q[1..], i)
    {
      assert q[i + 1].TermReq?;
      if w.nodes[q[i + 1].child].destroyed {
        AckAfterTail(q, i + 1);
      }
    }
    forall i | 0 <= i < |q[1..]| && q[1..][i].Own?
      ensures q[1..][i].child < |w.nodes| && w.nodes[q[1..][i].child].owner == Some(o)
    {
      assert q[i + 1].Own?;
    }
  }

  lemma CountedCore(w: World, o: nat, i: nat)
    requires AllCore(w) && Shaped(w) && Live(w, o) && i < |w.nodes|
    requires w.mail[o] != [] && Is(Counted, w.mail[o][0]) && !w.mail[o][0].Own?
    ensures Core(Popping(w, o, w.nodes[o].(processed := w.nodes[o].processed + 1)), i)
  {
    var v := Popping(w, o, w.nodes[o].(processed := w.nodes[o].processed + 1));
    CountedStage(w, o, i);
    CountedAccounts(w, o, i);
    assert Core(w, i) && Core(w, o);
    PopRequests(w, o);
  }

  lemma CountedStage(w: World, o: nat, i: nat)
    requires AllCore(w) && Shaped(w) && Live(w, o) && i < |w.nodes|
    requires w.mail[o] != [] && Is(Counted, w.mail[o][0]) && !w.mail[o][0].Own?
    ensures Stage(Popping(w, o, w.nodes[o].(processed := w.nodes[o].processed + 1)), i)
  {
    assert Core(w, i) && Core(w, o);
  }

  lemma CountedAccounts(w: World, o: nat, i: nat)
    requires AllCore(w) && Shaped(w) && Live(w, o) && i < |w.nodes|
    requires w.mail[o] != [] && Is(Counted, w.mail[o][0]) && !w.mail[o][0].Own?
    ensures Accounts(Popping(w, o, w.nodes[o].(processed := w.nodes[o].processed + 1)), i)
  {
    assert Core(w, i);
    WaitingSame(w, Popping(w, o, w.nodes[o].(processed := w.nodes[o].processed + 1)), i);
  }

  lemma AckCore(w: World, o: nat, i: nat)
    requires AllCore(w) && Shaped(w) && Live(w, o) && i < |w.nodes|
    requires w.mail[o] != [] && w.mail[o][0].TermAck?
    ensures Core(Popping(w, o, w.nodes[o].(termAcks := w.nodes[o].termAcks - 1)), i)
  {
    var v := Popping(w, o, w.nodes[o].(termAcks := w.nodes[o].termAcks - 1));
    assert Core(w, i) && Core(w, o);
    PopRequests(w, o);
    WaitingSame(w, v, i);
  }

  lemma RequestCore(w: World, o: nat, i: nat)
    requires AllCore(w) && Shaped(w) && Live(w, o) && i < |w.nodes|
    requires w.mail[o] != [] && w.mail[o][0].TermReq?
    ensures Core(Popping(w, o, w.nodes[o]), i)
  {
    var v := Popping(w, o, w.nodes[o]);
    assert Core(w, i) && Core(w, o);
    PopRequests(w, o);
    WaitingSame(w, v, i);
  }

  lemma TermCore(w: World, o: nat, i: nat)
    requires AllCore(w) && Shaped(w) && Live(w, o) && i < |w.nodes|
    requires w.mail[o] != [] && w.mail[o][0].Term?
    ensures !w.nodes[o].terminating
    ensures Core(Popping(w, o, w.nodes[o].(terminating := true)), i)
  {
    var v := Popping(w, o, w.nodes[o].(terminating := true));
    assert Core(w, i) && Core(w, o);
    PopRequests(w, o);
    forall c: nat | c < |w.nodes|
      ensures Termed(w, c) == Termed(v, c)
    {
    }
    WaitingSame(w, v, i);
  }

  lemma OwnStage(w: World, o: nat, i: nat)
    requires AllCore(w) && Shaped(w) && Live(w, o) && i < |w.nodes|
    requires w.mail[o] != [] && w.mail[o][0].Own?
    ensures Stage(Popping(w, o,
      w.nodes[o].(processed := w.nodes[o].processed + 1, owned := w.nodes[o].owned + {w.mail[o][0].child})), i)
  {
    var c := w.mail[o][0].child;
    assert Core(w, i) && Core(w, o) && Core(w, c);
    TallyPositive(w.mail[o], 0, OwnOf(c));
  }

  lemma OwnAccounts(w: World, o: nat, i: nat)
    requires AllCore(w) && Shaped(w) && Live(w, o) && i < |w.nodes|
    requires w.mail[o] != [] && w.mail[o][0].Own?
    ensures Accounts(Popping(w, o,
      w.nodes[o].(processed := w.nodes[o].processed + 1, owned := w.nodes[o].owned + {w.mail[o][0].child})), i)
  {
    var v := Popping(w, o,
        w.nodes[o].(processed := w.nodes[o].processed + 1, owned := w.nodes[o].owned + {w.mail[o][0].child}));
    assert Core(w, i);
    WaitingSame(w, v, i);
  }

  /** A newly announced child is owned for the moment, even if its owner is terminating. */
  lemma OwnCore(w: World, o: nat, i: nat)
    requires AllCore(w) && Shaped(w) && Live(w, o) && i < |w.nodes|
    requires w.mail[o] != [] && w.mail[o][0].Own?
    ensures w.mail[o][0].child !in w.nodes[o].owned
    ensures Core(Popping(w, o,
      w.nodes[o].(processed := w.nodes[o].processed + 1, owned := w.nodes[o].owned + {w.mail[o][0].child})), i)
  {
    var c := w.mail[o][0].child;
    var v := Popping(w, o, w.nodes[o].(processed := w.nodes[o].processed + 1, owned := w.nodes[o].owned + {c}));
    assert Core(w, o) && Core(w, c);
    TallyPositive(w.mail[o], 0, OwnOf(c));
    OwnStage(w, o, i);
    OwnAccounts(w, o, i);
    assert Core(w, i);
    PopRequests(w, o);
  }

  // ------------------------------------------------------------------ telling children to terminate

  /** `kids` move from o's owned set to the children o waits for. */
  function Tell(w: World, o: nat, kids: set<nat>, linger: int): (v: World)
    requires Sized(w) && o < |w.nodes|
    ensures Sized(v) && |v.nodes| == |w.nodes|
  {
    w.(nodes := w.nodes[o := w.nodes[o].(owned := w.nodes[o].owned - kids, termAcks := w.nodes[o].termAcks + |kids|)],
       mail := SendAll(w.mail, kids, Term(linger)))
  }

  lemma TellTallies(w: World, o: nat, kids: set<nat>, linger: int, i: nat)
    requires Sized(w) && o < |w.nodes| && i < |w.nodes|
    ensures forall k :: Tally(Tell(w, o, kids, linger).mail[i], k) == Tally(w.mail[i], k) + One(k.AnyTerm? && i in kids)
  {
    Tallies(w.mail[i], Term(linger));
  }

  lemma TellTermed(w: World, o: nat, kids: set<nat>, linger: int)
    requires AllCore(w) && Live(w, o) && kids <= w.nodes[o].owned
    ensures forall c: nat | c < |w.nodes| :: Termed(Tell(w, o, kids, linger), c) == (Termed(w, c) || c in kids)
    ensures forall c | c in kids ::
      c < |w.nodes| && !Termed(w, c) && !w.nodes[c].destroyed && w.nodes[c].owner == Some(o)
  {
    assert Core(w, o);
    forall c: nat | c < |w.nodes|
      ensures Termed(Tell(w, o, kids, linger), c) == (Termed(w, c) || c in kids)
      ensures c in kids ==> !Termed(w, c) && !w.nodes[c].destroyed
    {
      TellTallies(w, o, kids, linger, c);
      assert Core(w, c);
    }
  }

  lemma TellWaiting(w: World, o: nat, kids: set<nat>, linger: int)
    requires AllCore(w) && Live(w, o) && kids <= w.nodes[o].owned
    ensures Waiting(Tell(w, o, kids, linger), o) == Waiting(w, o) + kids
    ensures Waiting(w, o) !! kids
  {
    TellTermed(w, o, kids, linger);
    WaitingGrows(w, Tell(w, o, kids, linger), o, kids);
  }

  lemma WaitingGrows(w: World, v: World, o: nat, kids: set<nat>)
    requires Sized(w) && Sized(v) && |v.nodes| == |w.nodes|
    requires forall c | 0 <= c < |w.nodes| ::
      v.nodes[c].owner == w.nodes[c].owner && v.nodes[c].destroyed == w.nodes[c].destroyed
    requires forall c: nat | c < |w.nodes| :: Termed(v, c) == (Termed(w, c) || c in kids)
    requires forall c | c in kids ::
      c < |w.nodes| && !Termed(w, c) && !w.nodes[c].destroyed && w.nodes[c].owner == Some(o)
    ensures Waiting(v, o) == Waiting(w, o) + kids
    ensures Waiting(w, o) !! kids
  {
    forall c: nat
      ensures c in Waiting(v, o) <==> c in Waiting(w, o) + kids
    {
    }
  }

  lemma TellAccounts(w: World, o: nat, kids: set<nat>, linger: int, i: nat)
    requires AllCore(w) && Live(w, o) && i < |w.nodes| && kids <= w.nodes[o].owned
    ensures Accounts(Tell(w, o, kids, linger), i)
  {
    var v := Tell(w, o, kids, linger);
    assert Core(w, i);
    TellTallies(w, o, kids, linger, i);
    if i == o {
      TellWaiting(w, o, kids, linger);
    } else {
      TellTermed(w, o, kids, linger);
      WaitingSame(w, v, i);
    }
  }

  lemma TellRequests(w: World, o: nat, kids: set<nat>, linger: int, i: nat)
    requires AllCore(w) && Live(w, o) && i < |w.nodes| && kids <= w.nodes[o].owned
    ensures Links(Tell(w, o, kids, linger), i) && Requests(Tell(w, o, kids, linger), i)
  {
    var v := Tell(w, o, kids, linger);
    assert Core(w, i);
    forall j | 0 <= j < |v.mail[i]| && v.mail[i][j].TermReq? && w.nodes[v.mail[i][j].child].destroyed
      ensures AckAfter(v.mail[i], j)
    {
      assert AckAfter(w.mail[i], j);
      if i in kids {
        AckAfterSnoc(w.mail[i], Term(linger), j);
      }
    }
  }

  lemma TellStage(w: World, o: nat, kids: set<nat>, linger: int, i: nat)
    requires AllCore(w) && Live(w, o) && i < |w.nodes| && kids <= w.nodes[o].owned
    ensures TermOnce(Tell(w, o, kids, linger), i) && Stage(Tell(w, o, kids, linger), i)
      && Buried(Tell(w, o, kids, linger), i)
  {
    assert Core(w, i);
    TellTermed(w, o, kids, linger);
    TellTallies(w, o, kids, linger, i);
    if w.nodes[i].owner.Some? {
      TellTallies(w, o, kids, linger, w.nodes[i].owner.value);
    }
  }

  lemma TellKeeps(w: World, o: nat, kids: set<nat>, linger: int)
    requires AllCore(w) && Live(w, o) && kids <= w.nodes[o].owned
    ensures AllCore(Tell(w, o, kids, linger))
  {
    forall i | 0 <= i < |w.nodes|
      ensures Core(Tell(w, o, kids, linger), i)
    {
      TellAccounts(w, o, kids, linger, i);
      TellRequests(w, o, kids, linger, i);
      TellStage(w, o, kids, linger, i);
    }
  }

  // ------------------------------------------------------------------ every action keeps the invariant

  /** The invariant except the bookkeeping of Wake at o, from its parts at o and the unchanged rest. */
  lemma Settle(w: World, v: World, o: nat)
    requires Inv(w) && AllCore(v) && v.ok && o < |w.nodes| == |v.nodes|
    requires forall i | 0 <= i < |w.nodes| && i != o :: v.nodes[i] == w.nodes[i]
    requires OwnsNothing(v, o)
    ensures InvBut(v, o)
    ensures Wake(v, o) ==> Inv(v)
  {
    forall i | 0 <= i < |v.nodes|
      ensures OwnsNothing(v, i) && (i != o ==> Wake(v, i))
    {
      assert OwnsNothing(w, i) && Wake(w, i);
    }
  }

  /** The effect of delivering the first command to o, up to the final check_term_acks. */
  function Unchecked(w: World, o: nat): (v: World)
    requires Shaped(w) && o < |w.nodes| && w.mail[o] != []
    ensures Sized(v) && |v.nodes| == |w.nodes|
  {
    var n := w.nodes[o];
    match w.mail[o][0]
    case Own(c) =>
      var v := Popping(w, o, n.(processed := n.processed + 1, owned := n.owned + {c}));
      if n.terminating then Tell(v, o, {c}, 0) else v
    case TermReq(c) =>
      var v := Popping(w, o, n);
      if !n.terminating && c in n.owned then Tell(v, o, {c}, n.linger) else v
    case Term(l) => Tell(Popping(w, o, n.(terminating := true)), o, n.owned, l)
    case TermAck => Popping(w, o, n.(termAcks := n.termAcks - 1))
    case _ => Popping(w, o, n.(processed := n.processed + 1))
  }

  predicate Delivered(w: World, o: nat)
    requires Shaped(w) && o < |w.nodes| && w.mail[o] != []
  {
    var v := Unchecked(w, o);
    && InvBut(v, o) && Shaped(v)
    && Step(w, Deliver(o)) == if w.mail[o][0].TermReq? then v else Checked(v, o)
  }

  lemma DeliverCounted(w: World, o: nat)
    requires Inv(w) && Shaped(w) && o < |w.nodes| && w.mail[o] != [] && Live(w, o)
    requires Is(Counted, w.mail[o][0]) && !w.mail[o][0].Own?
    ensures Delivered(w, o)
    ensures Inv(Step(w, Deliver(o)))
  {
    var v := Popping(w, o, w.nodes[o].(processed := w.nodes[o].processed + 1));
    forall i | 0 <= i < |v.nodes| ensures Core(v, i) { CountedCore(w, o, i); }
    assert OwnsNothing(w, o);
    Settle(w, v, o);
    InvShaped(v);
    CheckKeeps(v, o);
    assert Step(w, Deliver(o)) == Checked(v, o);
  }

  lemma DeliverOwn(w: World, o: nat)
    requires Inv(w) && Shaped(w) && o < |w.nodes| && w.mail[o] != [] && Live(w, o)
    requires w.mail[o][0].Own?
    ensures Delivered(w, o)
    ensures Inv(Step(w, Deliver(o)))
  {
    var c := w.mail[o][0].child;
    assert NodeShaped(w, o) && OwnsNothing(w, o);
    assert CommandNamed(w.mail[o][0], |w.nodes|);
    var v := Popping(w, o, w.nodes[o].(processed := w.nodes[o].processed + 1, owned := w.nodes[o].owned + {c}));
    forall i | 0 <= i < |v.nodes| ensures Core(v, i) { OwnCore(w, o, i); }
    if w.nodes[o].terminating {
      var t := Tell(v, o, {c}, 0);
      TellKeeps(v, o, {c}, 0);
      assert t.nodes[o].owned == {};
      Settle(w, t, o);
      InvShaped(t);
      CheckKeeps(t, o);
      assert t.mail == Send(w.mail[o := w.mail[o][1..]], c, Term(0));
      assert Step(w, Deliver(o)) == Checked(t, o);
    } else {
      Settle(w, v, o);
      InvShaped(v);
      CheckKeeps(v, o);
      assert Step(w, Deliver(o)) == Checked(v, o);
    }
  }

  lemma DeliverTermReq(w: World, o: nat)
    requires Inv(w) && Shaped(w) && o < |w.nodes| && w.mail[o] != [] && Live(w, o)
    requires w.mail[o][0].TermReq?
    ensures Delivered(w, o)
    ensures Inv(Step(w, Deliver(o)))
  {
    var c := w.mail[o][0].child;
    var v := Popping(w, o, w.nodes[o]);
    assert NodeShaped(w, o) && OwnsNothing(w, o) && Wake(w, o);
    forall i | 0 <= i < |v.nodes| ensures Core(v, i) { RequestCore(w, o, i); }
    Settle(w, v, o);
    if !w.nodes[o].terminating && c in w.nodes[o].owned {
      var t := Tell(v, o, {c}, w.nodes[o].linger);
      TellKeeps(v, o, {c}, w.nodes[o].linger);
      Settle(w, t, o);
      InvShaped(t);
      assert t.mail == Send(w.mail[o := w.mail[o][1..]], c, Term(w.nodes[o].linger));
      assert Step(w, Deliver(o)) == t;
    } else {
      InvShaped(v);
      assert Step(w, Deliver(o)) == v;
    }
  }

  lemma DeliverTerm(w: World, o: nat)
    requires Inv(w) && Shaped(w) && o < |w.nodes| && w.mail[o] != [] && Live(w, o)
    requires w.mail[o][0].Term?
    ensures Delivered(w, o)
    ensures Inv(Step(w, Deliver(o)))
  {
    var l := w.mail[o][0].linger;
    var v := Popping(w, o, w.nodes[o].(terminating := true));
    forall i | 0 <= i < |v.nodes| ensures Core(v, i) { TermCore(w, o, i); }
    TermCore(w, o, o);
    var t := Tell(v, o, v.nodes[o].owned, l);
    TellKeeps(v, o, v.nodes[o].owned, l);
    assert t.nodes[o].owned == {};
    Settle(w, t, o);
    InvShaped(t);
    CheckKeeps(t, o);
    assert Step(w, Deliver(o)) == Checked(t, o);
  }

  lemma DeliverTermAck(w: World, o: nat)
    requires Inv(w) && Shaped(w) && o < |w.nodes| && w.mail[o] != [] && Live(w, o)
    requires w.mail[o][0].TermAck?
    ensures Delivered(w, o)
    ensures Inv(Step(w, Deliver(o)))
  {
    var v := Popping(w, o, w.nodes[o].(termAcks := w.nodes[o].termAcks - 1));
    forall i | 0 <= i < |v.nodes| ensures Core(v, i) { AckCore(w, o, i); }
    assert Core(w, o) && OwnsNothing(w, o);
    TallyPositive(w.mail[o], 0, AnyAck);
    Settle(w, v, o);
    InvShaped(v);
    CheckKeeps(v, o);
    assert Step(w, Deliver(o)) == Checked(v, o);
  }

  /** A command is only ever delivered to a live object. */
  lemma DeliverKeeps(w: World, o: nat)
    requires Inv(w) && Shaped(w) && o < |w.nodes| && w.mail[o] != []
    ensures Live(w, o)
    ensures Delivered(w, o)
    ensures Inv(Step(w, Deliver(o)))
  {
    assert Core(w, o);
    match w.mail[o][0]
    case Own(_) => DeliverOwn(w, o);
    case TermReq(_) => DeliverTermReq(w, o);
    case Term(_) => DeliverTerm(w, o);
    case TermAck => DeliverTermAck(w, o);
    case _ => DeliverCounted(w, o);
  }

  function Doomed(w: World, o: nat): World
    requires o < |w.nodes|
  {
    w.(nodes := w.nodes[o := w.nodes[o].(terminating := true)])
  }

  /** Nobody counts the commands that a root is told to terminate by. */
  lemma DoomedCore(w: World, o: nat)
    requires Inv(w) && Live(w, o) && !w.nodes[o].terminating && w.nodes[o].owner.None?
    ensures AllCore(Doomed(w, o))
  {
    forall i | 0 <= i < |w.nodes|
      ensures Core(Doomed(w, o), i)
    {
      assert Core(w, i);
      WaitingSame(w, Doomed(w, o), i);
    }
  }

  lemma TerminateRootKeeps(w: World, o: nat)
    requires Inv(w) && Shaped(w) && Live(w, o) && !w.nodes[o].terminating && w.nodes[o].owner.None?
    ensures Inv(Step(w, Terminate(o)))
  {
    assert Core(w, o);
    var v := Doomed(w, o);
    DoomedCore(w, o);
    var t := Tell(v, o, v.nodes[o].owned, w.nodes[o].linger);
    TellKeeps(v, o, v.nodes[o].owned, w.nodes[o].linger);
    assert t.nodes[o].owned == {};
    Settle(w, t, o);
    InvShaped(t);
    CheckKeeps(t, o);
    assert Step(w, Terminate(o)) == Checked(t, o);
  }

  lemma RequestSentCore(w: World, o: nat, i: nat)
    requires Inv(w) && Live(w, o) && w.nodes[o].owner.Some? && w.nodes[o].owner.value < |w.nodes| && i < |w.nodes|
    ensures Core(w.(mail := Send(w.mail, w.nodes[o].owner.value, TermReq(o))), i)
  {
    var p := w.nodes[o].owner.value;
    Tallies(w.mail[p], TermReq(o));
    assert Core(w, i) && Core(w, p);
    WaitingSame(w, w.(mail := Send(w.mail, p, TermReq(o))), i);
    RequestSnoc(w, p, o, i);
  }

  lemma TerminateOwnedKeeps(w: World, o: nat)
    requires Inv(w) && Shaped(w) && Live(w, o) && !w.nodes[o].terminating && w.nodes[o].owner.Some?
    ensures Inv(Step(w, Terminate(o)))
  {
    assert Core(w, o) && Wake(w, o) && OwnsNothing(w, o);
    var p := w.nodes[o].owner.value;
    var v := w.(mail := Send(w.mail, p, TermReq(o)));
    forall i | 0 <= i < |v.nodes|
      ensures Core(v, i)
    {
      RequestSentCore(w, o, i);
    }
    Settle(w, v, o);
    assert w.nodes[o := w.nodes[o]] == w.nodes;
    assert Step(w, Terminate(o)) == v;
  }

  lemma RequestSnoc(w: World, p: nat, o: nat, i: nat)
    requires AllCore(w) && Live(w, o) && p < |w.nodes| && w.nodes[o].owner == Some(p) && i < |w.nodes|
    ensures Requests(w.(mail := Send(w.mail, p, TermReq(o))), i)
  {
    assert Core(w, i);
    forall j | 0 <= j < |w.mail[i]| && w.mail[i][j].TermReq? && w.nodes[w.mail[i][j].child].destroyed
      ensures AckAfter(Send(w.mail, p, TermReq(o))[i], j)
    {
      if i == p {
        AckAfterSnoc(w.mail[i], TermReq(o), j);
      }
    }
  }

  lemma TermChildKeeps(w: World, p: nat, c: nat)
    requires Inv(w) && Shaped(w) && Live(w, p)
    ensures Inv(Step(w, TermChild(p, c)))
  {
    assert NodeShaped(w, p) && OwnsNothing(w, p) && Wake(w, p);
    if !w.nodes[p].terminating && c in w.nodes[p].owned {
      var t := Tell(w, p, {c}, w.nodes[p].linger);
      TellKeeps(w, p, {c}, w.nodes[p].linger);
      Settle(w, t, p);
      assert t.mail == Send(w.mail, c, Term(w.nodes[p].linger));
      assert Step(w, TermChild(p, c)) == t;
    } else {
      assert Step(w, TermChild(p, c)) == w;
    }
  }

  /** Actions that only move o's counters together with the environment's. */
  lemma CountersKeep(w: World, v: World, o: nat)
    requires Inv(w) && Live(w, o) && v.ok && v.mail == w.mail && Sized(v) && |v.nodes| == |w.nodes|
    requires forall i | 0 <= i < |w.nodes| && i != o ::
      v.nodes[i] == w.nodes[i] && v.external[i] == w.external[i] && v.reserved[i] == w.reserved[i]
    requires v.nodes[o] == w.nodes[o].(sent := v.nodes[o].sent, termAcks := v.nodes[o].termAcks)
    requires v.nodes[o].termAcks + w.external[o] == w.nodes[o].termAcks + v.external[o]
    requires v.nodes[o].sent + w.reserved[o] == w.nodes[o].sent + v.reserved[o]
    requires v.nodes[o].sent < SEQNUM_MODULUS
    ensures InvBut(v, o) && Shaped(v)
  {
    assert OwnsNothing(w, o);
    forall i | 0 <= i < |v.nodes|
      ensures Core(v, i)
    {
      assert Core(w, i);
      WaitingSame(w, v, i);
    }
    Settle(w, v, o);
    InvShaped(v);
  }

  /** unregister_term_ack up to its final check. */
  function Unregistering(w: World, o: nat): World
    requires Sized(w) && o < |w.nodes| && w.external[o] > 0
  {
    w.(nodes := w.nodes[o := w.nodes[o].(termAcks := w.nodes[o].termAcks - 1)],
       external := w.external[o := w.external[o] - 1])
  }

  lemma UnregisterKeeps(w: World, o: nat)
    requires Inv(w) && Shaped(w) && o < |w.nodes| && w.external[o] > 0
    ensures Live(w, o)
    ensures InvBut(Unregistering(w, o), o) && Shaped(Unregistering(w, o))
    ensures Step(w, UnregisterAck(o)) == Checked(Unregistering(w, o), o)
    ensures Inv(Step(w, UnregisterAck(o)))
  {
    assert Core(w, o);
    CountersKeep(w, Unregistering(w, o), o);
    CheckKeeps(Unregistering(w, o), o);
    assert Step(w, UnregisterAck(o)) == Checked(Unregistering(w, o), o);
  }

  lemma RegisterKeeps(w: World, o: nat, k: nat)
    requires Inv(w) && Shaped(w) && Live(w, o)
    ensures Inv(Step(w, RegisterAcks(o, k)))
  {
    var v := Step(w, RegisterAcks(o, k));
    assert Core(w, o) && Wake(w, o);
    CountersKeep(w, v, o);
    assert OwnsNothing(w, o);
    Settle(w, v, o);
  }

  lemma IncSeqnumKeeps(w: World, o: nat)
    requires Inv(w) && Shaped(w) && Enabled(w, IncSeqnum(o))
    ensures Inv(Step(w, IncSeqnum(o)))
  {
    var v := Step(w, IncSeqnum(o));
    assert Core(w, o) && Wake(w, o);
    CountersKeep(w, v, o);
    assert OwnsNothing(w, o);
    Settle(w, v, o);
  }

  lemma SendHeldKeeps(w: World, o: nat, cmd: Command)
    requires Inv(w) && Shaped(w) && Enabled(w, SendHeld(o, cmd))
    ensures Live(w, o)
    ensures Inv(Step(w, SendHeld(o, cmd)))
  {
    var v := Step(w, SendHeld(o, cmd));
    assert Core(w, o) && Wake(w, o) && OwnsNothing(w, o);
    Tallies(w.mail[o], cmd);
    forall i | 0 <= i < |v.nodes|
      ensures Core(v, i)
    {
      assert Core(w, i);
      WaitingSame(w, v, i);
      forall j | 0 <= j < |w.mail[i]| && w.mail[i][j].TermReq? && w.nodes[w.mail[i][j].child].destroyed
        ensures AckAfter(v.mail[i], j)
      {
        if i == o {
          AckAfterSnoc(w.mail[i], cmd, j);
        }
      }
    }
    Settle(w, v, o);
  }

  /** Nobody is a child of the newest object. */
  lemma NoChildYet(w: World, v: World, o: nat)
    requires AllCore(w) && Sized(v) && |v.nodes| == |w.nodes| + 1 && o == |w.nodes|
    requires forall i | 0 <= i < |w.nodes| :: v.nodes[i].owner == w.nodes[i].owner
    requires v.nodes[o].owner.Some? ==> v.nodes[o].owner.value < o
    ensures Waiting(v, o) == {}
  {
    forall c: nat
      ensures !Awaited(v, o, c)
    {
      if c < |w.nodes| {
        assert Core(w, c);
      }
    }
  }

  lemma NewRootKeeps(w: World, l: int)
    requires Inv(w) && Shaped(w)
    ensures Inv(Step(w, NewRoot(l)))
  {
    var v := Step(w, NewRoot(l));
    forall i | 0 <= i < |v.nodes|
      ensures Core(v, i) && Wake(v, i) && OwnsNothing(v, i)
    {
      if i < |w.nodes| {
        assert Core(w, i) && Wake(w, i) && OwnsNothing(w, i);
        WaitingSame(w, v, i);
      } else {
        NoChildYet(w, v, i);
      }
    }
  }

  lemma LaunchKeeps(w: World, p: nat, l: int, held: nat)
    requires Inv(w) && Shaped(w) && Enabled(w, Launch(p, l, held))
    ensures Inv(Step(w, Launch(p, l, held)))
  {
    var v := Step(w, Launch(p, l, held));
    LaunchNew(w, p, l, held);
    assert v.nodes[|w.nodes|] == NewNode(Some(p), l, held + 1);
    forall i | 0 <= i < |v.nodes|
      ensures Core(v, i) && Wake(v, i) && OwnsNothing(v, i)
    {
      if i < |w.nodes| {
        LaunchOld(w, p, l, held, i);
        LaunchOldMail(w, p, l, held, i);
        assert Core(w, i) && Wake(w, i) && OwnsNothing(w, i);
      }
    }
  }

  lemma LaunchTallies(w: World, p: nat, l: int, held: nat, i: nat)
    requires Inv(w) && Shaped(w) && Enabled(w, Launch(p, l, held)) && i <= |w.nodes|
    ensures i < |w.nodes| ==> forall k ::
      Tally(Step(w, Launch(p, l, held)).mail[i], k) == Tally(w.mail[i], k) + One(i == p && Is(k, Own(|w.nodes|)))
    ensures i == |w.nodes| ==> forall k :: Tally(Step(w, Launch(p, l, held)).mail[i], k) == One(Is(k, Plug))
  {
    if i < |w.nodes| {
      Tallies(w.mail[i], Own(|w.nodes|));
    } else {
      forall k
        ensures Tally([Plug], k) == One(Is(k, Plug))
      {
        assert Tally([Plug], k) == One(Is(k, Plug)) + Tally([Plug][1..], k);
      }
      assert Step(w, Launch(p, l, held)).mail[i] == [Plug];
    }
  }

  lemma LaunchOld(w: World, p: nat, l: int, held: nat, i: nat)
    requires Inv(w) && Shaped(w) && Enabled(w, Launch(p, l, held)) && i < |w.nodes|
    ensures Accounts(Step(w, Launch(p, l, held)), i) && TermOnce(Step(w, Launch(p, l, held)), i)
    ensures Stage(Step(w, Launch(p, l, held)), i)
  {
    var v := Step(w, Launch(p, l, held));
    assert Core(w, i);
    forall c: nat | c <= |w.nodes|
      ensures c < |w.nodes| ==> Termed(v, c) == Termed(w, c)
      ensures c == |w.nodes| ==> !Termed(v, c)
    {
      LaunchTallies(w, p, l, held, c);
    }
    WaitingSame(w, v, i);
    LaunchTallies(w, p, l, held, i);
    if w.nodes[i].owner.Some? {
      LaunchTallies(w, p, l, held, w.nodes[i].owner.value);
    }
  }

  lemma LaunchOldMail(w: World, p: nat, l: int, held: nat, i: nat)
    requires Inv(w) && Shaped(w) && Enabled(w, Launch(p, l, held)) && i < |w.nodes|
    ensures Links(Step(w, Launch(p, l, held)), i) && Requests(Step(w, Launch(p, l, held)), i)
    ensures Buried(Step(w, Launch(p, l, held)), i)
  {
    var v := Step(w, Launch(p, l, held));
    assert Core(w, i);
    forall j | 0 <= j < |w.mail[i]| && w.mail[i][j].TermReq? && w.nodes[w.mail[i][j].child].destroyed
      ensures AckAfter(v.mail[i], j)
    {
      if i == p {
        AckAfterSnoc(w.mail[i], Own(|w.nodes|), j);
      }
    }
  }

  lemma LaunchNew(w: World, p: nat, l: int, held: nat)
    requires Inv(w) && Shaped(w) && Enabled(w, Launch(p, l, held))
    ensures Core(Step(w, Launch(p, l, held)), |w.nodes|)
  {
    var c := |w.nodes|;
    var v := Step(w, Launch(p, l, held));
    assert v.mail[c] == [Plug] && v.nodes[c] == NewNode(Some(p), l, held + 1);
    LaunchTallies(w, p, l, held, c);
    LaunchTallies(w, p, l, held, p);
    assert Core(w, p);
    NoChildYet(w, v, c);
    NoStranger(w, p, c);
  }

  /** Nobody announces an object that does not exist yet. */
  lemma NoStranger(w: World, p: nat, c: nat)
    requires AllCore(w) && p < |w.nodes| <= c
    ensures Tally(w.mail[p], OwnOf(c)) == 0
  {
    assert Core(w, p);
    NoneIn(w.mail[p], OwnOf(c));
  }

  lemma {:induction false} NoneIn(q: seq<Command>, k: Kind)
    requires forall i | 0 <= i < |q| :: !Is(k, q[i])
    ensures Tally(q, k) == 0
  {
    if q != [] {
      assert forall i | 0 <= i < |q[1..]| :: q[1..][i] == q[i + 1];
      NoneIn(q[1..], k);
    }
  }

  lemma {:induction false} TallyReordered(q: seq<Command>, i: nat, k: Kind)
    requires i + 1 < |q|
    ensures Tally(Reordered(q, i), k) == Tally(q, k)
    decreases i
  {
    var r := Reordered(q, i);
    if i == 0 {
      assert r[1..][1..] == q[1..][1..];
    } else {
      assert r[1..] == Reordered(q[1..], i - 1);
      TallyReordered(q[1..], i - 1, k);
    }
  }

  /** Requests and acknowledgements stay in order when something else is moved back by one place. */
  lemma AckAfterReordered(q: seq<Command>, i: nat, j: nat)
    requires i + 1 < |q| && q[i].Own? && j < |q| && q[j].TermReq? && AckAfter(q, j)
    ensures AckAfter(Reordered(q, i), if j == i + 1 then i else j)
  {
    var l :| j < l < |q| && q[l].TermAck?;
    assert Reordered(q, i)[if l == i + 1 then i else l].TermAck?;
  }

  lemma OvertakeRequests(w: World, o: nat, i: nat)
    requires Inv(w) && Shaped(w) && Enabled(w, Overtake(o, i))
    ensures Requests(Step(w, Overtake(o, i)), o) && Links(Step(w, Overtake(o, i)), o)
  {
    assert Core(w, o);
    var q, r := w.mail[o], Reordered(w.mail[o], i);
    forall j | 0 <= j < |r| && r[j].TermReq?
      ensures r[j].child < |w.nodes| && w.nodes[r[j].child].owner == Some(o)
      ensures w.nodes[r[j].child].destroyed ==> AckAfter(r, j)
    {
      var k := if j == i then i + 1 else j;
      assert q[k] == r[j];
      if w.nodes[r[j].child].destroyed {
        AckAfterReordered(q, i, k);
      }
    }
  }

  lemma OvertakeKeeps(w: World, o: nat, i: nat)
    requires Inv(w) && Shaped(w) && Enabled(w, Overtake(o, i))
    ensures Inv(Step(w, Overtake(o, i)))
  {
    var v := Step(w, Overtake(o, i));
    forall j: nat, k | j < |w.nodes|
      ensures Tally(v.mail[j], k) == Tally(w.mail[j], k)
    {
      if j == o {
        TallyReordered(w.mail[o], i, k);
      }
    }
    OvertakeRequests(w, o, i);
    forall j | 0 <= j < |v.nodes|
      ensures Core(v, j) && Wake(v, j) && OwnsNothing(v, j)
    {
      assert Core(w, j) && Wake(w, j) && OwnsNothing(w, j) && Core(w, o);
      WaitingSame(w, v, j);
    }
  }

  lemma StepKeeps(w: World, a: Action)
    requires Inv(w) && Shaped(w) && Enabled(w, a)
    ensures Inv(Step(w, a))
  {
    match a
    case NewRoot(l) => NewRootKeeps(w, l);
    case Launch(p, l, held) => LaunchKeeps(w, p, l, held);
    case Terminate(o) => {
      if w.nodes[o].terminating {
        assert w.nodes[o := w.nodes[o]] == w.nodes;
      } else if w.nodes[o].owner.None? {
        TerminateRootKeeps(w, o);
      } else {
        TerminateOwnedKeeps(w, o);
      }
    }
    case TermChild(p, c) => TermChildKeeps(w, p, c);
    case RegisterAcks(o, k) => RegisterKeeps(w, o, k);
    case UnregisterAck(o) => UnregisterKeeps(w, o);
    case IncSeqnum(o) => IncSeqnumKeeps(w, o);
    case SendHeld(o, cmd) => SendHeldKeeps(w, o, cmd);
    case Deliver(o) => DeliverKeeps(w, o);
    case Overtake(o, i) => OvertakeKeeps(w, o, i);
  }
}
