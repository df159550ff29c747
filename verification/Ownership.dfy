/**
 The ownership and termination protocol of own_t and object_t.

 Objects form a forest. They exchange commands through mailboxes, one FIFO queue per
 destination. A handler of one command is one atomic step. Objects are named by their
 position in `World.nodes`; a destroyed object keeps its position as a tombstone.

 Sending to a destroyed object, delivering to one, or failing one of the source's
 assertions clears `ok`, so that "nothing goes wrong" is a property of reachable states
 and not an assumption.
 */
module Ownership {
  import opened Wrappers

  /** Width of the atomic 32-bit counter `sent_seqnum`. */
  const SEQNUM_MODULUS := 0x1_0000_0000

  datatype Command =
    | Plug
    | Own(child: nat)
    | Attach
    | Bind
    | InprocConnected
    | TermReq(child: nat)
    | Term(linger: int)
    | TermAck

  /** The fields of own_t. `sent` counts all increments; the source reads it modulo 2^32. */
  datatype Node = Node(
    terminating: bool,
    sent: nat,
    processed: nat,
    owner: Option<nat>,
    owned: set<nat>,
    termAcks: int,
    linger: int,
    destroyed: bool)

  type Mail = seq<seq<Command>>

  /** What one handler sees: its own object, all mailboxes, and whether all assertions held. */
  datatype Cell = Cell(node: Node, mail: Mail, ok: bool)

  /** `external[o]` and `reserved[o]` belong to the environment: acknowledgements that
      register_term_acks announced, and inc_seqnum calls whose command is still to be sent. */
  datatype World = World(nodes: seq<Node>, mail: Mail, external: seq<nat>, reserved: seq<nat>, ok: bool)

  // ------------------------------------------------------------------ the handlers

  function Send(mail: Mail, to: nat, cmd: Command): (r: Mail)
    requires to < |mail|
  {
    mail[to := mail[to] + [cmd]]
  }

  /** One copy of `cmd` to every member of `to`. */
  function SendAll(mail: Mail, to: set<nat>, cmd: Command): (r: Mail)
    ensures |r| == |mail|
    ensures forall i | 0 <= i < |mail| :: r[i] == if i in to then mail[i] + [cmd] else mail[i]
  {
    seq(|mail|, i requires 0 <= i < |mail| => if i in to then mail[i] + [cmd] else mail[i])
  }

  /** The names an object holds are names of objects. */
  predicate Named(x: Cell) {
    (x.node.owner.Some? ==> x.node.owner.value < |x.mail|) && forall c | c in x.node.owned :: c < |x.mail|
  }

  function CheckTermAcks(x: Cell): (r: Cell)
    requires Named(x)
  {
    if x.node.terminating && x.node.processed == x.node.sent % SEQNUM_MODULUS && x.node.termAcks == 0 then
      Cell(
        x.node.(destroyed := true),
        if x.node.owner.Some? then Send(x.mail, x.node.owner.value, TermAck) else x.mail,
        x.ok && x.node.owned == {} && !x.node.destroyed)
    else
      x
  }

  function ProcessSeqnum(x: Cell): (r: Cell)
    requires Named(x)
  {
    CheckTermAcks(x.(node := x.node.(processed := x.node.processed + 1)))
  }

  function ProcessOwn(x: Cell, child: nat): (r: Cell)
    requires child < |x.mail|
  {
    if x.node.terminating then
      Cell(x.node.(termAcks := x.node.termAcks + 1), Send(x.mail, child, Term(0)), x.ok)
    else
      x.(node := x.node.(owned := x.node.owned + {child}))
  }

  function ProcessTermReq(x: Cell, child: nat): (r: Cell)
    requires Named(x)
  {
    if x.node.terminating || child !in x.node.owned then
      x
    else
      Cell(
        x.node.(owned := x.node.owned - {child}, termAcks := x.node.termAcks + 1),
        Send(x.mail, child, Term(x.node.linger)),
        x.ok)
  }

  /** process_term up to its final check. */
  function StartTermination(x: Cell, linger: int): (r: Cell) {
    Cell(
      x.node.(owned := {}, termAcks := x.node.termAcks + |x.node.owned|, terminating := true),
      SendAll(x.mail, x.node.owned, Term(linger)),
      x.ok && !x.node.terminating)
  }

  function ProcessTerm(x: Cell, linger: int): (r: Cell)
    requires Named(x)
  {
    CheckTermAcks(StartTermination(x, linger))
  }

  function UnregisterTermAck(x: Cell): (r: Cell)
    requires Named(x)
  {
    CheckTermAcks(Cell(x.node.(termAcks := x.node.termAcks - 1), x.mail, x.ok && x.node.termAcks > 0))
  }

  function TerminateSelf(x: Cell, self: nat): (r: Cell)
    requires Named(x)
  {
    if x.node.terminating then x
    else if x.node.owner.None? then ProcessTerm(x, x.node.linger)
    else x.(mail := Send(x.mail, x.node.owner.value, TermReq(self)))
  }

  predicate CommandNamed(cmd: Command, n: nat) {
    cmd.Own? ==> cmd.child < n
  }

  function ProcessCommand(x: Cell, cmd: Command): (r: Cell)
    requires Named(x) && CommandNamed(cmd, |x.mail|)
  {
    match cmd
    case Own(c) => ProcessSeqnum(ProcessOwn(x, c))
    case TermReq(c) => ProcessTermReq(x, c)
    case Term(l) => ProcessTerm(x, l)
    case TermAck => UnregisterTermAck(x)
    case _ => ProcessSeqnum(x)
  }

  // ------------------------------------------------------------------ the step system

  datatype Action =
    | NewRoot(linger: int)
    | Launch(parent: nat, linger: int, held: nat)
    | Terminate(self: nat)
    | TermChild(parent: nat, child: nat)
    | RegisterAcks(self: nat, count: nat)
    | UnregisterAck(self: nat)
    | IncSeqnum(to: nat)
    | SendHeld(to: nat, cmd: Command)
    | Deliver(to: nat)
    | Overtake(to: nat, at: nat)

  const INITIAL := World([], [], [], [], true)

  predicate Shaped(w: World) {
    && |w.mail| == |w.external| == |w.reserved| == |w.nodes|
    && forall o | 0 <= o < |w.nodes| :: NodeShaped(w, o)
  }

  predicate NodeShaped(w: World, o: nat)
    requires o < |w.nodes| && |w.mail| == |w.nodes|
  {
    && (w.nodes[o].owner.Some? ==> w.nodes[o].owner.value < o)
    && (forall c | c in w.nodes[o].owned :: c < |w.nodes|)
    && (forall i | 0 <= i < |w.mail[o]| :: CommandNamed(w.mail[o][i], |w.nodes|))
  }

  predicate Live(w: World, o: nat) {
    o < |w.nodes| && !w.nodes[o].destroyed
  }

  /** What the environment must respect: it runs code of live objects only, releases what it
      registered, sends the commands it announced, and keeps below 2^32 counted commands. */
  predicate Enabled(w: World, a: Action)
    requires Shaped(w)
  {
    match a
    case NewRoot(_) => true
    case Launch(p, _, held) => Live(w, p) && w.nodes[p].sent + 1 < SEQNUM_MODULUS && held + 1 < SEQNUM_MODULUS
    case Terminate(o) => Live(w, o)
    case TermChild(p, _) => Live(w, p)
    case RegisterAcks(o, _) => Live(w, o)
    case UnregisterAck(o) => o < |w.nodes| && w.external[o] > 0
    case IncSeqnum(o) => Live(w, o) && w.nodes[o].sent + 1 < SEQNUM_MODULUS
    case SendHeld(o, cmd) => o < |w.nodes| && w.reserved[o] > 0 && (cmd.Attach? || cmd.Bind? || cmd.InprocConnected?)
    case Deliver(o) => o < |w.nodes| && w.mail[o] != []
    case Overtake(o, i) => Live(w, o) && i + 1 < |w.mail[o]| && w.mail[o][i].Own? && !w.mail[o][i + 1].Own?
  }

  /** The commands at positions i and i + 1 in the other order. */
  function Reordered(q: seq<Command>, i: nat): (r: seq<Command>)
    requires i + 1 < |q|
    ensures |r| == |q| && r[i] == q[i + 1] && r[i + 1] == q[i]
    ensures forall j {:trigger r[j]} | 0 <= j < |q| && j != i && j != i + 1 :: r[j] == q[j]
  {
    q[i := q[i + 1]][i + 1 := q[i]]
  }

  function At(w: World, o: nat): (x: Cell)
    requires Shaped(w) && o < |w.nodes|
    ensures Named(x) && |x.mail| == |w.nodes|
  {
    assert NodeShaped(w, o);
    Cell(w.nodes[o], w.mail, w.ok)
  }

  /** `At(w, o)` once the first command of o's mailbox has been taken out. */
  function Popped(w: World, o: nat): (x: Cell)
    requires Shaped(w) && o < |w.nodes| && w.mail[o] != []
    ensures Named(x) && |x.mail| == |w.nodes| && CommandNamed(w.mail[o][0], |w.nodes|)
  {
    assert NodeShaped(w, o);
    At(w, o).(mail := w.mail[o := w.mail[o][1..]])
  }

  /** Stores a handler's result; running a handler of a destroyed object is use after free. */
  function Put(w: World, o: nat, x: Cell): World
    requires o < |w.nodes|
  {
    w.(nodes := w.nodes[o := x.node], mail := x.mail, ok := x.ok && !w.nodes[o].destroyed)
  }

  function NewNode(owner: Option<nat>, linger: int, sent: nat): Node {
    Node(false, sent, 0, owner, {}, 0, linger, false)
  }

  /** launch_child: set_owner, send_plug (counted for the child), send_own (counted for the parent).  The child
      may run before the parent gets to send_own, so that commands from other threads come in front of the own
      command; Overtake puts them there.  The parent itself handles nothing in between.
      `held` increments were made on the child beforehand, as the listeners do before send_attach. */
  function LaunchChild(w: World, p: nat, linger: int, held: nat): World
    requires Shaped(w) && p < |w.nodes|
  {
    var c := |w.nodes|;
    var parent := w.nodes[p].(sent := w.nodes[p].sent + 1);
    World(
      w.nodes[p := parent] + [NewNode(Some(p), linger, held + 1)],
      Send(w.mail + [[Plug]], p, Own(c)),
      w.external + [0],
      w.reserved + [held],
      w.ok && !w.nodes[p].destroyed)
  }

  function Step(w: World, a: Action): World
    requires Shaped(w) && Enabled(w, a)
  {
    match a
    case NewRoot(l) => World(w.nodes + [NewNode(None, l, 0)], w.mail + [[]], w.external + [0], w.reserved + [0], w.ok)
    case Launch(p, l, held) => LaunchChild(w, p, l, held)
    case Terminate(o) => Put(w, o, TerminateSelf(At(w, o), o))
    case TermChild(p, c) => Put(w, p, ProcessTermReq(At(w, p), c))
    case RegisterAcks(o, k) =>
      Put(w, o, At(w, o).(node := w.nodes[o].(termAcks := w.nodes[o].termAcks + k)))
        .(external := w.external[o := w.external[o] + k])
    case UnregisterAck(o) =>
      Put(w, o, UnregisterTermAck(At(w, o))).(external := w.external[o := w.external[o] - 1])
    case IncSeqnum(o) =>
      Put(w, o, At(w, o).(node := w.nodes[o].(sent := w.nodes[o].sent + 1)))
        .(reserved := w.reserved[o := w.reserved[o] + 1])
    case SendHeld(o, cmd) =>
      w.(mail := Send(w.mail, o, cmd), reserved := w.reserved[o := w.reserved[o] - 1],
         ok := w.ok && !w.nodes[o].destroyed)
    case Overtake(o, i) => w.(mail := w.mail[o := Reordered(w.mail[o], i)])
    case Deliver(o) =>
      Put(w, o, ProcessCommand(Popped(w, o), w.mail[o][0]))
  }
}
