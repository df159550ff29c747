/**
 * The step machine of v1_encoder_t, the encoder of pgm_sender_t: a header of two or ten bytes, then the body,
 * which may be empty.  It is one of those that module Pgm speaks about.
 */
module V1Encoding {
  import opened Wrappers
  import opened Bytes
  import opened Encoding
  import P = Pgm

  datatype Frame = Frame(body: seq<Byte>, more: bool)

  /** A message whose size, with the byte for the flags, fits into 64 bits. */
  type Message = m: Frame | |m.body| + 1 < 0x1_0000_0000_0000_0000 witness Frame([], false)

  /** The step that next_step has chosen. */
  datatype State = MessageReady | SizeReady

  function Flags(m: Message): Byte {
    if m.more then 1 else 0
  }

  function Header(m: Message): seq<Byte> {
    if |m.body| + 1 < 255 then [|m.body| + 1, Flags(m)]
    else [0xff] + PutUint64(|m.body| + 1) + [Flags(m)]
  }

  const STEP: StepFunction<State, Message> := (s: State, m: Message) =>
    if s == MessageReady then Piece(Header(m), SizeReady, false) else Piece(m.body, MessageReady, true)

  const RANK: State -> nat := (s: State) => if s == MessageReady then 1 else 0

  const IDLE: State -> bool := (s: State) => s == MessageReady

  lemma V1Progress()
    ensures Progress(STEP, RANK)
  {
  }

  /** What remains of a message that has just been loaded is its header and its body. */
  lemma LoadedIsFrame(e: Encoder<State, Message>, m: Message)
    requires Progress(STEP, RANK) && e.inProgress.None? && e.state == MessageReady
    ensures Remaining(STEP, RANK, Load(STEP, e, m)) == Header(m) + m.body
  {
    var l := Load(STEP, e, m);
    assert CallStep(STEP, l, m) == Encoder(MessageReady, m.body, true, Some(m));
    assert Remaining(STEP, RANK, CallStep(STEP, l, m)) == m.body;
  }

  /** This machine meets the demands of module Pgm, empty messages included. */
  lemma V1IsNeverEmpty()
    ensures P.NeverEmpty(STEP, RANK, IDLE)
  {
    V1Progress();
    forall e: Encoder<State, Message>, m: Message {:trigger Load(STEP, e, m)} | e.inProgress.None? && IDLE(e.state)
      ensures Remaining(STEP, RANK, Load(STEP, e, m)) != []
    {
      LoadedIsFrame(e, m);
    }
  }

  /** The encoder as its constructor leaves it. */
  const NEW_ENCODER: Encoder<State, Message> := Encoder(MessageReady, [], true, None)

  const NEW_SENDER: P.Sender<State, Message> := P.Sender(NEW_ENCODER, false, [], [], [])

  /** It can begin a run. */
  lemma V1Runs()
    ensures P.Run(STEP, RANK, IDLE, [NEW_SENDER], [])
  {
    V1IsNeverEmpty();
  }
}
