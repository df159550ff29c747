/**
 * The step machine of v1_decoder_t, and that it undoes v1_encoder_t: whatever messages are encoded, into whatever
 * buffers, and however the bytes are cut on their way, the messages that come out are those that went in.
 */
module V1Decoding {
  import opened Sequences
  import opened Wrappers
  import opened Bytes
  import opened Decoding
  import E = Encoding
  import EM = EncodingMessages
  import V = V1Encoding

  /** The step that next_step has chosen, with what is known of the message so far. */
  datatype State = OneByteSizeReady | EightByteSizeReady | FlagsReady(size: nat) | MessageReady(size: nat, more: bool)

  const FAILED: Action<State> := Action(-1, OneByteSizeReady, 0, false)

  /** `limit` is maxmsgsize, if it is not negative. */
  predicate TooLong(limit: Option<nat>, size: nat) {
    limit.Some? && size > limit.value
  }

  /** What is known once the size, which counts the byte for the flags, has been read. */
  function Sized(limit: Option<nat>, n: nat): Action<State> {
    if n == 0 || TooLong(limit, n - 1) then FAILED else Action(0, FlagsReady(n - 1), 1, false)
  }

  function Act(limit: Option<nat>, s: State, segment: seq<Byte>): Action<State> {
    match s
    case OneByteSizeReady =>
      if |segment| != 1 then FAILED
      else if segment[0] == 0xff then Action(0, EightByteSizeReady, 8, false)
      else Sized(limit, segment[0])
    case EightByteSizeReady => if |segment| != 8 then FAILED else Sized(limit, GetUint64(segment))
    case FlagsReady(size) =>
      if |segment| != 1 then FAILED else Action(0, MessageReady(size, segment[0] as int % 2 == 1), size, false)
    case MessageReady(_, _) => Action(1, OneByteSizeReady, 1, false)
  }

  function Machine(limit: Option<nat>): StepFunction<State> {
    (s, segment) => Act(limit, s, segment)
  }

  const RANK: State -> nat := s => 0

  lemma V1DecoderProgress(limit: Option<nat>)
    ensures Progress(Machine(limit), RANK) && StopsOutside(Machine(limit))
  {
  }

  /** The messages a log of calls has made. */
  function MessagesOf(log: seq<Call<State>>): seq<V.Frame> {
    if log == [] then []
    else
      var c := log[|log| - 1];
      MessagesOf(log[..|log| - 1]) + if c.state.MessageReady? then [V.Frame(c.segment, c.state.more)] else []
  }

  /** Between messages. */
  function Waiting(log: seq<Call<State>>): (d: Decoder<State>)
    ensures AtRest(d)
  {
    Decoder(OneByteSizeReady, [], 1, log)
  }

  // ------------------------------------------------------------------ one frame

  /** A segment that arrives whole. */
  lemma WholeSegment(limit: Option<nat>, d: Decoder<State>, data: seq<Byte>)
    requires Progress(Machine(limit), RANK) && d.got == [] && d.need == |data| > 0
    ensures var s := Settle(Machine(limit), RANK, Decoder(d.state, data, 0, d.log));
      Feed(Machine(limit), RANK, d, data) == Fed(s.d, s.rc != -1)
  {
    var step := Machine(limit);
    assert data[..|data|] == data && data[|data|..] == [] && [] + data == data;
    LongPiece(step, RANK, d, data);
    FeedStep(step, RANK, d, data);
  }

  lemma LogMessages(log: seq<Call<State>>, c: Call<State>)
    ensures MessagesOf(log + [c])
         == MessagesOf(log) + if c.state.MessageReady? then [V.Frame(c.segment, c.state.more)] else []
  {
    assert (log + [c])[..|log|] == log;
  }

  function SizeOf(m: V.Message): seq<Byte> {
    if |m.body| + 1 < 255 then [|m.body| + 1] else [0xff] + PutUint64(|m.body| + 1)
  }

  /** What comes of a size that has been read. */
  function Told(limit: Option<nat>, size: nat, log: seq<Call<State>>): Fed<State> {
    if TooLong(limit, size) then Fed(Decoder(OneByteSizeReady, [], 0, log), false)
    else Fed(Decoder(FlagsReady(size), [], 1, log), true)
  }

  lemma ShortSize(limit: Option<nat>, log: seq<Call<State>>, size: nat)
    requires Progress(Machine(limit), RANK) && size + 1 < 255
    ensures Feed(Machine(limit), RANK, Waiting(log), [size + 1])
         == Told(limit, size, log + [Call(OneByteSizeReady, [size + 1])])
  {
    WholeSegment(limit, Waiting(log), [size + 1]);
  }

  lemma EscapedSize(limit: Option<nat>, log: seq<Call<State>>)
    requires Progress(Machine(limit), RANK)
    ensures Feed(Machine(limit), RANK, Waiting(log), [0xff])
         == Fed(Decoder(EightByteSizeReady, [], 8, log + [Call(OneByteSizeReady, [0xff])]), true)
  {
    WholeSegment(limit, Waiting(log), [0xff]);
  }

  lemma LongSize(limit: Option<nat>, log: seq<Call<State>>, size: nat)
    requires Progress(Machine(limit), RANK) && size + 1 < 0x1_0000_0000_0000_0000
    ensures Feed(Machine(limit), RANK, Decoder(EightByteSizeReady, [], 8, log), PutUint64(size + 1))
         == Told(limit, size, log + [Call(EightByteSizeReady, PutUint64(size + 1))])
  {
    Uint64RoundTrip(size + 1);
    WholeSegment(limit, Decoder(EightByteSizeReady, [], 8, log), PutUint64(size + 1));
  }

  /** The size of a message: its two forms. */
  lemma SizeIsRead(limit: Option<nat>, log: seq<Call<State>>, m: V.Message)
    returns (log': seq<Call<State>>)
    requires Progress(Machine(limit), RANK)
    ensures MessagesOf(log') == MessagesOf(log)
    ensures Feed(Machine(limit), RANK, Waiting(log), SizeOf(m)) == Told(limit, |m.body|, log')
  {
    var n := |m.body| + 1;
    if n < 255 {
      ShortSize(limit, log, |m.body|);
      log' := log + [Call(OneByteSizeReady, [n])];
      LogMessages(log, Call(OneByteSizeReady, [n]));
    } else {
      var escape, size := Call(OneByteSizeReady, [0xff]), Call(EightByteSizeReady, PutUint64(n));
      EscapedSize(limit, log);
      LogMessages(log, escape);
      FeedSplit(Machine(limit), RANK, Waiting(log), [0xff], PutUint64(n));
      LongSize(limit, log + [escape], |m.body|);
      log' := log + [escape] + [size];
      LogMessages(log + [escape], size);
    }
  }

  /** The call that the flags lead to. */
  function FlagsCall(m: V.Message): Call<State> {
    Call(FlagsReady(|m.body|), [V.Flags(m)])
  }

  function BodyCall(m: V.Message): Call<State> {
    Call(MessageReady(|m.body|, m.more), m.body)
  }

  /** With an empty body the message is there as soon as the flags are. */
  lemma EmptyIsRead(limit: Option<nat>, log: seq<Call<State>>, m: V.Message)
    requires Progress(Machine(limit), RANK) && m.body == []
    ensures Feed(Machine(limit), RANK, Decoder(FlagsReady(0), [], 1, log), [V.Flags(m)])
         == Fed(Waiting(log + [FlagsCall(m)] + [BodyCall(m)]), true)
  {
    var step, e := Machine(limit), Decoder(FlagsReady(0), [V.Flags(m)], 0, log);
    WholeSegment(limit, Decoder(FlagsReady(0), [], 1, log), [V.Flags(m)]);
    var f := Decoder(MessageReady(0, m.more), [], 0, log + [FlagsCall(m)]);
    assert CallStep(step, e) == Decoded(f, 0, 0);
    assert CallStep(step, f) == Decoded(Waiting(log + [FlagsCall(m)] + [BodyCall(m)]), 1, 0);
    assert Settle(step, RANK, e) == Settle(step, RANK, f) == CallStep(step, f);
  }

  lemma FlagsAreRead(limit: Option<nat>, log: seq<Call<State>>, m: V.Message)
    requires Progress(Machine(limit), RANK) && m.body != []
    ensures Feed(Machine(limit), RANK, Decoder(FlagsReady(|m.body|), [], 1, log), [V.Flags(m)])
         == Fed(Decoder(MessageReady(|m.body|, m.more), [], |m.body|, log + [FlagsCall(m)]), true)
  {
    WholeSegment(limit, Decoder(FlagsReady(|m.body|), [], 1, log), [V.Flags(m)]);
    assert CallStep(Machine(limit), Decoder(FlagsReady(|m.body|), [V.Flags(m)], 0, log))
        == Decoded(Decoder(MessageReady(|m.body|, m.more), [], |m.body|, log + [FlagsCall(m)]), 0, 0);
  }

  lemma BodyIsRead(limit: Option<nat>, log: seq<Call<State>>, m: V.Message)
    requires Progress(Machine(limit), RANK) && m.body != []
    ensures Feed(Machine(limit), RANK, Decoder(MessageReady(|m.body|, m.more), [], |m.body|, log), m.body)
         == Fed(Waiting(log + [BodyCall(m)]), true)
  {
    WholeSegment(limit, Decoder(MessageReady(|m.body|, m.more), [], |m.body|, log), m.body);
    assert CallStep(Machine(limit), Decoder(MessageReady(|m.body|, m.more), m.body, 0, log))
        == Decoded(Waiting(log + [BodyCall(m)]), 1, 0);
  }

  /** The flags and the body. */
  lemma RestIsRead(limit: Option<nat>, log: seq<Call<State>>, m: V.Message) returns (log': seq<Call<State>>)
    requires Progress(Machine(limit), RANK)
    ensures MessagesOf(log') == MessagesOf(log) + [m]
    ensures Feed(Machine(limit), RANK, Decoder(FlagsReady(|m.body|), [], 1, log), [V.Flags(m)] + m.body)
         == Fed(Waiting(log'), true)
  {
    log' := log + [FlagsCall(m)] + [BodyCall(m)];
    LogMessages(log, FlagsCall(m));
    LogMessages(log + [FlagsCall(m)], BodyCall(m));
    assert V.Frame(m.body, m.more) == m;
    FeedSplit(Machine(limit), RANK, Decoder(FlagsReady(|m.body|), [], 1, log), [V.Flags(m)], m.body);
    if m.body == [] {
      EmptyIsRead(limit, log, m);
    } else {
      FlagsAreRead(limit, log, m);
      BodyIsRead(limit, log + [FlagsCall(m)], m);
    }
  }

  /** The bytes of a message on the wire. */
  function Wire(m: V.Message): seq<Byte> {
    V.Header(m) + m.body
  }

  lemma WireParts(m: V.Message)
    ensures Wire(m) == SizeOf(m) + ([V.Flags(m)] + m.body)
  {
  }

  /** A message that is not too long is read as it was written. */
  lemma FrameIsRead(limit: Option<nat>, log: seq<Call<State>>, m: V.Message) returns (log': seq<Call<State>>)
    requires Progress(Machine(limit), RANK) && !TooLong(limit, |m.body|)
    ensures MessagesOf(log') == MessagesOf(log) + [m]
    ensures Feed(Machine(limit), RANK, Waiting(log), Wire(m)) == Fed(Waiting(log'), true)
  {
    WireParts(m);
    FeedSplit(Machine(limit), RANK, Waiting(log), SizeOf(m), [V.Flags(m)] + m.body);
    var mid := SizeIsRead(limit, log, m);
    log' := RestIsRead(limit, mid, m);
  }

  /** One that is too long ends the stream. */
  lemma LongFrameFails(limit: Option<nat>, log: seq<Call<State>>, m: V.Message) returns (log': seq<Call<State>>)
    requires Progress(Machine(limit), RANK) && TooLong(limit, |m.body|)
    ensures MessagesOf(log') == MessagesOf(log)
    ensures !Feed(Machine(limit), RANK, Waiting(log), Wire(m)).ok
    ensures Feed(Machine(limit), RANK, Waiting(log), Wire(m)).d.log == log'
  {
    WireParts(m);
    FeedSplit(Machine(limit), RANK, Waiting(log), SizeOf(m), [V.Flags(m)] + m.body);
    log' := SizeIsRead(limit, log, m);
  }

  // ------------------------------------------------------------------ streams

  function WireAll(ms: seq<V.Message>): seq<Byte> {
    if ms == [] then [] else Wire(ms[0]) + WireAll(ms[1..])
  }

  /** The messages before the first that is too long. */
  function Readable(limit: Option<nat>, ms: seq<V.Message>): seq<V.Frame> {
    if ms == [] || TooLong(limit, |ms[0].body|) then [] else [ms[0]] + Readable(limit, ms[1..])
  }

  lemma {:induction false} StreamIsRead(limit: Option<nat>, log: seq<Call<State>>, ms: seq<V.Message>)
      returns (log': seq<Call<State>>)
    requires Progress(Machine(limit), RANK)
    ensures MessagesOf(log') == MessagesOf(log) + Readable(limit, ms)
    ensures var r := Feed(Machine(limit), RANK, Waiting(log), WireAll(ms));
      r.d.log == log' && (r.ok <==> |Readable(limit, ms)| == |ms|) && (r.ok ==> r.d == Waiting(log'))
    decreases |ms|
  {
    if ms == [] {
      log' := log;
    } else {
      FeedSplit(Machine(limit), RANK, Waiting(log), Wire(ms[0]), WireAll(ms[1..]));
      if TooLong(limit, |ms[0].body|) {
        log' := LongFrameFails(limit, log, ms[0]);
      } else {
        var mid := FrameIsRead(limit, log, ms[0]);
        log' := StreamIsRead(limit, mid, ms[1..]);
        Assoc(MessagesOf(log), [ms[0]], Readable(limit, ms[1..]));
      }
    }
  }

  /** Decoding undoes encoding: however the bytes of any messages are cut, the decoder makes those messages and is
      ready for the next; if one is too long it makes those before it and fails. */
  lemma DecodesWhatWasEncoded(limit: Option<nat>, ms: seq<V.Message>, chunks: seq<seq<Byte>>)
    requires Progress(Machine(limit), RANK) && Concat(chunks) == WireAll(ms)
    ensures var r := FeedChunks(Machine(limit), RANK, Waiting([]), chunks);
      && MessagesOf(r.d.log) == Readable(limit, ms)
      && (r.ok <==> |Readable(limit, ms)| == |ms|) && (r.ok ==> r.d == Waiting(r.d.log))
  {
    ChunksDoNotMatter(Machine(limit), RANK, Waiting([]), chunks);
    var log := StreamIsRead(limit, [], ms);
    assert MessagesOf([]) + Readable(limit, ms) == Readable(limit, ms);
  }

  // ------------------------------------------------------------------ from encoder to decoder

  lemma ScriptIsWire(m: V.Message)
    requires E.Progress(V.STEP, V.RANK)
    ensures EM.Script(V.STEP, V.RANK, V.MessageReady, m) == EM.Said(Wire(m), V.MessageReady)
  {
    assert EM.Script(V.STEP, V.RANK, V.SizeReady, m) == EM.Said(m.body, V.MessageReady);
  }

  function Sent(sendings: seq<EM.Sending<V.Message>>): (r: seq<V.Message>)
    ensures |r| == |sendings| && forall i | 0 <= i < |r| :: r[i] == sendings[i].msg
  {
    if sendings == [] then [] else [sendings[0].msg] + Sent(sendings[1..])
  }

  lemma {:induction false} SaysWire(sendings: seq<EM.Sending<V.Message>>)
    requires E.Progress(V.STEP, V.RANK)
    ensures EM.SayAll(V.STEP, V.RANK, V.MessageReady, sendings) == EM.Said(WireAll(Sent(sendings)), V.MessageReady)
    decreases |sendings|
  {
    if sendings != [] {
      ScriptIsWire(sendings[0].msg);
      SaysWire(sendings[1..]);
      assert Sent(sendings)[1..] == Sent(sendings[1..]);
    }
  }

  /** From one end to the other: messages are encoded one after the other into any buffers, the bytes are cut in any
      way, and without a limit on the size the decoder makes exactly those messages. */
  lemma EndToEnd(sendings: seq<EM.Sending<V.Message>>, chunks: seq<seq<Byte>>)
    requires E.Progress(V.STEP, V.RANK) && Progress(Machine(None), RANK)
    requires EM.SendAll(V.STEP, V.RANK, V.NEW_ENCODER, sendings).Some?
    requires Concat(chunks) == EM.SendAll(V.STEP, V.RANK, V.NEW_ENCODER, sendings).value.out
    ensures var r := FeedChunks(Machine(None), RANK, Waiting([]), chunks);
      r.ok && MessagesOf(r.d.log) == Sent(sendings)
  {
    EM.MessagesInSequence(V.STEP, V.RANK, V.NEW_ENCODER, sendings);
    SaysWire(sendings);
    DecodesWhatWasEncoded(None, Sent(sendings), chunks);
    AllReadable(Sent(sendings));
  }

  lemma {:induction false} AllReadable(ms: seq<V.Message>)
    ensures Readable(None, ms) == ms
  {
    if ms != [] {
      AllReadable(ms[1..]);
    }
  }
}
