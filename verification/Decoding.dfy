/**
 * decoder_base_t by value: bytes are gathered into the segment the current step asked for, and the
 * step machine runs whenever the segment is complete.  Feeding a stream gives the same step calls
 * however it is cut into pieces.
 */
module Decoding {
  import opened Sequences
  import opened Bytes

  /** -1 error, 0 go on, 1 a whole message is there. */
  type Rc = rc: int | -1 <= rc <= 1

  /** What a step returns: rc, the next state, how many bytes it wants, and whether it would like
      them to stay where they are in the caller's buffer. */
  datatype Action<S> = Action(rc: Rc, next: S, need: nat, inPlace: bool)

  type StepFunction<!S> = (S, seq<Byte>) -> Action<S>

  /** Steps that want no bytes cannot follow each other for ever. */
  ghost predicate Progress<S(!new)>(step: StepFunction<S>, rank: S -> nat) {
    forall s {:trigger rank(step(s, []).next)} ::
      step(s, []).rc != -1 && step(s, []).need == 0 ==> rank(step(s, []).next) < rank(s)
  }

  /** The decoders of the repository begin each message in a buffer of their own: a step that stops never
      wants the next bytes in the place where they are. */
  ghost predicate StopsOutside<S(!new)>(step: StepFunction<S>) {
    forall s, segment :: step(s, segment).rc != 0 ==> !step(s, segment).inPlace
  }

  /** One call of a step function with the segment gathered for it. */
  datatype Call<S> = Call(state: S, segment: seq<Byte>)

  /** `got` is the part of the segment gathered so far, `need` what is missing (to_read), and `log`
      all calls made. */
  datatype Decoder<S> = Decoder(state: S, got: seq<Byte>, need: nat, log: seq<Call<S>>)

  /** The new state, the return code, and bytes_used. */
  datatype Decoded<S> = Decoded(d: Decoder<S>, rc: Rc, used: nat)

  /** The state after a stream or the error in it. */
  datatype Fed<S> = Fed(d: Decoder<S>, ok: bool)

  predicate AtRest<S>(d: Decoder<S>) {
    d.need == 0 ==> d.got == []
  }

  function CallStep<S>(step: StepFunction<S>, d: Decoder<S>): Decoded<S> {
    var a := step(d.state, d.got);
    Decoded(Decoder(a.next, [], a.need, d.log + [Call(d.state, d.got)]), a.rc, 0)
  }

  /** `while (!to_read)`: run steps until one wants bytes or returns something else than 0. */
  function Settle<S(!new)>(step: StepFunction<S>, ghost rank: S -> nat, d: Decoder<S>): (r: Decoded<S>)
    requires Progress(step, rank) && d.need == 0
    ensures AtRest(r.d) && (r.rc == 0 ==> r.d.need > 0)
    ensures d.got == [] && r.rc != -1 && r.d.need == 0 ==> rank(r.d.state) < rank(d.state)
    decreases d.got != [], rank(d.state)
  {
    var e := CallStep(step, d);
    if e.rc != 0 || e.d.need > 0 then e else Settle(step, rank, e.d)
  }

  function Take<S>(d: Decoder<S>, data: seq<Byte>): Decoder<S>
    requires |data| <= d.need
  {
    d.(got := d.got + data, need := d.need - |data|)
  }

  /** The same outcome with k more bytes used. */
  function After<S>(k: nat, r: Decoded<S>): Decoded<S> {
    r.(used := k + r.used)
  }

  lemma AfterAfter<S>(j: nat, k: nat, r: Decoded<S>)
    ensures After(j, After(k, r)) == After(j + k, r)
  {
  }

  /** decode, copying. */
  function Decode<S(!new)>(step: StepFunction<S>, ghost rank: S -> nat, d: Decoder<S>, data: seq<Byte>)
      : (r: Decoded<S>)
    requires Progress(step, rank) && AtRest(d)
    ensures AtRest(r.d) && r.used <= |data|
    ensures r.rc == 0 ==> r.used == |data| && (data != [] ==> r.d.need > 0)
    ensures data != [] && r.rc == 1 && r.used == 0 ==>
      d.need == 0 && (r.d.need > 0 || rank(r.d.state) < rank(d.state))
    decreases |data|, d.need == 0
  {
    if data == [] then Decoded(d, 0, 0)
    else
      var k := Min(d.need, |data|);
      var e := Take(d, data[..k]);
      if e.need > 0 then Decoded(e, 0, k)
      else
        var s := Settle(step, rank, e);
        if s.rc != 0 then Decoded(s.d, s.rc, k)
        else
          After(k, Decode(step, rank, s.d, data[k..]))
  }

  /** decode when the caller has put the bytes where they belong. */
  function DecodeInPlace<S(!new)>(step: StepFunction<S>, ghost rank: S -> nat, d: Decoder<S>, data: seq<Byte>)
      : Decoded<S>
    requires Progress(step, rank) && |data| <= d.need
  {
    var e := Take(d, data);
    if e.need > 0 then Decoded(e, 0, |data|)
    else
      var s := Settle(step, rank, e);
      Decoded(s.d, s.rc, |data|)
  }

  /** The caller of decode: after a whole message (1) the unused rest is fed again; an error stops it. */
  function Feed<S(!new)>(step: StepFunction<S>, ghost rank: S -> nat, d: Decoder<S>, data: seq<Byte>)
      : (r: Fed<S>)
    requires Progress(step, rank) && AtRest(d)
    ensures AtRest(r.d)
    decreases |data|, d.need == 0, rank(d.state)
  {
    if data == [] then Fed(d, true)
    else
      var e := Decode(step, rank, d, data);
      if e.rc == -1 then Fed(e.d, false) else Feed(step, rank, e.d, data[e.used..])
  }

  function FeedChunks<S(!new)>(step: StepFunction<S>, ghost rank: S -> nat, d: Decoder<S>, chunks: seq<seq<Byte>>)
      : (r: Fed<S>)
    requires Progress(step, rank) && AtRest(d)
    ensures AtRest(r.d)
    decreases |chunks|
  {
    if chunks == [] then Fed(d, true)
    else
      var e := Feed(step, rank, d, chunks[0]);
      if !e.ok then e else FeedChunks(step, rank, e.d, chunks[1..])
  }

  function Singles(data: seq<Byte>): (r: seq<seq<Byte>>)
    ensures Concat(r) == data && forall i | 0 <= i < |r| :: |r[i]| == 1
  {
    if data == [] then [] else [[data[0]]] + Singles(data[1..])
  }

  // ------------------------------------------------------------------ independence of chunking

  lemma TooShort<S(!new)>(step: StepFunction<S>, rank: S -> nat, d: Decoder<S>, data: seq<Byte>)
    requires Progress(step, rank) && AtRest(d) && d.need > |data|
    ensures Decode(step, rank, d, data) == Decoded(Take(d, data), 0, |data|)
  {
    assert data[..|data|] == data;
    assert d.got + [] == d.got;
  }

  lemma TakeTwice<S>(d: Decoder<S>, a: seq<Byte>, b: seq<Byte>)
    requires |a| + |b| <= d.need
    ensures Take(Take(d, a), b) == Take(d, a + b)
  {
    assert (d.got + a) + b == d.got + (a + b);
  }

  /** Decoding goes on with the rest after k bytes and a settled segment, unless it has stopped. */
  function Rest<S(!new)>(step: StepFunction<S>, ghost rank: S -> nat, s: Decoded<S>, k: nat,
                         rest: seq<Byte>): Decoded<S>
    requires Progress(step, rank) && AtRest(s.d)
  {
    if s.rc != 0 then s.(used := k) else After(k, Decode(step, rank, s.d, rest))
  }

  /** A piece that completes the segment decides how the whole is decoded up to there. */
  lemma LongPiece<S(!new)>(step: StepFunction<S>, rank: S -> nat, d: Decoder<S>, data: seq<Byte>)
    requires Progress(step, rank) && AtRest(d) && data != [] && d.need <= |data|
    ensures Decode(step, rank, d, data)
      == Rest(step, rank, Settle(step, rank, Take(d, data[..d.need])), d.need, data[d.need..])
  {
  }

  /** A first piece that does not complete the segment is just a beginning of the whole. */
  lemma ShortPiece<S(!new)>(step: StepFunction<S>, rank: S -> nat, d: Decoder<S>, a: seq<Byte>, b: seq<Byte>)
    requires Progress(step, rank) && AtRest(d) && a != [] && d.need > |a|
    ensures Decode(step, rank, d, a + b) == After(|a|, Decode(step, rank, Take(d, a), b))
  {
    if d.need > |a| + |b| {
      TooShort(step, rank, d, a + b);
      TooShort(step, rank, Take(d, a), b);
      TakeTwice(d, a, b);
    } else {
      var j := d.need - |a|;
      LongPiece(step, rank, d, a + b);
      LongPiece(step, rank, Take(d, a), b);
      assert (a + b)[..d.need] == a + b[..j];
      assert (a + b)[d.need..] == b[j..];
      TakeTwice(d, a, b[..j]);
    }
  }

  /** Decoding stops at the same place when more data follow, and goes on where it left off. */
  lemma {:induction false} DecodeSplit<S(!new)>(step: StepFunction<S>, rank: S -> nat, d: Decoder<S>, a: seq<Byte>,
                                                b: seq<Byte>)
    requires Progress(step, rank) && AtRest(d) && a != []
    ensures Decode(step, rank, d, a + b) == Rest(step, rank, Decode(step, rank, d, a), Decode(step, rank, d, a).used, b)
    decreases |a|, d.need == 0
  {
    if d.need > |a| {
      TooShort(step, rank, d, a);
      ShortPiece(step, rank, d, a, b);
    } else {
      LongPiece(step, rank, d, a);
      LongPiece(step, rank, d, a + b);
      assert (a + b)[..d.need] == a[..d.need];
      assert (a + b)[d.need..] == a[d.need..] + b;
      var s := Settle(step, rank, Take(d, a[..d.need]));
      if s.rc == 0 {
        if a[d.need..] == [] {
          assert a[d.need..] + b == b;
        } else {
          DecodeSplit(step, rank, s.d, a[d.need..], b);
        }
      }
    }
  }

  function FeedRest<S(!new)>(step: StepFunction<S>, ghost rank: S -> nat, e: Decoded<S>, data: seq<Byte>): Fed<S>
    requires Progress(step, rank) && AtRest(e.d) && e.used <= |data|
  {
    if e.rc == -1 then Fed(e.d, false) else Feed(step, rank, e.d, data[e.used..])
  }

  /** One round of the copying loop when the segment is still incomplete: all data are used. */
  lemma RoundOpen<S(!new)>(step: StepFunction<S>, rank: S -> nat, d: Decoder<S>, data: seq<Byte>, k: nat)
    requires Progress(step, rank) && AtRest(d) && data != [] && k == Min(d.need, |data|) && k < d.need
    ensures k == |data| && data[..k] == data && data[k..] == []
    ensures Decode(step, rank, d, data) == After(k, Decode(step, rank, Take(d, data[..k]), data[k..]))
  {
    TooShort(step, rank, d, data);
    assert data[..k] == data;
  }

  /** Where e leads when `rest` is still to be decoded: nowhere else if it is the end already. */
  function Onward<S(!new)>(step: StepFunction<S>, ghost rank: S -> nat, e: Decoded<S>, rest: seq<Byte>): Decoded<S>
    requires Progress(step, rank) && AtRest(e.d)
  {
    Then(e, Decode(step, rank, e.d, rest))
  }

  function Then<S>(e: Decoded<S>, next: Decoded<S>): Decoded<S> {
    if e.rc != 0 then e else After(e.used, next)
  }

  /** An outcome reached in two parts. */
  lemma ThenThen<S>(goal: Decoded<S>, d: Decoder<S>, j: nat, whole: Decoded<S>, e: Decoder<S>, rc: Rc, k: nat,
                    next: Decoded<S>)
    requires goal == Then(Decoded(d, 0, j), whole) && whole == Then(Decoded(e, rc, k), next)
    ensures goal == Then(Decoded(e, rc, j + k), next)
  {
    AfterAfter(j, k, next);
  }

  /** One round when the segment is complete. */
  lemma RoundClosed<S(!new)>(step: StepFunction<S>, rank: S -> nat, d: Decoder<S>, data: seq<Byte>, k: nat)
    requires Progress(step, rank) && AtRest(d) && data != [] && k == Min(d.need, |data|) && k == d.need
    ensures Decode(step, rank, d, data) == Rest(step, rank, Settle(step, rank, Take(d, data[..k])), k, data[k..])
  {
    LongPiece(step, rank, d, data);
  }

  /** Where decoding begins, and where it ends. */
  lemma OnwardEnds<S(!new)>(step: StepFunction<S>, rank: S -> nat, d: Decoder<S>, data: seq<Byte>, rc: Rc, used: nat)
    requires Progress(step, rank) && AtRest(d)
    ensures Onward(step, rank, Decoded(d, 0, 0), data) == Decode(step, rank, d, data)
    ensures rc != 0 || data == [] ==> Onward(step, rank, Decoded(d, rc, used), data) == Decoded(d, rc, used)
  {
  }

  /** What a round of the copying loop that leaves the segment incomplete means for the outcome of all of it. */
  lemma OpenRoundOn<S(!new)>(step: StepFunction<S>, rank: S -> nat, goal: Decoded<S>, d: Decoder<S>, j: nat,
                             rest: seq<Byte>, k: nat, left: seq<Byte>, n: nat)
    requires Progress(step, rank) && AtRest(d) && rest != [] && k == Min(d.need, |rest|) && k < d.need
    requires goal == Onward(step, rank, Decoded(d, 0, j), rest) && left == rest[k..] && n == j + k
    ensures goal == Onward(step, rank, Decoded(Take(d, rest[..k]), 0, n), left)
  {
    RoundOpen(step, rank, d, rest, k);
    ThenThen(goal, d, j, Decode(step, rank, d, rest), Take(d, rest[..k]), 0, k,
      Decode(step, rank, Take(d, rest[..k]), left));
  }

  /** And what one means that completes the segment, with s what the step functions make of it. */
  lemma ClosedRoundOn<S(!new)>(step: StepFunction<S>, rank: S -> nat, goal: Decoded<S>, d: Decoder<S>, j: nat,
                               rest: seq<Byte>, k: nat, full: Decoder<S>, s: Decoded<S>, left: seq<Byte>, n: nat)
    requires Progress(step, rank) && AtRest(d) && rest != [] && k == Min(d.need, |rest|) && k == d.need
    requires goal == Onward(step, rank, Decoded(d, 0, j), rest) && left == rest[k..] && n == j + k
    requires full == Take(d, rest[..k]) && s == Settle(step, rank, full)
    ensures goal == Onward(step, rank, Decoded(s.d, s.rc, n), left)
  {
    RoundClosed(step, rank, d, rest, k);
    ThenThen(goal, d, j, Decode(step, rank, d, rest), s.d, s.rc, k, Decode(step, rank, s.d, left));
  }

  lemma FeedStep<S(!new)>(step: StepFunction<S>, rank: S -> nat, d: Decoder<S>, data: seq<Byte>)
    requires Progress(step, rank) && AtRest(d)
    ensures Feed(step, rank, d, data) == FeedRest(step, rank, Decode(step, rank, d, data), data)
  {
    if data == [] {
      assert data[0..] == data;
    }
  }

  /** Feeding more, unless there has been an error. */
  function FeedOn<S(!new)>(step: StepFunction<S>, ghost rank: S -> nat, e: Fed<S>, data: seq<Byte>): Fed<S>
    requires Progress(step, rank) && AtRest(e.d)
  {
    if e.ok then Feed(step, rank, e.d, data) else e
  }

  /** The case that the first piece ends in the middle of a message. */
  lemma FeedSplitOpen<S(!new)>(step: StepFunction<S>, rank: S -> nat, d: Decoder<S>, a: seq<Byte>, b: seq<Byte>)
    requires Progress(step, rank) && AtRest(d) && a != [] && Decode(step, rank, d, a).rc == 0
    ensures Feed(step, rank, d, a) == Fed(Decode(step, rank, d, a).d, true)
    ensures Feed(step, rank, d, a + b) == Feed(step, rank, Decode(step, rank, d, a).d, b)
  {
    var e := Decode(step, rank, d, a);
    FeedStep(step, rank, d, a);
    assert a[e.used..] == [];
    DecodeSplit(step, rank, d, a, b);
    FeedStep(step, rank, d, a + b);
    FeedRestShift(step, rank, Decode(step, rank, e.d, b), a, b);
    FeedStep(step, rank, e.d, b);
  }

  /** The case that the first piece ends after a message or an error. */
  lemma FeedSplitStopped<S(!new)>(step: StepFunction<S>, rank: S -> nat, d: Decoder<S>, a: seq<Byte>, b: seq<Byte>)
    requires Progress(step, rank) && AtRest(d) && a != [] && Decode(step, rank, d, a).rc != 0
    ensures Feed(step, rank, d, a) == FeedRest(step, rank, Decode(step, rank, d, a), a)
    ensures Feed(step, rank, d, a + b) == FeedRest(step, rank, Decode(step, rank, d, a), a + b)
    ensures (a + b)[Decode(step, rank, d, a).used..] == a[Decode(step, rank, d, a).used..] + b
  {
    DecodeSplit(step, rank, d, a, b);
    FeedStep(step, rank, d, a);
    FeedStep(step, rank, d, a + b);
  }

  lemma {:induction false} FeedSplit<S(!new)>(step: StepFunction<S>, rank: S -> nat, d: Decoder<S>, a: seq<Byte>,
                                              b: seq<Byte>)
    requires Progress(step, rank) && AtRest(d)
    ensures Feed(step, rank, d, a + b) == FeedOn(step, rank, Feed(step, rank, d, a), b)
    decreases |a|, d.need == 0, rank(d.state)
  {
    if a == [] {
      assert a + b == b;
    } else if Decode(step, rank, d, a).rc == 0 {
      FeedSplitOpen(step, rank, d, a, b);
    } else {
      FeedSplitStopped(step, rank, d, a, b);
      var e := Decode(step, rank, d, a);
      if e.rc == 1 {
        FeedSplit(step, rank, e.d, a[e.used..], b);
      }
    }
  }

  lemma FeedRestShift<S(!new)>(step: StepFunction<S>, rank: S -> nat, e: Decoded<S>, a: seq<Byte>, b: seq<Byte>)
    requires Progress(step, rank) && AtRest(e.d) && e.used <= |b|
    ensures FeedRest(step, rank, After(|a|, e), a + b) == FeedRest(step, rank, e, b)
  {
    assert (a + b)[|a| + e.used..] == b[e.used..];
  }

  /** However a stream is cut into chunks, the outcome is that of the whole stream at once. */
  lemma {:induction false} ChunksDoNotMatter<S(!new)>(step: StepFunction<S>, rank: S -> nat, d: Decoder<S>,
                                                      chunks: seq<seq<Byte>>)
    requires Progress(step, rank) && AtRest(d)
    ensures FeedChunks(step, rank, d, chunks) == Feed(step, rank, d, Concat(chunks))
    decreases |chunks|
  {
    if chunks != [] {
      FeedSplit(step, rank, d, chunks[0], Concat(chunks[1..]));
      var e := Feed(step, rank, d, chunks[0]);
      if e.ok {
        ChunksDoNotMatter(step, rank, e.d, chunks[1..]);
      }
    }
  }

  /** Any cut of a stream makes the same step calls on the same segments, and ends in the same state
      or error, as feeding it byte by byte. */
  lemma ByteByByte<S(!new)>(step: StepFunction<S>, rank: S -> nat, d: Decoder<S>, chunks: seq<seq<Byte>>)
    requires Progress(step, rank) && AtRest(d)
    ensures FeedChunks(step, rank, d, chunks) == FeedChunks(step, rank, d, Singles(Concat(chunks)))
  {
    ChunksDoNotMatter(step, rank, d, chunks);
    ChunksDoNotMatter(step, rank, d, Singles(Concat(chunks)));
  }

  /** Where the caller may put the bytes in place, doing so makes no difference. */
  lemma InPlaceAgrees<S(!new)>(step: StepFunction<S>, rank: S -> nat, d: Decoder<S>, data: seq<Byte>)
    requires Progress(step, rank) && AtRest(d) && |data| <= d.need && d.need > 0
    ensures DecodeInPlace(step, rank, d, data) == Decode(step, rank, d, data)
  {
    assert data[..|data|] == data;
    assert d.got + [] == d.got;
  }

  // ------------------------------------------------------------------ conservation of bytes

  /** All bytes gathered so far, in order: the segments of all calls and the one under way. */
  function Gathered<S>(d: Decoder<S>): seq<Byte> {
    Segments(d.log) + d.got
  }

  function Segments<S>(log: seq<Call<S>>): seq<Byte> {
    if log == [] then [] else Segments(log[..|log| - 1]) + log[|log| - 1].segment
  }

  lemma CallGathers<S>(step: StepFunction<S>, d: Decoder<S>)
    ensures Gathered(CallStep(step, d).d) == Gathered(d)
  {
    var log := d.log + [Call(d.state, d.got)];
    assert log[..|d.log|] == d.log;
  }

  lemma {:induction false} SettleGathers<S(!new)>(step: StepFunction<S>, rank: S -> nat, d: Decoder<S>)
    requires Progress(step, rank) && d.need == 0
    ensures Gathered(Settle(step, rank, d).d) == Gathered(d)
    decreases d.got != [], rank(d.state)
  {
    CallGathers(step, d);
    var e := CallStep(step, d);
    if e.rc == 0 && e.d.need == 0 {
      SettleGathers(step, rank, e.d);
    }
  }

  lemma TakeGathers<S>(d: Decoder<S>, data: seq<Byte>)
    requires |data| <= d.need
    ensures Gathered(Take(d, data)) == Gathered(d) + data
  {
  }

  lemma TwoPieces(x: seq<Byte>, data: seq<Byte>, k: nat, j: nat)
    requires k + j <= |data|
    ensures (x + data[..k]) + data[k..][..j] == x + data[..k + j]
  {
    assert data[..k] + data[k..][..j] == data[..k + j];
  }

  /** bytes_used counts exactly the bytes that went into segments, in order. */
  lemma {:induction false} DecodeGathers<S(!new)>(step: StepFunction<S>, rank: S -> nat, d: Decoder<S>, data: seq<Byte>)
    requires Progress(step, rank) && AtRest(d)
    ensures Gathered(Decode(step, rank, d, data).d) == Gathered(d) + data[..Decode(step, rank, d, data).used]
    decreases |data|, d.need == 0
  {
    if data != [] {
      if d.need > |data| {
        TooShort(step, rank, d, data);
        TakeGathers(d, data);
        assert data[..|data|] == data;
      } else {
        LongPiece(step, rank, d, data);
        var e := Take(d, data[..d.need]);
        TakeGathers(d, data[..d.need]);
        SettleGathers(step, rank, e);
        var s := Settle(step, rank, e);
        if s.rc == 0 {
          var rest := data[d.need..];
          DecodeGathers(step, rank, s.d, rest);
          TwoPieces(Gathered(d), data, d.need, Decode(step, rank, s.d, rest).used);
        }
      }
    }
  }

  /** A stream that decodes without error is gathered whole. */
  lemma {:induction false} FeedGathers<S(!new)>(step: StepFunction<S>, rank: S -> nat, d: Decoder<S>, data: seq<Byte>)
    requires Progress(step, rank) && AtRest(d)
    ensures Gathered(Feed(step, rank, d, data).d) <= Gathered(d) + data
    ensures Feed(step, rank, d, data).ok ==> Gathered(Feed(step, rank, d, data).d) == Gathered(d) + data
    decreases |data|, d.need == 0, rank(d.state)
  {
    if data != [] {
      DecodeGathers(step, rank, d, data);
      FeedStep(step, rank, d, data);
      var e := Decode(step, rank, d, data);
      Rejoined(Gathered(d), data, e.used);
      if e.rc != -1 {
        FeedGathers(step, rank, e.d, data[e.used..]);
      }
    }
  }

  /** Where feeding leads after e when `rest` is left. */
  function FeedTail<S(!new)>(step: StepFunction<S>, ghost rank: S -> nat, e: Decoder<S>, rc: Rc,
                             rest: seq<Byte>): Fed<S>
    requires Progress(step, rank) && AtRest(e)
  {
    if rc == -1 then Fed(e, false) else Feed(step, rank, e, rest)
  }

  /** Feeding is one call of decode, and then feeding what it has left. */
  lemma FeedOnward<S(!new)>(step: StepFunction<S>, rank: S -> nat, d: Decoder<S>, data: seq<Byte>, e: Decoded<S>)
    requires Progress(step, rank) && AtRest(d) && e == Decode(step, rank, d, data)
    ensures Feed(step, rank, d, data) == FeedTail(step, rank, e.d, e.rc, data[e.used..])
  {
    FeedStep(step, rank, d, data);
  }

  /** Feeding some more bytes of a stream. */
  lemma FeedNext<S(!new)>(step: StepFunction<S>, rank: S -> nat, v: Decoder<S>, before: seq<Byte>, d: Decoder<S>,
                          more: seq<Byte>)
    requires Progress(step, rank) && AtRest(v) && AtRest(d) && Fed(d, true) == Feed(step, rank, v, before)
    ensures Feed(step, rank, v, before + more) == Feed(step, rank, d, more)
  {
    FeedSplit(step, rank, v, before, more);
  }

  lemma Rejoined(x: seq<Byte>, data: seq<Byte>, k: nat)
    requires k <= |data|
    ensures (x + data[..k]) + data[k..] == x + data
  {
    assert data == data[..k] + data[k..];
  }
}
