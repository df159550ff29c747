/**
 * What the calls of the step machine have to do with each other: each is made in the state, and with as many bytes, as
 * the answer to the one before it says, and what the last answer says is what the decoder goes on with.
 */
module DecodingSteps {
  import opened Bytes
  import opened Decoding
  import opened Sequences

  /** The state that the first i calls lead to. */
  function StateAt<S>(step: StepFunction<S>, initial: S, log: seq<Call<S>>, i: nat): S
    requires i <= |log|
  {
    if i == 0 then initial else step(log[i - 1].state, log[i - 1].segment).next
  }

  /** The number of bytes they make the decoder want. */
  function NeedAt<S>(step: StepFunction<S>, initial: nat, log: seq<Call<S>>, i: nat): nat
    requires i <= |log|
  {
    if i == 0 then initial else step(log[i - 1].state, log[i - 1].segment).need
  }

  predicate CallObeys<S(==)>(step: StepFunction<S>, initial: S, need: nat, log: seq<Call<S>>, i: nat)
    requires i < |log|
  {
    log[i].state == StateAt(step, initial, log, i) && |log[i].segment| == NeedAt(step, need, log, i)
  }

  /** Every call, and the state and the segment the decoder goes on with, are as the call before says. */
  ghost predicate Obeys<S>(step: StepFunction<S>, initial: S, need: nat, d: Decoder<S>) {
    && (forall i | 0 <= i < |d.log| :: CallObeys(step, initial, need, d.log, i))
    && d.state == StateAt(step, initial, d.log, |d.log|)
    && |d.got| + d.need == NeedAt(step, need, d.log, |d.log|)
  }

  lemma StepObeys<S>(step: StepFunction<S>, initial: S, need: nat, d: Decoder<S>)
    requires Obeys(step, initial, need, d) && d.need == 0
    ensures Obeys(step, initial, need, CallStep(step, d).d)
  {
    var log := CallStep(step, d).d.log;
    forall i | 0 <= i < |log|
      ensures CallObeys(step, initial, need, log, i)
    {
      if i < |d.log| {
        assert CallObeys(step, initial, need, d.log, i);
      }
    }
  }

  lemma {:induction false} SettleObeys<S(!new)>(step: StepFunction<S>, rank: S -> nat, initial: S, need: nat,
                                                d: Decoder<S>)
    requires Progress(step, rank) && d.need == 0 && Obeys(step, initial, need, d)
    ensures Obeys(step, initial, need, Settle(step, rank, d).d)
    decreases d.got != [], rank(d.state)
  {
    StepObeys(step, initial, need, d);
    var e := CallStep(step, d);
    if e.rc == 0 && e.d.need == 0 {
      SettleObeys(step, rank, initial, need, e.d);
    }
  }

  lemma {:induction false} DecodeObeys<S(!new)>(step: StepFunction<S>, rank: S -> nat, initial: S, need: nat,
                                                d: Decoder<S>, data: seq<Byte>)
    requires Progress(step, rank) && AtRest(d) && Obeys(step, initial, need, d)
    ensures Obeys(step, initial, need, Decode(step, rank, d, data).d)
    decreases |data|, d.need == 0
  {
    if data != [] {
      if d.need > |data| {
        TooShort(step, rank, d, data);
      } else {
        LongPiece(step, rank, d, data);
        var e := Take(d, data[..d.need]);
        SettleObeys(step, rank, initial, need, e);
        var s := Settle(step, rank, e);
        if s.rc == 0 {
          DecodeObeys(step, rank, initial, need, s.d, data[d.need..]);
        }
      }
    }
  }

  lemma {:induction false} FeedObeys<S(!new)>(step: StepFunction<S>, rank: S -> nat, initial: S, need: nat,
                                              d: Decoder<S>, data: seq<Byte>)
    requires Progress(step, rank) && AtRest(d) && Obeys(step, initial, need, d)
    ensures Obeys(step, initial, need, Feed(step, rank, d, data).d)
    decreases |data|, d.need == 0, rank(d.state)
  {
    if data != [] {
      DecodeObeys(step, rank, initial, need, d, data);
      FeedStep(step, rank, d, data);
      var e := Decode(step, rank, d, data);
      if e.rc != -1 {
        FeedObeys(step, rank, initial, need, e.d, data[e.used..]);
      }
    }
  }

  function New<S>(initial: S, need: nat): (d: Decoder<S>)
    ensures AtRest(d)
  {
    Decoder(initial, [], need, [])
  }

  /** A new decoder that is fed any stream, cut in any way, makes its first call in its initial state with as many
      bytes as it wanted at first, and every other call in the state and with the number of bytes that the answer to
      the call before said; what it goes on with is what the last answer said. */
  lemma CallsFollowAnswers<S(!new)>(step: StepFunction<S>, rank: S -> nat, initial: S, need: nat,
                                    chunks: seq<seq<Byte>>)
    requires Progress(step, rank)
    ensures var d := FeedChunks(step, rank, New(initial, need), chunks).d;
      && (d.log != [] ==> d.log[0].state == initial && |d.log[0].segment| == need)
      && (forall i | 0 <= i < |d.log| - 1 ::
            var a := step(d.log[i].state, d.log[i].segment);
            d.log[i + 1].state == a.next && |d.log[i + 1].segment| == a.need)
      && (if d.log == [] then d.state == initial && |d.got| + d.need == need
          else
            var a := step(d.log[|d.log| - 1].state, d.log[|d.log| - 1].segment);
            d.state == a.next && |d.got| + d.need == a.need)
  {
    var d0 := New(initial, need);
    ChunksDoNotMatter(step, rank, d0, chunks);
    FeedObeys(step, rank, initial, need, d0, Concat(chunks));
    var d := FeedChunks(step, rank, d0, chunks).d;
    assert d.log != [] ==> CallObeys(step, initial, need, d.log, 0);
    forall i | 0 <= i < |d.log| - 1
      ensures var a := step(d.log[i].state, d.log[i].segment);
        d.log[i + 1].state == a.next && |d.log[i + 1].segment| == a.need
    {
      assert CallObeys(step, initial, need, d.log, i + 1);
    }
  }

  // ------------------------------------------------------------------ when decoding stops

  function RcOf<S>(step: StepFunction<S>, c: Call<S>): Rc {
    step(c.state, c.segment).rc
  }

  /** The calls made after those in `before` all answered 0, but for the last one, which answered rc. */
  ghost predicate Stops<S>(step: StepFunction<S>, before: seq<Call<S>>, after: seq<Call<S>>, rc: Rc) {
    && before <= after
    && (forall i | |before| <= i < |after| - 1 :: RcOf(step, after[i]) == 0)
    && rc == if |after| > |before| then RcOf(step, after[|after| - 1]) else 0
  }

  lemma StopsLater<S>(step: StepFunction<S>, a: seq<Call<S>>, b: seq<Call<S>>, c: seq<Call<S>>, rc: Rc)
    requires Stops(step, a, b, 0) && Stops(step, b, c, rc)
    ensures Stops(step, a, c, rc)
  {
    assert c[..|a|] == c[..|b|][..|a|];
    forall i | |a| <= i < |c| - 1
      ensures RcOf(step, c[i]) == 0
    {
      if i < |b| {
        assert c[i] == c[..|b|][i] == b[i];
        assert i < |b| - 1 || b[i] == b[|b| - 1];
      }
    }
    if |c| == |b| {
      assert c == b;
    }
  }

  lemma {:induction false} SettleStops<S(!new)>(step: StepFunction<S>, rank: S -> nat, d: Decoder<S>)
    requires Progress(step, rank) && d.need == 0
    ensures Stops(step, d.log, Settle(step, rank, d).d.log, Settle(step, rank, d).rc)
    decreases d.got != [], rank(d.state)
  {
    var e := CallStep(step, d);
    assert Stops(step, d.log, e.d.log, e.rc);
    if e.rc == 0 && e.d.need == 0 {
      SettleStops(step, rank, e.d);
      StopsLater(step, d.log, e.d.log, Settle(step, rank, e.d).d.log, Settle(step, rank, e.d).rc);
    }
  }

  /** decode goes on while the calls answer 0, and returns what the last one answered. */
  lemma {:induction false} DecodeStops<S(!new)>(step: StepFunction<S>, rank: S -> nat, d: Decoder<S>, data: seq<Byte>)
    requires Progress(step, rank) && AtRest(d)
    ensures Stops(step, d.log, Decode(step, rank, d, data).d.log, Decode(step, rank, d, data).rc)
    decreases |data|, d.need == 0
  {
    if data != [] {
      if d.need > |data| {
        TooShort(step, rank, d, data);
      } else {
        LongPiece(step, rank, d, data);
        var e := Take(d, data[..d.need]);
        SettleStops(step, rank, e);
        var s := Settle(step, rank, e);
        if s.rc == 0 {
          var r := Decode(step, rank, s.d, data[d.need..]);
          DecodeStops(step, rank, s.d, data[d.need..]);
          StopsLater(step, d.log, s.d.log, r.d.log, r.rc);
        }
      }
    }
  }

  /** Feeding fails exactly if a call answers -1, and that is the last one. */
  lemma {:induction false} FailsExactly<S(!new)>(step: StepFunction<S>, rank: S -> nat, d: Decoder<S>, data: seq<Byte>)
    requires Progress(step, rank) && AtRest(d)
    ensures var r := Feed(step, rank, d, data);
      && d.log <= r.d.log
      && (forall i | |d.log| <= i < |r.d.log| - 1 :: RcOf(step, r.d.log[i]) != -1)
      && (!r.ok <==> |r.d.log| > |d.log| && RcOf(step, r.d.log[|r.d.log| - 1]) == -1)
    decreases |data|, d.need == 0, rank(d.state)
  {
    if data != [] {
      DecodeStops(step, rank, d, data);
      FeedStep(step, rank, d, data);
      var e := Decode(step, rank, d, data);
      if e.rc != -1 {
        FailsExactly(step, rank, e.d, data[e.used..]);
        Onwards(step, d.log, e.d.log, Feed(step, rank, e.d, data[e.used..]).d.log, e.rc);
      }
    }
  }

  lemma Onwards<S>(step: StepFunction<S>, a: seq<Call<S>>, b: seq<Call<S>>, c: seq<Call<S>>, rc: Rc)
    requires Stops(step, a, b, rc) && rc != -1 && b <= c
    ensures a <= c && forall i | |a| <= i < |b| :: RcOf(step, c[i]) != -1
  {
    assert c[..|a|] == c[..|b|][..|a|];
    forall i | |a| <= i < |b|
      ensures RcOf(step, c[i]) != -1
    {
      assert c[i] == c[..|b|][i] == b[i];
      assert i < |b| - 1 || b[i] == b[|b| - 1];
    }
  }
}
