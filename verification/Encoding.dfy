/**
 * encoder_base_t by value: a step machine hands out the segments of a message one after the other,
 * and encode copies them into buffers of whatever size the caller has.
 */
module Encoding {
  import opened Sequences
  import opened Wrappers
  import opened Bytes

  /** What a step hands out (next_step): the bytes, the next state, and whether they are the last of
      the message. */
  datatype Piece<S> = Piece(bytes: seq<Byte>, next: S, last: bool)

  type StepFunction<!S, !M> = (S, M) -> Piece<S>

  /** Every message comes to its last segment. */
  ghost predicate Progress<S(!new), M(!new)>(step: StepFunction<S, M>, rank: S -> nat) {
    forall s, m {:trigger rank(step(s, m).next)} :: !step(s, m).last ==> rank(step(s, m).next) < rank(s)
  }

  /** `pending` is what write_pos and to_write stand for; `last` is new_msg_flag. */
  datatype Encoder<S, M> = Encoder(state: S, pending: seq<Byte>, last: bool, inProgress: Option<M>)

  /** The encoder after a call, and the bytes handed to the caller. */
  datatype Encoded<S, M> = Encoded(e: Encoder<S, M>, out: seq<Byte>)

  predicate Consistent<S, M>(e: Encoder<S, M>) {
    e.inProgress.None? ==> e.pending == [] && e.last
  }

  function CallStep<S, M>(step: StepFunction<S, M>, e: Encoder<S, M>, m: M): Encoder<S, M> {
    var p := step(e.state, m);
    Encoder(p.next, p.bytes, p.last, Some(m))
  }

  /** load_msg. */
  function Load<S, M>(step: StepFunction<S, M>, e: Encoder<S, M>, m: M): Encoder<S, M>
    requires e.inProgress.None?
  {
    CallStep(step, e, m)
  }

  /** The bytes of the current message that have not been handed out yet. */
  function Remaining<S(!new), M(!new)>(step: StepFunction<S, M>, ghost rank: S -> nat, e: Encoder<S, M>): seq<Byte>
    requires Progress(step, rank) && Consistent(e)
    decreases !e.last, rank(e.state)
  {
    if e.last then e.pending else e.pending + Remaining(step, rank, CallStep(step, e, e.inProgress.value))
  }

  function Finish<S, M>(e: Encoder<S, M>): Encoder<S, M> {
    e.(inProgress := None)
  }

  /** The copying loop of encode for the `room` bytes that are left in the buffer. */
  function Fill<S(!new), M(!new)>(step: StepFunction<S, M>, ghost rank: S -> nat, e: Encoder<S, M>, room: nat)
      : (r: Encoded<S, M>)
    requires Progress(step, rank) && Consistent(e) && e.inProgress.Some?
    ensures Consistent(r.e) && |r.out| <= room && (r.e.inProgress.Some? ==> |r.out| == room)
    decreases !e.last, rank(e.state), |e.pending|
  {
    if room == 0 then Encoded(e, [])
    else if e.pending == [] && e.last then Encoded(Finish(e), [])
    else if e.pending == [] then
      Fill(step, rank, CallStep(step, e, e.inProgress.value), room)
    else
      var k := Min(|e.pending|, room);
      Prefixed(e.pending[..k], Fill(step, rank, e.(pending := e.pending[k..]), room - k))
  }

  function Prefixed<S, M>(bytes: seq<Byte>, r: Encoded<S, M>): Encoded<S, M> {
    r.(out := bytes + r.out)
  }

  /** encode with the encoder's own buffer: a segment that fills it is handed out where it is. */
  function FillOwn<S(!new), M(!new)>(step: StepFunction<S, M>, ghost rank: S -> nat, e: Encoder<S, M>, room: nat)
      : (r: Encoded<S, M>)
    requires Progress(step, rank) && Consistent(e) && e.inProgress.Some? && room > 0
    ensures Consistent(r.e)
    decreases !e.last, rank(e.state)
  {
    if e.pending == [] && e.last then Encoded(Finish(e), [])
    else if e.pending == [] then FillOwn(step, rank, CallStep(step, e, e.inProgress.value), room)
    else if |e.pending| >= room then Encoded(e.(pending := []), e.pending)
    else Fill(step, rank, e, room)
  }

  /** encode. */
  function Encode<S(!new), M(!new)>(step: StepFunction<S, M>, ghost rank: S -> nat, e: Encoder<S, M>,
                                    room: nat, supplied: bool): (r: Encoded<S, M>)
    requires Progress(step, rank) && Consistent(e) && (supplied || room > 0)
    ensures Consistent(r.e)
  {
    if e.inProgress.None? then Encoded(e, [])
    else if supplied then Fill(step, rank, e, room)
    else FillOwn(step, rank, e, room)
  }

  // ------------------------------------------------------------------ independence of buffer sizes

  /** Nothing is lost and nothing added: what is handed out and what remains is what there was. */
  ghost predicate Kept<S(!new), M(!new)>(step: StepFunction<S, M>, rank: S -> nat, e: Encoder<S, M>, r: Encoded<S, M>)
    requires Progress(step, rank) && Consistent(e) && Consistent(r.e)
  {
    r.out + Remaining(step, rank, r.e) == Remaining(step, rank, e)
  }

  lemma {:induction false} FillKeeps<S(!new), M(!new)>(step: StepFunction<S, M>, rank: S -> nat, e: Encoder<S, M>,
                                                       room: nat)
    requires Progress(step, rank) && Consistent(e) && e.inProgress.Some?
    ensures Kept(step, rank, e, Fill(step, rank, e, room))
    ensures Fill(step, rank, e, room).e.inProgress.None? <==> |Remaining(step, rank, e)| < room
    decreases !e.last, rank(e.state), |e.pending|
  {
    if room > 0 {
      if e.pending == [] && !e.last {
        StepRemains(step, rank, e);
        FillKeeps(step, rank, CallStep(step, e, e.inProgress.value), room);
      } else if e.pending != [] {
        var k := Min(|e.pending|, room);
        var f := e.(pending := e.pending[k..]);
        TakeRemains(step, rank, e, k);
        FillKeeps(step, rank, f, room - k);
        Assoc(e.pending[..k], Fill(step, rank, f, room - k).out,
          Remaining(step, rank, Fill(step, rank, f, room - k).e));
      }
    }
  }

  lemma PrefixedTwice<S, M>(a: seq<Byte>, b: seq<Byte>, r: Encoded<S, M>)
    ensures Prefixed(a, Prefixed(b, r)) == Prefixed(a + b, r)
  {
    Assoc(a, b, r.out);
  }

  /** Where e leads with `room` bytes left after `done`: nowhere else if the message is finished. */
  function Onward<S(!new), M(!new)>(step: StepFunction<S, M>, ghost rank: S -> nat, done: seq<Byte>,
                                    e: Encoder<S, M>, room: nat): Encoded<S, M>
    requires Progress(step, rank) && Consistent(e)
  {
    if e.inProgress.None? then Encoded(e, done) else Prefixed(done, Fill(step, rank, e, room))
  }

  lemma RoundOnward<S(!new), M(!new)>(step: StepFunction<S, M>, rank: S -> nat, goal: Encoded<S, M>, done: seq<Byte>,
                                      d: Encoder<S, M>, room: nat, bytes: seq<Byte>, e: Encoder<S, M>, room': nat)
    requires Progress(step, rank) && Consistent(d) && Consistent(e) && d.inProgress.Some?
    requires goal == Onward(step, rank, done, d, room)
    requires Fill(step, rank, d, room) == Onward(step, rank, bytes, e, room')
    ensures goal == Onward(step, rank, done + bytes, e, room')
  {
    if e.inProgress.Some? {
      PrefixedTwice(done, bytes, Fill(step, rank, e, room'));
    }
  }

  lemma PrefixedNothing<S, M>(r: Encoded<S, M>)
    ensures Prefixed([], r) == r
  {
  }

  lemma FillCopy<S(!new), M(!new)>(step: StepFunction<S, M>, rank: S -> nat, e: Encoder<S, M>, room: nat, k: nat)
    requires Progress(step, rank) && Consistent(e) && e.inProgress.Some? && k == Min(|e.pending|, room)
    ensures Fill(step, rank, e, room) ==
            Prefixed(e.pending[..k], Fill(step, rank, e.(pending := e.pending[k..]), room - k))
  {
    if e.pending == [] || room == 0 {
      assert e.pending[k..] == e.pending;
      PrefixedNothing(Fill(step, rank, e, room));
    }
  }

  lemma StepRemains<S(!new), M(!new)>(step: StepFunction<S, M>, rank: S -> nat, e: Encoder<S, M>)
    requires Progress(step, rank) && Consistent(e) && e.inProgress.Some? && e.pending == [] && !e.last
    ensures Remaining(step, rank, CallStep(step, e, e.inProgress.value)) == Remaining(step, rank, e)
  {
    var r := Remaining(step, rank, CallStep(step, e, e.inProgress.value));
    assert [] + r == r;
  }

  lemma TakeRemains<S(!new), M(!new)>(step: StepFunction<S, M>, rank: S -> nat, e: Encoder<S, M>, k: nat)
    requires Progress(step, rank) && Consistent(e) && e.inProgress.Some? && k <= |e.pending|
    ensures e.pending[..k] + Remaining(step, rank, e.(pending := e.pending[k..])) == Remaining(step, rank, e)
  {
    assert e.pending[..k] + e.pending[k..] == e.pending;
    if !e.last {
      Assoc(e.pending[..k], e.pending[k..], Remaining(step, rank, CallStep(step, e, e.inProgress.value)));
    }
  }

  lemma {:induction false} FillOwnKeeps<S(!new), M(!new)>(step: StepFunction<S, M>, rank: S -> nat, e: Encoder<S, M>,
                                                          room: nat)
    requires Progress(step, rank) && Consistent(e) && e.inProgress.Some? && room > 0
    ensures Kept(step, rank, e, FillOwn(step, rank, e, room))
    ensures FillOwn(step, rank, e, room).e.inProgress.None? <==> |FillOwn(step, rank, e, room).out| < room
    decreases !e.last, rank(e.state)
  {
    if e.pending == [] && !e.last {
      StepRemains(step, rank, e);
      FillOwnKeeps(step, rank, CallStep(step, e, e.inProgress.value), room);
    } else if e.pending != [] {
      if |e.pending| >= room {
        TakeRemains(step, rank, e, |e.pending|);
        assert e.pending[..|e.pending|] == e.pending;
        assert e.pending[|e.pending|..] == [];
      } else {
        FillKeeps(step, rank, e, room);
        FillShort(step, rank, e, room);
      }
    }
  }

  lemma FillShort<S(!new), M(!new)>(step: StepFunction<S, M>, rank: S -> nat, e: Encoder<S, M>, room: nat)
    requires Progress(step, rank) && Consistent(e) && e.inProgress.Some?
    requires Kept(step, rank, e, Fill(step, rank, e, room))
    requires Fill(step, rank, e, room).e.inProgress.None? <==> |Remaining(step, rank, e)| < room
    ensures Fill(step, rank, e, room).e.inProgress.None? <==> |Fill(step, rank, e, room).out| < room
  {
  }

  /** encode hands out a beginning of what remains of the message, and less than the buffer size
      exactly when the message is finished, so that the next one can be loaded. */
  lemma EncodeKeeps<S(!new), M(!new)>(step: StepFunction<S, M>, rank: S -> nat, e: Encoder<S, M>, room: nat,
                                      supplied: bool)
    requires Progress(step, rank) && Consistent(e) && room > 0
    ensures Kept(step, rank, e, Encode(step, rank, e, room, supplied))
    ensures Encode(step, rank, e, room, supplied).e.inProgress.None?
            <==> |Encode(step, rank, e, room, supplied).out| < room
    ensures supplied ==> |Encode(step, rank, e, room, supplied).out| == Min(room, |Remaining(step, rank, e)|)
  {
    if e.inProgress.Some? {
      if supplied {
        FillKeeps(step, rank, e, room);
      } else {
        FillOwnKeeps(step, rank, e, room);
      }
    }
  }

  /** One call of encode: the room in the buffer, and whether the caller supplied it. */
  datatype Request = Request(room: nat, supplied: bool)

  function EncodeAll<S(!new), M(!new)>(step: StepFunction<S, M>, ghost rank: S -> nat, e: Encoder<S, M>,
                                       requests: seq<Request>): (r: Encoded<S, M>)
    requires Progress(step, rank) && Consistent(e) && forall i | 0 <= i < |requests| :: requests[i].room > 0
    ensures Consistent(r.e)
    decreases |requests|
  {
    if requests == [] then Encoded(e, [])
    else
      var r := Encode(step, rank, e, requests[0].room, requests[0].supplied);
      Prefixed(r.out, EncodeAll(step, rank, r.e, requests[1..]))
  }

  lemma {:induction false} EncodeAllKeeps<S(!new), M(!new)>(step: StepFunction<S, M>, rank: S -> nat,
                                                            e: Encoder<S, M>, requests: seq<Request>)
    requires Progress(step, rank) && Consistent(e) && forall i | 0 <= i < |requests| :: requests[i].room > 0
    ensures Kept(step, rank, e, EncodeAll(step, rank, e, requests))
    decreases |requests|
  {
    if requests == [] {
      var r := Remaining(step, rank, e);
      assert [] + r == r;
    } else {
      EncodeKeeps(step, rank, e, requests[0].room, requests[0].supplied);
      var r := Encode(step, rank, e, requests[0].room, requests[0].supplied);
      EncodeAllKeeps(step, rank, r.e, requests[1..]);
      var rest := EncodeAll(step, rank, r.e, requests[1..]);
      Assoc(r.out, rest.out, Remaining(step, rank, rest.e));
    }
  }

  /** Encoding to the end hands out exactly the segments of the message. */
  lemma EncodedToTheEnd<S(!new), M(!new)>(step: StepFunction<S, M>, rank: S -> nat, e: Encoder<S, M>,
                                          requests: seq<Request>)
    requires Progress(step, rank) && Consistent(e) && forall i | 0 <= i < |requests| :: requests[i].room > 0
    requires EncodeAll(step, rank, e, requests).e.inProgress.None?
    ensures EncodeAll(step, rank, e, requests).out == Remaining(step, rank, e)
  {
    EncodeAllKeeps(step, rank, e, requests);
    var r := EncodeAll(step, rank, e, requests);
    assert Remaining(step, rank, r.e) == [];
    assert r.out + [] == r.out;
  }

  /** Whatever the buffer sizes, and whether or not segments are handed out in place: two ways of
      encoding a message to its end give the same bytes. */
  lemma BuffersDoNotMatter<S(!new), M(!new)>(step: StepFunction<S, M>, rank: S -> nat, e: Encoder<S, M>,
                                             x: seq<Request>, y: seq<Request>)
    requires Progress(step, rank) && Consistent(e)
    requires forall i | 0 <= i < |x| :: x[i].room > 0
    requires forall i | 0 <= i < |y| :: y[i].room > 0
    requires EncodeAll(step, rank, e, x).e.inProgress.None? && EncodeAll(step, rank, e, y).e.inProgress.None?
    ensures EncodeAll(step, rank, e, x).out == EncodeAll(step, rank, e, y).out
  {
    EncodedToTheEnd(step, rank, e, x);
    EncodedToTheEnd(step, rank, e, y);
  }
}
