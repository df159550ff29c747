/**
 * What encoders are for, in terms of the step machine alone: the messages come out one after the other, each as the
 * segments of its steps, and each beginning in the state in which the one before has ended.
 */
module EncodingMessages {
  import opened Sequences
  import opened Wrappers
  import opened Bytes
  import opened Encoding

  /** What the step machine says about a message: its bytes, and the state it ends in. */
  datatype Said<S> = Said(bytes: seq<Byte>, next: S)

  function Script<S(!new), M(!new)>(step: StepFunction<S, M>, ghost rank: S -> nat, s: S, m: M): Said<S>
    requires Progress(step, rank)
    decreases rank(s)
  {
    var p := step(s, m);
    if p.last then Said(p.bytes, p.next)
    else
      var r := Script(step, rank, p.next, m);
      Said(p.bytes + r.bytes, r.next)
  }

  /** The state in which the current message ends. */
  function EndOf<S(!new), M(!new)>(step: StepFunction<S, M>, ghost rank: S -> nat, e: Encoder<S, M>): S
    requires Progress(step, rank) && Consistent(e)
  {
    if e.last then e.state else Script(step, rank, e.state, e.inProgress.value).next
  }

  lemma {:induction false} RemainingIsScript<S(!new), M(!new)>(step: StepFunction<S, M>, rank: S -> nat,
                                                               e: Encoder<S, M>)
    requires Progress(step, rank) && Consistent(e) && e.inProgress.Some? && !e.last
    ensures Remaining(step, rank, e) == e.pending + Script(step, rank, e.state, e.inProgress.value).bytes
    decreases rank(e.state)
  {
    var f := CallStep(step, e, e.inProgress.value);
    if !f.last {
      RemainingIsScript(step, rank, f);
    }
  }

  lemma LoadSays<S(!new), M(!new)>(step: StepFunction<S, M>, rank: S -> nat, e: Encoder<S, M>, m: M)
    requires Progress(step, rank) && Consistent(e) && e.inProgress.None?
    ensures Said(Remaining(step, rank, Load(step, e, m)), EndOf(step, rank, Load(step, e, m)))
         == Script(step, rank, e.state, m)
  {
    var f := Load(step, e, m);
    if !f.last {
      RemainingIsScript(step, rank, f);
    }
  }

  lemma {:induction false} FillEnds<S(!new), M(!new)>(step: StepFunction<S, M>, rank: S -> nat, e: Encoder<S, M>,
                                                      room: nat)
    requires Progress(step, rank) && Consistent(e) && e.inProgress.Some?
    ensures EndOf(step, rank, Fill(step, rank, e, room).e) == EndOf(step, rank, e)
    decreases !e.last, rank(e.state), |e.pending|
  {
    if room > 0 && e.pending == [] && !e.last {
      FillEnds(step, rank, CallStep(step, e, e.inProgress.value), room);
    } else if room > 0 && e.pending != [] {
      var k := Min(|e.pending|, room);
      FillEnds(step, rank, e.(pending := e.pending[k..]), room - k);
    }
  }

  lemma {:induction false} FillOwnEnds<S(!new), M(!new)>(step: StepFunction<S, M>, rank: S -> nat, e: Encoder<S, M>,
                                                         room: nat)
    requires Progress(step, rank) && Consistent(e) && e.inProgress.Some? && room > 0
    ensures EndOf(step, rank, FillOwn(step, rank, e, room).e) == EndOf(step, rank, e)
    decreases !e.last, rank(e.state)
  {
    if e.pending == [] && !e.last {
      FillOwnEnds(step, rank, CallStep(step, e, e.inProgress.value), room);
    } else if e.pending != [] && |e.pending| < room {
      FillEnds(step, rank, e, room);
    }
  }

  predicate Roomy(requests: seq<Request>) {
    forall i | 0 <= i < |requests| :: requests[i].room > 0
  }

  lemma {:induction false} EncodeAllEnds<S(!new), M(!new)>(step: StepFunction<S, M>, rank: S -> nat,
                                                           e: Encoder<S, M>, requests: seq<Request>)
    requires Progress(step, rank) && Consistent(e) && Roomy(requests)
    ensures EndOf(step, rank, EncodeAll(step, rank, e, requests).e) == EndOf(step, rank, e)
    decreases |requests|
  {
    if requests != [] {
      var r := Encode(step, rank, e, requests[0].room, requests[0].supplied);
      if e.inProgress.Some? {
        if requests[0].supplied {
          FillEnds(step, rank, e, requests[0].room);
        } else {
          FillOwnEnds(step, rank, e, requests[0].room);
        }
      }
      EncodeAllEnds(step, rank, r.e, requests[1..]);
    }
  }

  /** One message, loaded and encoded to its end: what is handed out is what the step machine says from the state the
      encoder is in, and the encoder is left in the state it says. */
  lemma OneMessage<S(!new), M(!new)>(step: StepFunction<S, M>, rank: S -> nat, e: Encoder<S, M>, m: M,
                                     requests: seq<Request>)
    requires Progress(step, rank) && Consistent(e) && e.inProgress.None? && Roomy(requests)
    requires EncodeAll(step, rank, Load(step, e, m), requests).e.inProgress.None?
    ensures var r := EncodeAll(step, rank, Load(step, e, m), requests);
      Said(r.out, r.e.state) == Script(step, rank, e.state, m)
  {
    LoadSays(step, rank, e, m);
    EncodedToTheEnd(step, rank, Load(step, e, m), requests);
    EncodeAllEnds(step, rank, Load(step, e, m), requests);
  }

  // ------------------------------------------------------------------ many messages

  /** A message, and the buffers it is encoded into. */
  datatype Sending<M> = Sending(msg: M, requests: seq<Request>)

  function SayAll<S(!new), M(!new)>(step: StepFunction<S, M>, ghost rank: S -> nat, s: S, sendings: seq<Sending<M>>)
      : Said<S>
    requires Progress(step, rank)
    decreases |sendings|
  {
    if sendings == [] then Said([], s)
    else
      var p := Script(step, rank, s, sendings[0].msg);
      var r := SayAll(step, rank, p.next, sendings[1..]);
      Said(p.bytes + r.bytes, r.next)
  }

  /** Each message is loaded when the one before has come to its end. */
  function SendAll<S(!new), M(!new)>(step: StepFunction<S, M>, ghost rank: S -> nat, e: Encoder<S, M>,
                                     sendings: seq<Sending<M>>): Option<Encoded<S, M>>
    requires Progress(step, rank) && Consistent(e)
    decreases |sendings|
  {
    if e.inProgress.Some? then None
    else if sendings == [] then Some(Encoded(e, []))
    else if !Roomy(sendings[0].requests) then None
    else
      var r := EncodeAll(step, rank, Load(step, e, sendings[0].msg), sendings[0].requests);
      match SendAll(step, rank, r.e, sendings[1..])
      case None => None
      case Some(rest) => Some(Prefixed(r.out, rest))
  }

  /** Any messages, encoded into any buffers, each to its end: the bytes are those that the step machine says for them
      one after the other, and so is the state at the end. */
  lemma {:induction false} MessagesInSequence<S(!new), M(!new)>(
      step: StepFunction<S, M>, rank: S -> nat, e: Encoder<S, M>, sendings: seq<Sending<M>>)
    requires Progress(step, rank) && Consistent(e) && SendAll(step, rank, e, sendings).Some?
    ensures var r := SendAll(step, rank, e, sendings).value;
      Said(r.out, r.e.state) == SayAll(step, rank, e.state, sendings)
    decreases |sendings|
  {
    if sendings != [] {
      OneMessage(step, rank, e, sendings[0].msg, sendings[0].requests);
      var r := EncodeAll(step, rank, Load(step, e, sendings[0].msg), sendings[0].requests);
      MessagesInSequence(step, rank, r.e, sendings[1..]);
    }
  }
}
