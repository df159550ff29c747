/**
 * decoder_base_t as a mutable object: a position in some memory where the next bytes go, and a loop
 * that copies bytes there, or leaves them where they are when they already are in place.
 */
module DecoderObjects {
  import opened Sequences
  import opened Bytes
  import opened Decoding

  class Decoder<S(!new)> {
    const step: StepFunction<S>
    ghost const rank: S -> nat
    var state: S
    var target: array<Byte>
    var start: nat
    var readPos: nat
    var toRead: nat
    var buf: array<Byte>
    var size: nat
    ghost var log: seq<Call<S>>

    ghost predicate Valid()
      reads this
    {
      && Progress(step, rank)
      && start <= readPos && readPos + toRead <= target.Length
      && (toRead == 0 ==> start == readPos)
    }

    ghost function View(): Decoding.Decoder<S>
      reads this, target
      requires start <= readPos <= target.Length
    {
      Decoding.Decoder(state, target[start..readPos], toRead, log)
    }

    /** The answer of the step called last. */
    ghost function Answer(): Action<S>
      reads this
      requires log != []
    {
      step(log[|log| - 1].state, log[|log| - 1].segment)
    }

    /** A segment of `need` bytes fits into what has been received in the buffer of the decoder. */
    predicate Fits(data: array<Byte>, at: nat, need: nat)
      reads this
    {
      data == buf && at + need <= size && at + need <= data.Length
    }

    /** The last step has left its bytes in place, at position `at` of the data. */
    ghost predicate Placed(data: array<Byte>, at: nat)
      reads this
      requires log != []
    {
      Answer().inPlace && Fits(data, at, Answer().need)
    }

    /** The bytes are where the next ones are wanted, or in some other memory. */
    predicate Follows(data: array<Byte>, offset: nat)
      reads this
    {
      data == target ==> offset == readPos
    }

    /** What decode asserts: bytes that already are in place are not more than the segment lacks. */
    predicate Legal(data: array<Byte>, count: nat)
      reads this
    {
      data == target ==> count <= toRead
    }

    /** A step has returned `rc`, and the next segment is as it has asked. */
    ghost predicate Stopped(data: array<Byte>, at: nat, rc: Rc)
      reads this
    {
      log != [] && Answer().rc == rc && toRead == Answer().need && (target == data <==> Placed(data, at))
    }

    /** The memory that copying from `data` writes to: none if the bytes are in place. */
    function Elsewhere(data: array<Byte>): set<array<Byte>>
      reads this
    {
      if target == data then {} else {target}
    }

    constructor (step: StepFunction<S>, ghost rank: S -> nat, state: S, need: nat, bufsize: nat)
      requires Progress(step, rank)
      ensures Valid() && fresh(target) && fresh(buf) && buf.Length == bufsize
      ensures View() == Decoding.Decoder(state, [], need, []) && target != buf && size == bufsize
      ensures this.step == step && this.rank == rank
    {
      this.step := step;
      this.rank := rank;
      this.state := state;
      target := new Byte[need](_ => 0);
      start, readPos, toRead := 0, 0, need;
      buf := new Byte[bufsize](_ => 0);
      size := bufsize;
      log := [];
    }

    /** Where the caller should put the next bytes: a big segment is filled in place.  A buffer that messages
        still use (`held`), such as the one under way, is left to them. */
    method GetBuffer(held: bool) returns (data: array<Byte>, offset: nat, count: nat)
      requires Valid()
      modifies this`buf, this`size
      ensures Valid() && View() == old(View()) && offset + count <= data.Length
      ensures buf.Length == size == old(buf.Length)
        && (if held || target == old(buf) then fresh(buf) else buf == old(buf))
      ensures if toRead >= size then data == target && offset == readPos && count == toRead
              else data == buf && data != target && offset == 0 && count == size
    {
      if held || target == buf {
        buf := new Byte[buf.Length](_ => 0);
      }
      size := buf.Length;
      if toRead >= size {
        return target, readPos, toRead;
      }
      return buf, 0, size;
    }

    /** resize_buffer: as many bytes as have been received. */
    method ResizeBuffer(received: nat)
      requires Valid()
      modifies this`size
      ensures Valid() && size == received && View() == old(View())
    {
      size := received;
    }

    /** next_step: bytes wanted in place stay at position `at` of the caller's data if they fit. */
    method NextStep(data: array<Byte>, at: nat, need: nat, inPlace: bool)
      modifies this`target, this`start, this`readPos, this`toRead
      ensures start == readPos && toRead == need && readPos + toRead <= target.Length
      ensures if inPlace && Fits(data, at, need) then target == data && readPos == at else fresh(target)
    {
      if inPlace && Fits(data, at, need) {
        target, start := data, at;
      } else {
        target, start := new Byte[need](_ => 0), 0;
      }
      readPos := start;
      toRead := need;
    }

    /** `while (!to_read)`: run the state machine. */
    method RunSteps(data: array<Byte>, at: nat, ghost full: Decoding.Decoder<S>) returns (rc: Rc)
      requires Progress(step, rank) && start <= readPos <= target.Length && toRead == 0 && full == View()
      modifies this`target, this`start, this`readPos, this`toRead, this`state, this`log
      ensures Valid() && Decoded(View(), rc, 0) == Settle(step, rank, full)
      ensures log != [] && Answer().rc == rc && toRead == Answer().need
      ensures if Placed(data, at) then target == data && readPos == at else fresh(target)
    {
      while toRead == 0
        invariant start <= readPos && readPos + toRead <= target.Length
        invariant toRead > 0 ==> start == readPos && Decoded(View(), 0, 0) == Settle(step, rank, full)
        invariant toRead == 0 ==> Settle(step, rank, View()) == Settle(step, rank, full)
        invariant toRead > 0 ==> log != [] && Answer().rc == 0 && toRead == Answer().need
        invariant toRead > 0 ==> if Placed(data, at) then target == data && readPos == at else fresh(target)
        invariant target == old(target) || target == data || fresh(target)
        decreases toRead == 0, start < readPos, rank(state)
      {
        ghost var v := View();
        var a := step(state, target[start..readPos]);
        log := log + [Call(state, target[start..readPos])];
        state := a.next;
        NextStep(data, at, a.need, a.inPlace);
        assert View() == CallStep(step, v).d;
        if a.rc != 0 {
          return a.rc;
        }
      }
      return 0;
    }

    /** memcpy to the place of the next bytes, unless they are there already. */
    method Copy(data: array<Byte>, at: nat, count: nat, ghost bytes: seq<Byte>)
      requires readPos + count <= target.Length && at + count <= data.Length && bytes == data[at..at + count]
      requires target == data ==> readPos == at
      modifies Elsewhere(data)
      ensures target[readPos..readPos + count] == bytes
      ensures target[..readPos] == old(target[..readPos])
    {
      if !(target == data && readPos == at) {
        forall j | readPos <= j < readPos + count {
          target[j] := data[at + j - readPos];
        }
        assert forall i | 0 <= i < count :: bytes[i] == target[readPos + i];
      }
    }

    /** One round of the copying loop of decode, up to the calls of the state machine. */
    method Gather(data: array<Byte>, at: nat, count: nat, ghost v: Decoding.Decoder<S>, ghost bytes: seq<Byte>)
      requires Valid() && at + count <= data.Length && count <= toRead && v == View() && bytes == data[at..at + count]
      requires target == data ==> readPos == at
      modifies this`readPos, this`toRead, Elsewhere(data)
      ensures start <= readPos && readPos + toRead <= target.Length
      ensures View() == Take(v, bytes)
      ensures target == data ==> readPos == at + count
    {
      ghost var before := target[..readPos];
      assert before[start..] == target[start..readPos];
      Copy(data, at, count, bytes);
      assert before[start..] + bytes == target[start..readPos + count];
      readPos := readPos + count;
      toRead := toRead - count;
    }

    /** decode when the bytes have been put in place. */
    method DecodeInPlace(data: array<Byte>, offset: nat, count: nat) returns (rc: Rc, used: nat)
      requires Valid() && offset + count <= data.Length
      requires data == target && offset == readPos && 0 < count <= toRead
      modifies this`target, this`start, this`readPos, this`toRead, this`state, this`log
      ensures Valid() && used == count && Follows(data, offset + used)
      ensures target == data || fresh(target)
      ensures Decoded(View(), rc, used) == Decoding.Decode(step, rank, old(View()), old(data[offset..offset + count]))
      ensures rc != 0 ==> Stopped(data, offset + used, rc)
    {
      ghost var v, input := View(), data[offset..offset + count];
      InPlaceAgrees(step, rank, v, input);
      readPos := readPos + count;
      toRead := toRead - count;
      used := count;
      assert View() == Take(v, input);
      rc := 0;
      if toRead == 0 {
        rc := RunSteps(data, offset + used, View());
      }
    }

    /** One round of the copying loop of decode, for the bytes after the first `used`, which are `rest`.  `goal` is
        the outcome of all of them; the round either reaches it or leaves the bytes that lead there. */
    method Round(data: array<Byte>, offset: nat, count: nat, used: nat, ghost rest: seq<Byte>, ghost goal: Decoded<S>)
        returns (rc: Rc, used': nat, ghost left: seq<Byte>)
      requires Valid() && used < count && offset + count <= data.Length && rest == data[offset + used..offset + count]
      requires Follows(data, offset + used)
      requires goal == Onward(step, rank, Decoded(View(), 0, used), rest)
      modifies this`target, this`start, this`readPos, this`toRead, this`state, this`log, Elsewhere(data)
      ensures Valid() && used' == used + Min(old(toRead), count - used) && (rc == 0 ==> toRead > 0)
      ensures target == old(target) || target == data || fresh(target)
      ensures Follows(data, offset + used')
      ensures rc != 0 ==> Stopped(data, offset + used', rc)
      ensures left == data[offset + used'..offset + count]
      ensures goal == Onward(step, rank, Decoded(View(), rc, used'), left)
    {
      ghost var v := View();
      var k := Min(toRead, count - used);
      assert data[offset + used..offset + used + k] == rest[..k];
      used', left, rc := used + k, rest[k..], 0;
      assert left == data[offset + used'..offset + count];
      Gather(data, offset + used, k, v, rest[..k]);
      if toRead == 0 {
        ghost var full := View();
        rc := RunSteps(data, offset + used', full);
        ClosedRoundOn(step, rank, goal, v, used, rest, k, full, Decoded(View(), rc, 0), left, used');
      } else {
        OpenRoundOn(step, rank, goal, v, used, rest, k, left, used');
      }
    }

    /** The copying loop of decode; `goal` is the outcome of all bytes. */
    method Rounds(data: array<Byte>, offset: nat, count: nat, ghost input: seq<Byte>, ghost goal: Decoded<S>)
        returns (rc: Rc, used: nat)
      requires Valid() && offset + count <= data.Length && data != target && input == data[offset..offset + count]
      requires Follows(data, offset) && goal == Onward(step, rank, Decoded(View(), 0, 0), input)
      modifies this`target, this`start, this`readPos, this`toRead, this`state, this`log, target
      ensures Valid() && used <= count && Decoded(View(), rc, used) == goal
      ensures target == old(target) || target == data || fresh(target)
      ensures Follows(data, offset + used)
      ensures rc != 0 ==> Stopped(data, offset + used, rc)
    {
      used, rc := 0, 0;
      ghost var left := input;
      while used < count
        invariant Valid() && used <= count && left == data[offset + used..offset + count]
        invariant target == old(target) || target == data || fresh(target)
        invariant Follows(data, offset + used) && rc == 0
        invariant goal == Onward(step, rank, Decoded(View(), 0, used), left)
        decreases count - used, toRead == 0
      {
        rc, used, left := Round(data, offset, count, used, left, goal);
        if rc != 0 {
          break;
        }
      }
      OnwardEnds(step, rank, View(), left, rc, used);
    }

    /** decode when the bytes are elsewhere. */
    method DecodeCopying(data: array<Byte>, offset: nat, count: nat, ghost input: seq<Byte>) returns (rc: Rc, used: nat)
      requires Valid() && offset + count <= data.Length && data != target && input == data[offset..offset + count]
      requires Follows(data, offset)
      modifies this`target, this`start, this`readPos, this`toRead, this`state, this`log, target
      ensures Valid() && Decoded(View(), rc, used) == Decoding.Decode(step, rank, old(View()), input)
      ensures used <= count && (target == old(target) || target == data || fresh(target))
      ensures Follows(data, offset + used)
      ensures rc != 0 ==> Stopped(data, offset + used, rc)
    {
      OnwardEnds(step, rank, View(), input, 0, 0);
      rc, used := Rounds(data, offset, count, input, Onward(step, rank, Decoded(View(), 0, 0), input));
    }

    /** decode.  When it returns a message before the end of the data, the rest may be fed from where it is
        exactly if the last step has not left its bytes in place, or wants all of the rest. */
    method Decode(data: array<Byte>, offset: nat, count: nat, ghost input: seq<Byte>) returns (rc: Rc, used: nat)
      requires Valid() && 0 < count && offset + count <= data.Length && input == data[offset..offset + count]
      requires Follows(data, offset) && Legal(data, count)
      modifies this`target, this`start, this`readPos, this`toRead, this`state, this`log, Elsewhere(data)
      ensures Valid() && used <= count && Follows(data, offset + used)
      ensures Decoded(View(), rc, used) == Decoding.Decode(step, rank, old(View()), input)
      ensures target == old(target) || target == data || fresh(target)
      ensures rc == 1 ==> Stopped(data, offset + used, rc)
      ensures rc == 1 ==> (Legal(data, count - used) <==> !Placed(data, offset + used) || count - used <= Answer().need)
    {
      if data == target && offset == readPos {
        rc, used := DecodeInPlace(data, offset, count);
      } else {
        rc, used := DecodeCopying(data, offset, count, input);
      }
    }

    /** One call of decode in the loop of in_event, for the bytes after the first `done`, which are `rest`. */
    method FeedRound(data: array<Byte>, offset: nat, count: nat, done: nat, ghost rest: seq<Byte>)
        returns (rc: Rc, done': nat, ghost left: seq<Byte>)
      requires Valid() && done < count && offset + count <= data.Length && rest == data[offset + done..offset + count]
      requires Follows(data, offset + done) && Legal(data, count - done)
      modifies this`target, this`start, this`readPos, this`toRead, this`state, this`log, Elsewhere(data)
      ensures Valid() && done <= done' <= count && Follows(data, offset + done') && (rc == 0 ==> done' == count)
      ensures target == old(target) || target == data || fresh(target)
      ensures left == data[offset + done'..offset + count]
      ensures Decoding.Feed(step, rank, old(View()), rest) == FeedTail(step, rank, View(), rc, left)
      ensures StopsOutside(step) && rc == 1 ==> Legal(data, count - done')
      ensures rc == 1 && done' == done ==> old(toRead) == 0 && (toRead > 0 || rank(state) < rank(old(state)))
    {
      ghost var v := View();
      var used;
      rc, used := Decode(data, offset + done, count - done, rest);
      done', left := done + used, rest[used..];
      FeedOnward(step, rank, v, rest, Decoded(View(), rc, used));
    }

    /** The loop of in_event: decode is called again with the rest of the data after each message.  `aborted`
        is the failure of the assertion in decode. */
    method Feed(data: array<Byte>, offset: nat, count: nat, ghost input: seq<Byte>) returns (ok: bool, aborted: bool)
      requires Valid() && offset + count <= data.Length && input == data[offset..offset + count]
      requires Follows(data, offset) && Legal(data, count)
      modifies this`target, this`start, this`readPos, this`toRead, this`state, this`log, Elsewhere(data)
      ensures Valid()
      ensures !aborted ==> Fed(View(), ok) == Decoding.Feed(step, rank, old(View()), input)
      ensures StopsOutside(step) ==> !aborted
      ensures target == old(target) || target == data || fresh(target)
    {
      var done := 0;
      ghost var goal, left := Decoding.Feed(step, rank, View(), input), input;
      while done < count
        invariant Valid() && done <= count && left == data[offset + done..offset + count]
        invariant target == old(target) || target == data || fresh(target)
        invariant Follows(data, offset + done)
        invariant StopsOutside(step) ==> done < count ==> Legal(data, count - done)
        invariant goal == Decoding.Feed(step, rank, View(), left)
        decreases count - done, toRead == 0, rank(state)
      {
        if !Legal(data, count - done) {
          return false, true;
        }
        var rc;
        rc, done, left := FeedRound(data, offset, count, done, left);
        if rc == -1 {
          return false, false;
        }
      }
      return true, false;
    }

    /** The first half of in_event: as much of what has arrived as the buffer has room for is read into it. */
    method Receive(arrived: seq<Byte>, held: bool) returns (data: array<Byte>, offset: nat, taken: nat)
      requires Valid()
      modifies this`buf, this`size, target, buf
      ensures Valid() && View() == old(View()) && (buf == old(buf) || fresh(buf))
      ensures taken <= |arrived| && offset + taken <= data.Length && data[offset..offset + taken] == arrived[..taken]
      ensures (data == target || data == buf) && Follows(data, offset) && Legal(data, taken)
    {
      var count;
      data, offset, count := GetBuffer(held);
      taken := Min(count, |arrived|);
      forall j | offset <= j < offset + taken {
        data[j] := arrived[j - offset];
      }
      ResizeBuffer(taken);
    }

    /** in_event: what has been read is decoded. */
    method InEvent(arrived: seq<Byte>, held: bool) returns (taken: nat, ok: bool, aborted: bool)
      requires Valid()
      modifies this, target, buf
      ensures Valid() && taken <= |arrived|
      ensures !aborted ==> Fed(View(), ok) == Decoding.Feed(step, rank, old(View()), arrived[..taken])
      ensures StopsOutside(step) ==> !aborted
      ensures (target == old(target) || target == old(buf) || fresh(target)) && (buf == old(buf) || fresh(buf))
    {
      var data, offset;
      data, offset, taken := Receive(arrived, held);
      ok, aborted := Feed(data, offset, taken, arrived[..taken]);
    }

    /** One event of several; `was` bytes have been taken before. */
    method NextEvent(stream: seq<Byte>, was: nat, arrival: nat, held: bool, ghost v: Decoding.Decoder<S>)
        returns (taken: nat, ok: bool, aborted: bool)
      requires Valid() && was <= |stream| && AtRest(v)
      requires Fed(View(), true) == Decoding.Feed(step, rank, v, stream[..was])
      modifies this, target, buf
      ensures Valid() && was <= taken <= |stream|
      ensures !aborted ==> Fed(View(), ok) == Decoding.Feed(step, rank, v, stream[..taken])
      ensures StopsOutside(step) ==> !aborted
      ensures (target == old(target) || target == old(buf) || fresh(target)) && (buf == old(buf) || fresh(buf))
    {
      ghost var d := View();
      var arrived := stream[was..was + Min(arrival, |stream| - was)];
      var n;
      n, ok, aborted := InEvent(arrived, held);
      taken := was + n;
      assert stream[..taken] == stream[..was] + arrived[..n];
      FeedNext(step, rank, v, stream[..was], d, arrived[..n]);
    }

    static lemma ChunkTaken(stream: seq<Byte>, was: nat, taken: nat, chunks: seq<seq<Byte>>)
      requires was <= taken <= |stream| && Concat(chunks) == stream[..was]
      ensures Concat(chunks + [stream[was..taken]]) == stream[..taken]
    {
      ConcatMore(chunks, stream[was..taken]);
      assert stream[..taken] == stream[..was] + stream[was..taken];
    }

    /** Any number of events, with the stream arriving in any portions and messages holding on to any buffers:
        the outcome is that of feeding the stream, as far as it has been read, in the chunks that were read, and so
        in any other. */
    method Pump(stream: seq<Byte>, arrivals: seq<nat>, held: seq<bool>)
        returns (taken: nat, ok: bool, aborted: bool, ghost chunks: seq<seq<Byte>>)
      requires Valid() && |held| == |arrivals|
      modifies this, target, buf
      ensures Valid() && taken <= |stream| && Concat(chunks) == stream[..taken]
      ensures !aborted ==> Fed(View(), ok) == Decoding.Feed(step, rank, old(View()), stream[..taken])
      ensures !aborted ==> Fed(View(), ok) == FeedChunks(step, rank, old(View()), chunks)
      ensures StopsOutside(step) ==> !aborted
    {
      taken, ok, aborted, chunks := 0, true, false, [];
      ghost var v := View();
      for i := 0 to |arrivals|
        invariant Valid() && taken <= |stream| && Concat(chunks) == stream[..taken] && !aborted && ok
        invariant Fed(View(), true) == Decoding.Feed(step, rank, v, stream[..taken])
        invariant (target == old(target) || target == old(buf) || fresh(target)) && (buf == old(buf) || fresh(buf))
      {
        var was := taken;
        taken, ok, aborted := NextEvent(stream, was, arrivals[i], held[i], v);
        ChunkTaken(stream, was, taken, chunks);
        chunks := chunks + [stream[was..taken]];
        if aborted || !ok {
          break;
        }
      }
      ChunksDoNotMatter(step, rank, v, chunks);
    }
  }

  /** Each byte is a message, and the next one is wanted in place. */
  const GREEDY: StepFunction<()> := (s, segment) => Action(1, (), 1, true)

  /** StopsOutside is needed: this decoder, fed the rest of three bytes after the first message, runs into the
      assertion of decode. */
  method RefeedCanAbort() returns (legal: bool)
    ensures !legal
  {
    var d := new Decoder<()>(GREEDY, s => 0, (), 1, 3);
    var data, offset, count := d.GetBuffer(false);
    d.ResizeBuffer(3);
    ghost var v, input := d.View(), data[offset..offset + count];
    var rc, used := d.Decode(data, offset, count, input);
    assert Decoding.Decode(GREEDY, d.rank, v, input).rc == 1 && used == 1;
    assert d.Placed(data, offset + used);
    legal := d.Legal(data, count - used);
  }
}
