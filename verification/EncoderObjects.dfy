/**
 * encoder_base_t as a mutable object: encode copies segments of the message in progress into a
 * buffer, or hands a long segment out where it is.
 */
module EncoderObjects {
  import opened Wrappers
  import opened Bytes
  import opened Encoding

  class Encoder<S(!new), M(!new)> {
    const step: StepFunction<S, M>
    ghost const rank: S -> nat
    var state: S
    var segment: seq<Byte>
    var writePos: nat
    var newMsgFlag: bool
    var inProgress: Option<M>
    const buf: array<Byte>

    ghost predicate Valid()
      reads this
    {
      Progress(step, rank) && writePos <= |segment| && Consistent(View())
    }

    function ToWrite(): nat
      reads this
      requires writePos <= |segment|
    {
      |segment| - writePos
    }

    ghost function View(): Encoding.Encoder<S, M>
      reads this
      requires writePos <= |segment|
    {
      Encoding.Encoder(state, segment[writePos..], newMsgFlag, inProgress)
    }

    constructor (step: StepFunction<S, M>, ghost rank: S -> nat, state: S, bufsize: nat)
      requires Progress(step, rank)
      ensures Valid() && fresh(buf) && buf.Length == bufsize
      ensures View() == Encoding.Encoder(state, [], true, None)
    {
      this.step := step;
      this.rank := rank;
      this.state := state;
      segment, writePos, newMsgFlag, inProgress := [], 0, true, None;
      buf := new Byte[bufsize](_ => 0);
    }

    /** Calls the next step, which sets the next segment. */
    method RunStep(m: M)
      requires Progress(step, rank) && writePos <= |segment|
      modifies this
      ensures Valid() && View() == CallStep(step, old(View()), m)
    {
      var p := step(state, m);
      state, segment, writePos, newMsgFlag := p.next, p.bytes, 0, p.last;
      inProgress := Some(m);
    }

    method LoadMsg(m: M)
      requires Valid() && inProgress == None
      modifies this
      ensures Valid() && View() == Load(step, old(View()), m)
    {
      inProgress := Some(m);
      RunStep(m);
    }

    /** Copies as much of the segment as there is room for. */
    method CopyOut(buffer: array<Byte>, pos: nat, room: nat) returns (count: nat)
      requires Valid() && pos + room <= buffer.Length
      modifies this`writePos, buffer
      ensures Valid() && count == Min(|old(View()).pending|, room)
      ensures View() == old(View()).(pending := old(View()).pending[count..])
      ensures buffer[..pos] == old(buffer[..pos])
      ensures buffer[pos..pos + count] == old(View()).pending[..count]
    {
      count := Min(ToWrite(), room);
      forall j | pos <= j < pos + count {
        buffer[j] := segment[writePos + j - pos];
      }
      assert buffer[pos..pos + count] == segment[writePos..][..count];
      assert segment[writePos + count..] == segment[writePos..][count..];
      writePos := writePos + count;
    }

    /** One round of the loop of encode: the next segment if this one is used up, and a copy of it. */
    method FillRound(buffer: array<Byte>, pos: nat, room: nat) returns (count: nat)
      requires Valid() && inProgress.Some? && 0 < room && pos + room <= buffer.Length
      modifies this, buffer
      ensures Valid() && count <= room && buffer[..pos] == old(buffer[..pos])
      ensures Fill(step, rank, old(View()), room) == Onward(step, rank, buffer[pos..pos + count], View(), room - count)
      ensures inProgress != None ==>
        count > 0 || (if old(newMsgFlag) then false else newMsgFlag || rank(state) < rank(old(state)))
    {
      count := 0;
      if ToWrite() == 0 {
        if newMsgFlag {
          inProgress := None;
          return;
        }
        RunStep(inProgress.value);
      }
      ghost var v := View();
      count := CopyOut(buffer, pos, room);
      FillCopy(step, rank, v, room, count);
    }

    /** The round after the first `count` bytes of the buffer, which are `done`; `goal` is what the whole loop does. */
    method NextRound(buffer: array<Byte>, at: nat, count: nat, room: nat, ghost done: seq<Byte>,
                     ghost goal: Encoded<S, M>)
        returns (count': nat, ghost done': seq<Byte>)
      requires Valid() && inProgress.Some? && count < room && at + room <= buffer.Length
        && done == buffer[at..at + count]
      requires goal == Onward(step, rank, done, View(), room - count)
      modifies this, buffer
      ensures Valid() && count <= count' <= room && buffer[..at] == old(buffer[..at])
        && done' == buffer[at..at + count']
      ensures goal == Onward(step, rank, done', View(), room - count')
      ensures inProgress != None ==>
        count' > count || (if old(newMsgFlag) then false else newMsgFlag || rank(state) < rank(old(state)))
    {
      ghost var v, front := View(), buffer[..at + count];
      assert front[at..] == done;
      var k;
      ghost var bytes;
      k, bytes := CopyRound(buffer, at + count, room - count);
      count', done' := count + k, done + bytes;
      assert room - count - k == room - count';
      RoundOnward(step, rank, goal, done, v, room - count, bytes, View(), room - count');
      Slices(buffer, front, at, count, count');
    }

    /** FillRound, with the bytes it has written. */
    method CopyRound(buffer: array<Byte>, pos: nat, room: nat) returns (count: nat, ghost bytes: seq<Byte>)
      requires Valid() && inProgress.Some? && 0 < room && pos + room <= buffer.Length
      modifies this, buffer
      ensures Valid() && count <= room && buffer[..pos] == old(buffer[..pos]) && bytes == buffer[pos..pos + count]
      ensures Fill(step, rank, old(View()), room) == Onward(step, rank, bytes, View(), room - count)
      ensures inProgress != None ==>
        count > 0 || (if old(newMsgFlag) then false else newMsgFlag || rank(state) < rank(old(state)))
    {
      count := FillRound(buffer, pos, room);
      bytes := buffer[pos..pos + count];
    }

    lemma Slices(buffer: array<Byte>, done: seq<Byte>, at: nat, count: nat, count': nat)
      requires at + count <= at + count' <= buffer.Length && buffer[..at + count] == done
      ensures buffer[..at] == done[..at]
      ensures buffer[at..at + count'] == done[at..] + buffer[at + count..at + count']
    {
    }

    /** The loop of encode on a buffer in which nothing is handed out in place any more. */
    method FillBuffer(buffer: array<Byte>, at: nat, room: nat) returns (count: nat)
      requires Valid() && inProgress.Some? && at + room <= buffer.Length
      modifies this, buffer
      ensures Valid() && count <= room && buffer[..at] == old(buffer[..at])
      ensures Encoded(View(), buffer[at..at + count]) == Fill(step, rank, old(View()), room)
    {
      count := 0;
      ghost var goal, done := Fill(step, rank, View(), room), buffer[at..at];
      PrefixedNothing(goal);
      while count < room
        invariant Valid() && inProgress.Some? && count <= room && buffer[..at] == old(buffer[..at])
        invariant done == buffer[at..at + count] && goal == Onward(step, rank, done, View(), room - count)
        decreases room - count, !newMsgFlag, rank(state)
      {
        count, done := NextRound(buffer, at, count, room, done, goal);
        if inProgress == None {
          return;
        }
      }
    }

    /** encode into a buffer the caller supplies. */
    method EncodeInto(buffer: array<Byte>, at: nat, room: nat) returns (count: nat)
      requires Valid() && at + room <= buffer.Length
      modifies this, buffer
      ensures Valid() && count <= room && buffer[..at] == old(buffer[..at])
      ensures Encoded(View(), buffer[at..at + count]) == Encode(step, rank, old(View()), room, true)
    {
      count := 0;
      if inProgress != None {
        count := FillBuffer(buffer, at, room);
      }
    }

    /** encode into the encoder's own buffer, or in place if the first segment fills it: returns the
        bytes the caller finds at the address it gets. */
    method EncodeOwn() returns (data: seq<Byte>)
      requires Valid() && buf.Length > 0
      modifies this, buf
      ensures Valid() && Encoded(View(), data) == Encode(step, rank, old(View()), buf.Length, false)
    {
      if inProgress == None {
        return [];
      }
      ghost var goal := FillOwn(step, rank, View(), buf.Length);
      while ToWrite() == 0
        invariant Valid() && inProgress.Some? && goal == FillOwn(step, rank, View(), buf.Length)
        decreases !newMsgFlag, rank(state), ToWrite() == 0
      {
        if newMsgFlag {
          inProgress := None;
          return [];
        }
        RunStep(inProgress.value);
      }
      if ToWrite() >= buf.Length {
        data := segment[writePos..];
        writePos := |segment|;
        return;
      }
      var count := FillBuffer(buf, 0, buf.Length);
      data := buf[..count];
    }
  }
}
