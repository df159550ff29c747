/**
 * pgm_sender_t as a mutable object: out_event fills the packet buffer from the encoder, proved to make
 * the packets of module Pgm.
 */
module PgmObjects {
  import opened Wrappers
  import opened Bytes
  import opened Encoding
  import opened Pgm
  import EncoderObjects

  /** A packet on the wire: put_uint16 of the offset, then the payload. */
  function Raw(packet: Packet): seq<Byte> {
    [packet.offset / 256 % 256, packet.offset % 256] + packet.payload
  }

  class PgmSender<S(!new), M(!new)> {
    const encoder: EncoderObjects.Encoder<S, M>
    const outBuffer: array<Byte>
    var writeSize: nat
    var moreFlag: bool
    var queue: seq<Part<M>>
    var wire: seq<seq<Byte>>
    ghost var frames: seq<Frame>
    ghost var packets: seq<Packet>

    ghost predicate Valid()
      reads this, encoder, outBuffer
    {
      && encoder.Valid() && outBuffer.Length > 2 && outBuffer.Length - 2 <= NO_OFFSET
      && encoder.buf != outBuffer && writeSize <= outBuffer.Length
      && (writeSize > 0 ==> packets != [] && outBuffer[..writeSize] == Raw(packets[|packets| - 1]))
    }

    ghost function View(): Sender<S, M>
      reads this, encoder
      requires encoder.writePos <= |encoder.segment|
    {
      Sender(encoder.View(), moreFlag, queue, frames, packets)
    }

    constructor (encoder: EncoderObjects.Encoder<S, M>, outBufferSize: nat)
      requires encoder.Valid() && encoder.inProgress == None && 2 < outBufferSize <= 2 + NO_OFFSET
      ensures Valid() && this.encoder == encoder && outBuffer.Length == outBufferSize && writeSize == 0
      ensures View() == Sender(encoder.View(), false, [], [], [])
    {
      this.encoder := encoder;
      outBuffer := new Byte[outBufferSize](_ => 0);
      writeSize, moreFlag, queue, wire := 0, false, [], [];
      frames, packets := [], [];
    }

    /** pull_msg and load_msg: the next part goes into the encoder. */
    method LoadNext()
      requires encoder.Valid() && encoder.inProgress == None && queue != []
      modifies this`moreFlag, this`queue, this`frames, encoder
      ensures encoder.Valid() && encoder.inProgress.Some?
      ensures encoder.View() == Load(encoder.step, old(encoder.View()), old(queue[0].msg))
      ensures moreFlag == old(queue[0].more) && queue == old(queue[1..])
      ensures frames == old(frames) + [Frame(Remaining(encoder.step, encoder.rank, encoder.View()), moreFlag)]
    {
      var part := queue[0];
      queue := queue[1..];
      moreFlag := part.more;
      encoder.LoadMsg(part.msg);
      frames := frames + [Frame(Remaining(encoder.step, encoder.rank, encoder.View()), moreFlag)];
    }

    /** One round of the loop of out_event. */
    method PackRound(bytes: nat, offset: nat) returns (bytes': nat, offset': nat)
      requires encoder.Valid() && encoder.inProgress == None && queue != []
      requires 2 + bytes < outBuffer.Length && encoder.buf != outBuffer
      modifies this`moreFlag, this`queue, this`frames, encoder, outBuffer
      ensures encoder.Valid() && bytes <= bytes' <= outBuffer.Length - 2 && |queue| < |old(queue)|
      ensures bytes' < outBuffer.Length - 2 ==> encoder.inProgress == None
      ensures Packing(View(), outBuffer[2..2 + bytes'], offset')
           == PackNext(encoder.step, encoder.rank, Marked(old(Packing(View(), outBuffer[2..2 + bytes], offset))),
             outBuffer.Length - 2)
    {
      offset' := if !moreFlag && offset == NO_OFFSET then bytes else offset;
      LoadNext();
      bytes' := EncodeRest(bytes);
    }

    /** Encodes as much as there is room for behind the first `bytes` of the payload. */
    method EncodeRest(bytes: nat) returns (bytes': nat)
      requires encoder.Valid() && 2 + bytes < outBuffer.Length && encoder.buf != outBuffer
      modifies encoder, outBuffer
      ensures encoder.Valid() && bytes <= bytes' <= outBuffer.Length - 2
      ensures bytes' < outBuffer.Length - 2 ==> encoder.inProgress == None
      ensures encoder.View()
        == Encode(encoder.step, encoder.rank, old(encoder.View()), outBuffer.Length - 2 - bytes, true).e
      ensures outBuffer[2..2 + bytes'] == old(outBuffer[2..2 + bytes])
              + Encode(encoder.step, encoder.rank, old(encoder.View()), outBuffer.Length - 2 - bytes, true).out
    {
      ghost var done := outBuffer[..2 + bytes];
      EncodeKeeps(encoder.step, encoder.rank, encoder.View(), outBuffer.Length - 2 - bytes, true);
      var count := encoder.EncodeInto(outBuffer, 2 + bytes, outBuffer.Length - 2 - bytes);
      bytes' := bytes + count;
      assert done[2..] == outBuffer[2..2 + bytes];
      assert outBuffer[2..2 + bytes'] == done[2..] + outBuffer[2 + bytes..2 + bytes'];
    }

    /** The loop of out_event. */
    method PackAll(start: nat) returns (bytes: nat, offset: nat)
      requires encoder.Valid() && outBuffer.Length > 2 && encoder.buf != outBuffer
      requires start <= outBuffer.Length - 2 && (start < outBuffer.Length - 2 ==> encoder.inProgress == None)
      modifies this`moreFlag, this`queue, this`frames, encoder, outBuffer
      ensures encoder.Valid() && bytes <= outBuffer.Length - 2
      ensures Packing(View(), outBuffer[2..2 + bytes], offset)
           == Pack(encoder.step, encoder.rank, old(Packing(View(), outBuffer[2..2 + start], NO_OFFSET)),
             outBuffer.Length - 2)
    {
      bytes, offset := start, NO_OFFSET;
      ghost var goal := Pack(encoder.step, encoder.rank, Packing(View(), outBuffer[2..2 + bytes], offset),
          outBuffer.Length - 2);
      while bytes < outBuffer.Length - 2
        invariant encoder.Valid() && bytes <= outBuffer.Length - 2
        invariant bytes < outBuffer.Length - 2 ==> encoder.inProgress == None
        invariant goal == Pack(encoder.step, encoder.rank, Packing(View(), outBuffer[2..2 + bytes], offset),
          outBuffer.Length - 2)
        decreases outBuffer.Length - bytes, |queue|
      {
        if queue == [] {
          offset := if !moreFlag && offset == NO_OFFSET then bytes else offset;
          return;
        }
        bytes, offset := PackRound(bytes, offset);
      }
    }

    /** Fills the buffer. */
    method FillPacket() returns (bytes: nat, offset: nat)
      requires Valid()
      modifies this`moreFlag, this`queue, this`frames, encoder, outBuffer
      ensures encoder.Valid() && bytes <= outBuffer.Length - 2
      ensures Posted(Packing(View(), outBuffer[2..2 + bytes], offset))
           == Pgm.OutEvent(encoder.step, encoder.rank, old(View()), outBuffer.Length - 2)
    {
      EncodeKeeps(encoder.step, encoder.rank, encoder.View(), outBuffer.Length - 2, true);
      var start := encoder.EncodeInto(outBuffer, 2, outBuffer.Length - 2);
      bytes, offset := PackAll(start);
    }

    /** put_uint16. */
    method PutOffset(offset: nat)
      requires outBuffer.Length > 2
      modifies outBuffer
      ensures outBuffer[..2] == [offset / 256 % 256, offset % 256] && outBuffer[2..] == old(outBuffer[2..])
    {
      outBuffer[0] := offset / 256 % 256;
      outBuffer[1] := offset % 256;
    }

    /** The first half of out_event: makes a packet, unless there is nothing to send. */
    method MakePacket()
      requires Valid() && writeSize == 0
      modifies this, encoder, outBuffer
      ensures Valid() && wire == old(wire)
      ensures View() == Pgm.OutEvent(encoder.step, encoder.rank, old(View()), outBuffer.Length - 2)
    {
      var bytes, offset := FillPacket();
      if bytes > 0 {
        packets := packets + [Packet(offset, outBuffer[2..2 + bytes])];
        writeSize := 2 + bytes;
        PutOffset(offset);
        assert outBuffer[..writeSize] == outBuffer[..2] + outBuffer[2..][..bytes];
      }
    }

    /** out_event: makes a packet if none is waiting, and tries to send it; the network takes all of it or
        nothing. */
    method OutEvent(accepted: bool)
      requires Valid()
      modifies this, encoder, outBuffer
      ensures Valid()
      ensures View() == if old(writeSize) > 0 then old(View())
                        else Pgm.OutEvent(encoder.step, encoder.rank, old(View()), outBuffer.Length - 2)
      ensures wire == old(wire) || (accepted && packets != [] && wire == old(wire) + [Raw(packets[|packets| - 1])])
      ensures accepted ==> writeSize == 0
      ensures accepted && old(writeSize) > 0 ==> wire != old(wire)
    {
      if writeSize == 0 {
        MakePacket();
      }
      if accepted && writeSize > 0 {
        wire := wire + [outBuffer[..writeSize]];
        writeSize := 0;
      }
    }
  }
}
