/**
 * The metadata methods of mechanism_t on buffers, proved against module Metadata.
 */
module MetadataObjects {
  import opened Wrappers
  import opened Bytes
  import opened Metadata

  class Mechanism {
    const socketType: SocketType
    const routingId: seq<Byte>
    const recvRoutingId: bool
    const hook: (seq<Byte>, seq<Byte>) -> bool
    var zmtpProperties: map<seq<Byte>, seq<Byte>>
    var zapProperties: map<seq<Byte>, seq<Byte>>
    var peerRoutingId: Option<seq<Byte>>

    constructor (socketType: SocketType, routingId: seq<Byte>, recvRoutingId: bool,
                 hook: (seq<Byte>, seq<Byte>) -> bool)
      ensures Options() == Checks(recvRoutingId, socketType, hook) && this.routingId == routingId
      ensures View(false) == View(true) == Collected(map[], None)
    {
      this.socketType, this.routingId, this.recvRoutingId, this.hook := socketType, routingId, recvRoutingId, hook;
      zmtpProperties, zapProperties, peerRoutingId := map[], map[], None;
    }

    function Options(): Checks {
      Checks(recvRoutingId, socketType, hook)
    }

    function View(zapFlag: bool): Collected
      reads this
    {
      Collected(if zapFlag then zapProperties else zmtpProperties, peerRoutingId)
    }

    /** memcpy. */
    static method Copy(bytes: seq<Byte>, buf: array<Byte>, at: nat)
      requires at + |bytes| <= buf.Length
      modifies buf
      ensures buf[..at] == old(buf[..at]) && buf[at..at + |bytes|] == bytes
      ensures buf[at + |bytes|..] == old(buf[at + |bytes|..])
    {
      forall j | at <= j < at + |bytes| {
        buf[j] := bytes[j - at];
      }
    }

    /** add_property; returns the number of bytes written. */
    static method AddProperty(buf: array<Byte>, at: nat, capacity: nat, p: Property) returns (total: nat)
      requires Printable(p) && |p.value| <= 0x7FFF_FFFF
      requires |Print(p)| <= capacity && at + capacity <= buf.Length
      modifies buf
      ensures total == |Print(p)| && buf[..at] == old(buf[..at]) && buf[at..at + total] == Print(p)
      ensures buf[at + total..] == old(buf[at + total..])
    {
      var n := |p.name|;
      total := 1 + n + 4 + |p.value|;
      ghost var front, back := buf[..at], buf[at + total..];
      Copy([n] + p.name + PutUint32(|p.value|) + p.value, buf, at);
      assert buf[..at] == front;
    }

    /** add_basic_properties. */
    method AddBasicProperties(buf: array<Byte>, at: nat, capacity: nat) returns (total: nat)
      requires |routingId| <= 0x7FFF_FFFF
      requires BasicPropertiesLen(socketType, |routingId|) <= capacity && at + capacity <= buf.Length
      modifies buf
      ensures total == BasicPropertiesLen(socketType, |routingId|)
      ensures AllPrintable(BasicProperties(socketType, routingId))
      ensures buf[..at] == old(buf[..at]) && buf[at..at + total] == PrintAll(BasicProperties(socketType, routingId))
    {
      BasicSizes(socketType, routingId);
      BasicLength(socketType, routingId);
      total := AddProperty(buf, at, capacity, TypeProperty(socketType));
      if SendsIdentity(socketType) {
        PrintTwo(TypeProperty(socketType), IdentityProperty(routingId));
        total := AddNext(buf, at, total, capacity, IdentityProperty(routingId));
      } else {
        PrintOne(TypeProperty(socketType));
      }
    }

    /** A property behind those that have been written. */
    method AddNext(buf: array<Byte>, at: nat, done: nat, capacity: nat, p: Property) returns (total: nat)
      requires Printable(p) && |p.value| <= 0x7FFF_FFFF
      requires done + |Print(p)| <= capacity && at + capacity <= buf.Length
      modifies buf
      ensures total == done + |Print(p)| && buf[..at] == old(buf[..at])
      ensures buf[at..at + total] == old(buf[at..at + done]) + Print(p)
    {
      ghost var before := buf[..at + done];
      assert before[..at] == buf[..at] && before[at..] == buf[at..at + done];
      var more := AddProperty(buf, at + done, capacity - done, p);
      assert buf[..at] == before[..at] && buf[at..at + done] == before[at..];
      Adjacent(buf[..], at, done, more);
      total := done + more;
    }

    static lemma Adjacent(s: seq<Byte>, at: nat, m: nat, n: nat)
      requires at + m + n <= |s|
      ensures s[at..at + m + n] == s[at..at + m] + s[at + m..at + m + n]
    {
    }

    /** What parse_metadata does with one property it has read. */
    method Take(p: Property, zapFlag: bool) returns (ok: bool)
      modifies this
      ensures ok == Accepts(Options(), p)
      ensures View(zapFlag) == if ok then Collect(Options(), old(View(zapFlag)), p) else old(View(zapFlag))
    {
      if p.name == Text("Identity") && recvRoutingId {
        peerRoutingId := Some(p.value);
      } else if p.name == Text("Socket-Type") {
        if !CheckSocketType(socketType, p.value) {
          return false;
        }
      } else if !hook(p.name, p.value) {
        return false;
      }
      if zapFlag {
        if p.name !in zapProperties {
          zapProperties := zapProperties[p.name := p.value];
        }
      } else if p.name !in zmtpProperties {
        zmtpProperties := zmtpProperties[p.name := p.value];
      }
      return true;
    }

    /** The part of the loop of parse_metadata that reads one property, or finds the data cut short: then
        what counts is whether any bytes are left. */
    static method ReadProperty(data: seq<Byte>) returns (h: Head)
      requires |data| > 1
      ensures h == First(data)
    {
      var ptr: nat, bytesLeft: nat := 0, |data|;
      var nameLength: int := data[ptr];
      ptr, bytesLeft := ptr + 1, bytesLeft - 1;
      if bytesLeft < nameLength {
        return if bytesLeft > 0 then CutShort else CutClean;
      }
      var name := data[ptr..ptr + nameLength];
      ptr, bytesLeft := ptr + nameLength, bytesLeft - nameLength;
      if bytesLeft < 4 {
        return if bytesLeft > 0 then CutShort else CutClean;
      }
      var valueLength := GetUint32(data[ptr..ptr + 4]);
      ptr, bytesLeft := ptr + 4, bytesLeft - 4;
      if bytesLeft < valueLength {
        return if bytesLeft > 0 then CutShort else CutClean;
      }
      var value := data[ptr..ptr + valueLength];
      ptr, bytesLeft := ptr + valueLength, bytesLeft - valueLength;
      return Whole(Property(name, value), ptr);
    }

    /** parse_metadata: 0, or -1. */
    method ParseMetadata(data: seq<Byte>, zapFlag: bool) returns (rc: int)
      modifies this
      ensures rc == if Parse(Options(), data, old(View(zapFlag))).Ok? then 0 else -1
      ensures View(zapFlag) == Parse(Options(), data, old(View(zapFlag))).c
    {
      var left := data;
      ghost var goal := Parse(Options(), data, View(zapFlag));
      while |left| > 1
        invariant goal == Parse(Options(), left, View(zapFlag))
        decreases |left|
      {
        var h := ReadProperty(left);
        match h {
          case CutClean => return 0;
          case CutShort => return -1;
          case Whole(p, size) =>
            var ok := Take(p, zapFlag);
            if !ok {
              return -1;
            }
            left := left[size..];
        }
      }
      return if left == [] then 0 else -1;
    }
  }
}
