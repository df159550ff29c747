/**
 * The ZMTP metadata printer and parser (mechanism.cpp; ZeroMQ RFC 23/ZMTP, rules `metadata` and
 * `property` of the formal grammar): one byte of name length, the name, four bytes of value length in
 * network order, the value.
 */
module Metadata {
  import opened Sequences
  import opened Wrappers
  import opened Bytes

  datatype Property = Property(name: seq<Byte>, value: seq<Byte>)

  // ------------------------------------------------------------------ socket types

  datatype SocketType = Pair | Pub | Sub | Req | Rep | Dealer | Router | Pull | Push | XPub | XSub | Stream

  /** socket_type_string. */
  function Name(t: SocketType): string {
    match t
    case Pair => "PAIR"
    case Pub => "PUB"
    case Sub => "SUB"
    case Req => "REQ"
    case Rep => "REP"
    case Dealer => "DEALER"
    case Router => "ROUTER"
    case Pull => "PULL"
    case Push => "PUSH"
    case XPub => "XPUB"
    case XSub => "XSUB"
    case Stream => "STREAM"
  }

  function Text(s: string): (r: seq<Byte>)
    ensures |r| == |s| && forall i | 0 <= i < |s| :: r[i] == s[i] as int % 256
  {
    seq(|s|, i requires 0 <= i < |s| => s[i] as int % 256)
  }

  /** The types a socket of type t talks to. */
  function Partners(t: SocketType): seq<SocketType> {
    match t
    case Req => [Rep, Router]
    case Rep => [Req, Dealer]
    case Dealer => [Rep, Dealer, Router]
    case Router => [Req, Dealer, Router]
    case Push => [Pull]
    case Pull => [Push]
    case Pub => [Sub, XSub]
    case Sub => [Pub, XPub]
    case XPub => [Sub, XSub]
    case XSub => [Pub, XPub]
    case Pair => [Pair]
    case Stream => []
  }

  /** check_socket_type. */
  predicate CheckSocketType(t: SocketType, value: seq<Byte>) {
    exists i | 0 <= i < |Partners(t)| :: value == Text(Name(Partners(t)[i]))
  }

  lemma TextInjective(s: string, t: string)
    requires forall i | 0 <= i < |s| :: s[i] as int < 256
    requires forall i | 0 <= i < |t| :: t[i] as int < 256
    requires Text(s) == Text(t)
    ensures s == t
  {
    assert forall i | 0 <= i < |s| :: s[i] as int == Text(s)[i] == Text(t)[i] == t[i] as int;
  }

  /** Four characteristics that tell the names apart: length and the first three characters. */
  datatype Traits = Traits(length: nat, first: char, second: char, third: char)

  function TraitsOf(t: SocketType): Traits {
    match t
    case Pair => Traits(4, 'P', 'A', 'I')
    case Pub => Traits(3, 'P', 'U', 'B')
    case Sub => Traits(3, 'S', 'U', 'B')
    case Req => Traits(3, 'R', 'E', 'Q')
    case Rep => Traits(3, 'R', 'E', 'P')
    case Dealer => Traits(6, 'D', 'E', 'A')
    case Router => Traits(6, 'R', 'O', 'U')
    case Pull => Traits(4, 'P', 'U', 'L')
    case Push => Traits(4, 'P', 'U', 'S')
    case XPub => Traits(4, 'X', 'P', 'U')
    case XSub => Traits(4, 'X', 'S', 'U')
    case Stream => Traits(6, 'S', 'T', 'R')
  }

  lemma TraitsAre(t: SocketType)
    ensures |Name(t)| >= 3 && TraitsOf(t) == Traits(|Name(t)|, Name(t)[0], Name(t)[1], Name(t)[2])
    ensures forall i | 0 <= i < |Name(t)| :: Name(t)[i] as int < 256
  {
  }

  lemma SameTraits(a: SocketType, b: SocketType)
    requires TraitsOf(a) == TraitsOf(b)
    ensures a == b
  {
  }

  lemma NamesDiffer(a: SocketType, b: SocketType)
    requires Text(Name(a)) == Text(Name(b))
    ensures a == b
  {
    TraitsAre(a);
    TraitsAre(b);
    TextInjective(Name(a), Name(b));
    SameTraits(a, b);
  }

  lemma ChecksPartners(a: SocketType, b: SocketType)
    ensures CheckSocketType(a, Text(Name(b))) <==> b in Partners(a)
  {
    forall i | 0 <= i < |Partners(a)| && Text(Name(b)) == Text(Name(Partners(a)[i]))
      ensures b == Partners(a)[i]
    {
      NamesDiffer(b, Partners(a)[i]);
    }
  }

  lemma Mutual(a: SocketType, b: SocketType)
    ensures b in Partners(a) <==> a in Partners(b)
  {
  }

  /** The pairs of socket types that may talk, each pair once, as the compatible peers in zmq_socket.txt. */
  const COMBINATIONS: set<(SocketType, SocketType)> := {
    (Req, Rep), (Req, Router), (Dealer, Rep), (Dealer, Dealer), (Dealer, Router), (Router, Router),
    (Pub, Sub), (Pub, XSub), (XPub, Sub), (XPub, XSub), (Push, Pull), (Pair, Pair)
  }

  predicate Combine(a: SocketType, b: SocketType) {
    (a, b) in COMBINATIONS || (b, a) in COMBINATIONS
  }

  lemma PartnersExactly(a: SocketType, b: SocketType)
    ensures b in Partners(a) <==> Combine(a, b)
  {
  }

  /** What one side announces is acceptable to the other exactly if the two types are one of the combinations, and
      then the other way round as well. */
  lemma PartnersAreMutual(a: SocketType, b: SocketType)
    ensures CheckSocketType(a, Text(Name(b))) <==> b in Partners(a)
    ensures CheckSocketType(a, Text(Name(b))) <==> Combine(a, b)
    ensures CheckSocketType(a, Text(Name(b))) <==> CheckSocketType(b, Text(Name(a)))
  {
    ChecksPartners(a, b);
    ChecksPartners(b, a);
    Mutual(a, b);
    PartnersExactly(a, b);
  }

  // ------------------------------------------------------------------ the parser

  /** What parsing has collected: the first value of each name, and the peer's routing id. */
  datatype Collected = Collected(properties: map<seq<Byte>, seq<Byte>>, routingId: Option<seq<Byte>>)

  /** The options of this side and the hook of the mechanism. */
  datatype Checks = Checks(recvRoutingId: bool, socketType: SocketType, hook: (seq<Byte>, seq<Byte>) -> bool)

  /** Ok is 0, the others are -1 with EPROTO and EINVAL; what was collected before stays. */
  datatype Outcome = Ok(c: Collected) | Malformed(c: Collected) | Refused(c: Collected)

  predicate Accepts(k: Checks, p: Property) {
    if p.name == Text("Identity") && k.recvRoutingId then true
    else if p.name == Text("Socket-Type") then CheckSocketType(k.socketType, p.value)
    else k.hook(p.name, p.value)
  }

  function Collect(k: Checks, c: Collected, p: Property): Collected {
    Collected(if p.name in c.properties then c.properties else c.properties[p.name := p.value],
              if p.name == Text("Identity") && k.recvRoutingId then Some(p.value) else c.routingId)
  }

  /** A property at the beginning of the data, or how the data are cut short. */
  datatype Head = Whole(p: Property, size: nat) | CutClean | CutShort

  function First(data: seq<Byte>): (h: Head)
    requires |data| > 1
    ensures h.Whole? ==> 0 < h.size <= |data|
  {
    var n: int := data[0];
    var left := |data| - 1 - n;
    if left < 4 then if left == 0 then CutClean else CutShort
    else
      var v := GetUint32(data[1 + n..5 + n]);
      if left - 4 < v then if left == 4 then CutClean else CutShort
      else Whole(Property(data[1..1 + n], data[5 + n..5 + n + v]), 5 + n + v)
  }

  /** parse_metadata. */
  function Parse(k: Checks, data: seq<Byte>, c: Collected): Outcome
    decreases |data|
  {
    if |data| <= 1 then if data == [] then Ok(c) else Malformed(c)
    else
      match First(data)
      case CutClean => Ok(c)
      case CutShort => Malformed(c)
      case Whole(p, size) =>
        if !Accepts(k, p) then Refused(c) else Parse(k, data[size..], Collect(k, c, p))
  }

  // ------------------------------------------------------------------ the printer

  predicate Printable(p: Property) {
    |p.name| <= 255 && |p.value| < 0x1_0000_0000
  }

  /** add_property; the source also asserts that values are shorter than 2^31 bytes. */
  function Print(p: Property): (r: seq<Byte>)
    requires Printable(p)
    ensures |r| == 1 + |p.name| + 4 + |p.value|
  {
    [|p.name|] + p.name + PutUint32(|p.value|) + p.value
  }

  predicate AllPrintable(ps: seq<Property>) {
    forall i | 0 <= i < |ps| :: Printable(ps[i])
  }

  function PrintAll(ps: seq<Property>): seq<Byte>
    requires AllPrintable(ps)
  {
    if ps == [] then [] else Print(ps[0]) + PrintAll(ps[1..])
  }

  function CollectAll(k: Checks, c: Collected, ps: seq<Property>): Collected
    decreases |ps|
  {
    if ps == [] then c else CollectAll(k, Collect(k, c, ps[0]), ps[1..])
  }

  predicate AllAccepted(k: Checks, ps: seq<Property>) {
    forall i | 0 <= i < |ps| :: Accepts(k, ps[i])
  }

  /** Printing a property in front of anything and reading the first property undo each other. */
  lemma FirstOfPrinted(p: Property, rest: seq<Byte>)
    requires Printable(p)
    ensures First(Print(p) + rest) == Whole(p, |Print(p)|)
    ensures (Print(p) + rest)[|Print(p)|..] == rest
  {
    var data, n := Print(p) + rest, |p.name|;
    assert data[0] == n;
    assert data[1..1 + n] == p.name;
    assert data[1 + n..5 + n] == PutUint32(|p.value|);
    Uint32RoundTrip(|p.value|);
    assert data[5 + n..5 + n + |p.value|] == p.value;
  }

  lemma PrintedIsFirst(data: seq<Byte>)
    requires |data| > 1 && First(data).Whole?
    ensures Printable(First(data).p) && data == Print(First(data).p) + data[First(data).size..]
  {
    var n: int := data[0];
    var h := First(data);
    var v := GetUint32(data[1 + n..5 + n]);
    Uint32OfBytes(data[1 + n..5 + n]);
    assert data == [data[0]] + data[1..1 + n] + data[1 + n..5 + n] + data[5 + n..5 + n + v] + data[5 + n + v..];
  }

  /** Metadata that end in the middle of a property but are taken as complete: cut exactly behind a name that
      is not empty, or exactly behind a length field that is not zero. */
  predicate CleanCut(data: seq<Byte>) {
    || (|data| > 1 && |data| == 1 + data[0] as int)
    || (|data| > 1 && |data| == 5 + data[0] as int
        && GetUint32(data[1 + data[0] as int..5 + data[0] as int]) > 0)
  }

  lemma CutsAreExact(data: seq<Byte>)
    requires |data| > 1
    ensures First(data).CutClean? <==> CleanCut(data)
  {
  }

  lemma ParseFirst(k: Checks, p: Property, rest: seq<Byte>, c: Collected)
    requires Printable(p)
    ensures Parse(k, Print(p) + rest, c) == if Accepts(k, p) then Parse(k, rest, Collect(k, c, p)) else Refused(c)
  {
    FirstOfPrinted(p, rest);
  }

  lemma ParseTail(k: Checks, tail: seq<Byte>, c: Collected)
    requires tail == [] || CleanCut(tail)
    ensures Parse(k, tail, c) == Ok(c)
  {
    if tail != [] {
      CutsAreExact(tail);
    }
  }

  lemma PrintAllStep(ps: seq<Property>, tail: seq<Byte>)
    requires AllPrintable(ps) && ps != []
    ensures AllPrintable(ps[1..]) && PrintAll(ps) + tail == Print(ps[0]) + (PrintAll(ps[1..]) + tail)
  {
    Assoc(Print(ps[0]), PrintAll(ps[1..]), tail);
  }

  /** Parsing undoes printing: the pairs come back, the first value winning for a repeated name. */
  lemma {:induction false} ParsePrinted(k: Checks, ps: seq<Property>, tail: seq<Byte>, c: Collected)
    requires AllPrintable(ps) && AllAccepted(k, ps) && (tail == [] || CleanCut(tail))
    ensures Parse(k, PrintAll(ps) + tail, c) == Ok(CollectAll(k, c, ps))
    decreases |ps|
  {
    if ps == [] {
      assert PrintAll(ps) + tail == tail;
      ParseTail(k, tail, c);
    } else {
      PrintAllStep(ps, tail);
      ParseFirst(k, ps[0], PrintAll(ps[1..]) + tail, c);
      ParsePrinted(k, ps[1..], tail, Collect(k, c, ps[0]));
    }
  }

  /** The properties at the beginning of the data. */
  function Split(data: seq<Byte>): (r: (seq<Property>, seq<Byte>))
    decreases |data|
  {
    if |data| <= 1 || !First(data).Whole? then ([], data)
    else
      var (ps, tail) := Split(data[First(data).size..]);
      ([First(data).p] + ps, tail)
  }

  lemma {:induction false} SplitIsWhole(data: seq<Byte>)
    ensures AllPrintable(Split(data).0) && data == PrintAll(Split(data).0) + Split(data).1
    ensures |Split(data).1| > 1 ==> !First(Split(data).1).Whole?
    decreases |data|
  {
    if |data| <= 1 || !First(data).Whole? {
      assert [] + data == data;
    } else {
      var rest := data[First(data).size..];
      PrintedIsFirst(data);
      SplitIsWhole(rest);
      assert Split(data).0[1..] == Split(rest).0;
      Assoc(Print(First(data).p), PrintAll(Split(rest).0), Split(rest).1);
    }
  }

  lemma {:induction false} ParseSplit(k: Checks, data: seq<Byte>, c: Collected)
    requires AllAccepted(k, Split(data).0)
    ensures Parse(k, data, c).Ok? <==> Split(data).1 == [] || CleanCut(Split(data).1)
    decreases |data|
  {
    if |data| > 1 {
      if First(data).Whole? {
        assert AllAccepted(k, Split(data[First(data).size..]).0) by {
          assert Split(data).0[1..] == Split(data[First(data).size..]).0;
        }
        assert Accepts(k, Split(data).0[0]);
        ParseSplit(k, data[First(data).size..], Collect(k, c, First(data).p));
      } else {
        CutsAreExact(data);
      }
    }
  }

  /** The data are the given properties and nothing else, or one more that is cut cleanly. */
  predicate CompleteBut(k: Checks, data: seq<Byte>, ps: seq<Property>, tail: seq<Byte>) {
    AllPrintable(ps) && data == PrintAll(ps) + tail && AllAccepted(k, ps) && (tail == [] || CleanCut(tail))
  }

  /** With all checks passing, parsing returns 0 exactly for whole properties, optionally followed by one cut
      behind a name that is not empty or behind a length that is not zero. */
  lemma ParseExact(k: Checks, data: seq<Byte>, c: Collected)
    requires AllAccepted(k, Split(data).0)
    ensures Parse(k, data, c).Ok? <==> exists ps, tail :: CompleteBut(k, data, ps, tail)
  {
    SplitIsWhole(data);
    ParseSplit(k, data, c);
    if Parse(k, data, c).Ok? {
      assert CompleteBut(k, data, Split(data).0, Split(data).1);
    }
    forall ps, tail | CompleteBut(k, data, ps, tail)
      ensures Parse(k, data, c).Ok?
    {
      ParsePrinted(k, ps, tail, c);
    }
  }

  /** A property that is no reason to refuse: a socket type must be that of a partner, and the hook decides about all
      others, but for a routing id that this side has asked for. */
  ghost predicate Welcome(k: Checks, p: Property) {
    && (p.name == Text("Socket-Type") ==> exists t :: Combine(k.socketType, t) && p.value == Text(Name(t)))
    && (p.name != Text("Socket-Type") && !(p.name == Text("Identity") && k.recvRoutingId) ==> k.hook(p.name, p.value))
  }

  lemma AcceptsExactly(k: Checks, p: Property)
    ensures Accepts(k, p) <==> Welcome(k, p)
  {
    KeysDiffer();
    forall t
      ensures t in Partners(k.socketType) <==> Combine(k.socketType, t)
    {
      PartnersExactly(k.socketType, t);
    }
    if CheckSocketType(k.socketType, p.value) {
      var i :| 0 <= i < |Partners(k.socketType)| && p.value == Text(Name(Partners(k.socketType)[i]));
      assert Combine(k.socketType, Partners(k.socketType)[i]);
    }
  }

  /** The number of properties before the first that is refused. */
  ghost function Welcomed(k: Checks, ps: seq<Property>): (n: nat)
    ensures n <= |ps| && (forall i | 0 <= i < n :: Welcome(k, ps[i])) && (n < |ps| ==> !Welcome(k, ps[n]))
  {
    if ps == [] || !Welcome(k, ps[0]) then 0
    else
      var n := Welcomed(k, ps[1..]);
      assert forall i | 0 < i < |ps| :: ps[i] == ps[1..][i - 1];
      1 + n
  }

  /** What the outcome is when the first n of these properties have been accepted. */
  function OutcomeAfter(k: Checks, c: Collected, ps: seq<Property>, tail: seq<Byte>, n: nat): Outcome
    requires n <= |ps|
  {
    var r := CollectAll(k, c, ps[..n]);
    if n < |ps| then Refused(r) else if tail == [] || CleanCut(tail) then Ok(r) else Malformed(r)
  }

  /** What parse_metadata makes of any data whatever: it collects the properties before the first one that is refused;
      if there is none, it collects all, and what follows them decides. */
  lemma {:induction false} ParseOutcome(k: Checks, data: seq<Byte>, c: Collected)
    ensures var (ps, tail) := Split(data);
      Parse(k, data, c) == OutcomeAfter(k, c, ps, tail, Welcomed(k, ps))
    decreases |data|
  {
    if |data| > 1 {
      CutsAreExact(data);
      if First(data).Whole? {
        var p, rest := First(data).p, data[First(data).size..];
        AcceptsExactly(k, p);
        var (ps, tail) := Split(rest);
        assert ([p] + ps)[1..] == ps;
        if Welcome(k, p) {
          ParseOutcome(k, rest, Collect(k, c, p));
          CollectFront(k, c, p, ps, Welcomed(k, ps));
        }
      }
    }
  }

  lemma CollectFront(k: Checks, c: Collected, p: Property, ps: seq<Property>, n: nat)
    requires n <= |ps|
    ensures CollectAll(k, c, ([p] + ps)[..n + 1]) == CollectAll(k, Collect(k, c, p), ps[..n])
  {
    assert ([p] + ps)[..n + 1][1..] == ps[..n];
  }

  /** A name of one byte without its value is taken for a complete announcement, and so is one with a length and no
      value; cut in the middle of the length it is malformed. */
  lemma CutIsAccepted(k: Checks, c: Collected)
    ensures Parse(k, [1, 88], c) == Ok(c) == Parse(k, [1, 88, 0, 0, 0, 7], c)
    ensures Parse(k, [1, 88, 0], c) == Malformed(c)
  {
    CutsAreExact([1, 88]);
    assert [1, 88, 0, 0, 0, 7][2..6] == [0, 0, 0, 7];
    CutsAreExact([1, 88, 0, 0, 0, 7]);
  }

  /** The first value of a name, if it has one. */
  function FirstValue(ps: seq<Property>, name: seq<Byte>): Option<seq<Byte>> {
    if ps == [] then None else if ps[0].name == name then Some(ps[0].value) else FirstValue(ps[1..], name)
  }

  lemma {:induction false} FirstValueWins(k: Checks, c: Collected, ps: seq<Property>, name: seq<Byte>)
    ensures var r := CollectAll(k, c, ps).properties;
      && (name in r <==> name in c.properties || FirstValue(ps, name).Some?)
      && (name in c.properties ==> r[name] == c.properties[name])
      && (name !in c.properties && FirstValue(ps, name).Some? ==> r[name] == FirstValue(ps, name).value)
    decreases |ps|
  {
    if ps != [] {
      FirstValueWins(k, Collect(k, c, ps[0]), ps[1..], name);
    }
  }

  // ------------------------------------------------------------------ the basic properties

  predicate SendsIdentity(t: SocketType) {
    t == Req || t == Dealer || t == Router
  }

  function TypeProperty(t: SocketType): Property {
    Property(Text("Socket-Type"), Text(Name(t)))
  }

  function IdentityProperty(routingId: seq<Byte>): Property {
    Property(Text("Identity"), routingId)
  }

  /** What add_basic_properties writes. */
  function BasicProperties(t: SocketType, routingId: seq<Byte>): seq<Property> {
    if SendsIdentity(t) then [TypeProperty(t), IdentityProperty(routingId)] else [TypeProperty(t)]
  }

  /** basic_properties_len. */
  function BasicPropertiesLen(t: SocketType, routingIdSize: nat): nat {
    1 + 11 + 4 + |Name(t)| + if SendsIdentity(t) then 1 + 8 + 4 + routingIdSize else 0
  }

  lemma PrintOne(p: Property)
    requires Printable(p)
    ensures PrintAll([p]) == Print(p)
  {
    assert [p][1..] == [];
    assert Print(p) + [] == Print(p);
  }

  lemma PrintTwo(p: Property, q: Property)
    requires Printable(p) && Printable(q)
    ensures PrintAll([p, q]) == Print(p) + Print(q)
  {
    assert [p, q][1..] == [q];
    PrintOne(q);
  }

  lemma CollectOne(k: Checks, c: Collected, p: Property)
    ensures CollectAll(k, c, [p]) == Collect(k, c, p)
  {
    assert [p][1..] == [];
  }

  lemma CollectTwo(k: Checks, c: Collected, p: Property, q: Property)
    ensures CollectAll(k, c, [p, q]) == Collect(k, Collect(k, c, p), q)
  {
    assert [p, q][1..] == [q];
    CollectOne(k, Collect(k, c, p), q);
  }

  lemma BasicSizes(t: SocketType, routingId: seq<Byte>)
    requires |routingId| < 0x1_0000_0000
    ensures Printable(TypeProperty(t)) && |Print(TypeProperty(t))| == 1 + 11 + 4 + |Name(t)|
    ensures Printable(IdentityProperty(routingId)) && |Print(IdentityProperty(routingId))| == 1 + 8 + 4 + |routingId|
  {
    assert |Name(t)| <= 6;
  }

  /** basic_properties_len is the number of bytes add_basic_properties writes. */
  lemma BasicLength(t: SocketType, routingId: seq<Byte>)
    requires |routingId| < 0x1_0000_0000
    ensures AllPrintable(BasicProperties(t, routingId))
    ensures |PrintAll(BasicProperties(t, routingId))| == BasicPropertiesLen(t, |routingId|)
  {
    BasicSizes(t, routingId);
    if SendsIdentity(t) {
      PrintTwo(TypeProperty(t), IdentityProperty(routingId));
    } else {
      PrintOne(TypeProperty(t));
    }
  }

  lemma KeysDiffer()
    ensures Text("Socket-Type") != Text("Identity")
  {
    assert |Text("Socket-Type")| == 11 && |Text("Identity")| == 8;
  }

  /** What this side collects from an announcement it accepts. */
  lemma CollectBasic(k: Checks, t: SocketType, routingId: seq<Byte>)
    ensures var r := CollectAll(k, Collected(map[], None), BasicProperties(t, routingId));
      && Text("Socket-Type") in r.properties && r.properties[Text("Socket-Type")] == Text(Name(t))
      && r.routingId == if SendsIdentity(t) && k.recvRoutingId then Some(routingId) else None
  {
    KeysDiffer();
    var c, p, q := Collected(map[], None), TypeProperty(t), IdentityProperty(routingId);
    if SendsIdentity(t) {
      CollectTwo(k, c, p, q);
    } else {
      CollectOne(k, c, p);
    }
  }

  lemma BasicAccepted(k: Checks, t: SocketType, routingId: seq<Byte>)
    requires forall n, v :: k.hook(n, v)
    ensures Accepts(k, TypeProperty(t)) <==> t in Partners(k.socketType)
    ensures Accepts(k, IdentityProperty(routingId))
  {
    KeysDiffer();
    ChecksPartners(k.socketType, t);
  }

  /** Two sockets that announce themselves accept each other exactly if they are partners, and then each knows
      the other's type, and its routing id if it asked for it and the other sends it. */
  lemma AnnouncementsAreUnderstood(k: Checks, t: SocketType, routingId: seq<Byte>)
    requires |routingId| < 0x1_0000_0000 && forall n, v :: k.hook(n, v)
    ensures AllPrintable(BasicProperties(t, routingId))
    ensures var r := Parse(k, PrintAll(BasicProperties(t, routingId)), Collected(map[], None));
      && (r.Ok? <==> t in Partners(k.socketType))
      && (r.Ok? ==> Text("Socket-Type") in r.c.properties && r.c.properties[Text("Socket-Type")] == Text(Name(t)))
      && (r.Ok? ==> r.c.routingId == if t in {Req, Dealer, Router} && k.recvRoutingId then Some(routingId) else None)
  {
    BasicLength(t, routingId);
    BasicAccepted(k, t, routingId);
    if t in Partners(k.socketType) {
      UnderstoodByPartner(k, t, routingId);
      CollectBasic(k, t, routingId);
    } else {
      PrintAllStep(BasicProperties(t, routingId), []);
      assert PrintAll(BasicProperties(t, routingId)) + [] == PrintAll(BasicProperties(t, routingId));
      ParseFirst(k, TypeProperty(t), PrintAll(BasicProperties(t, routingId)[1..]) + [], Collected(map[], None));
    }
  }

  lemma UnderstoodByPartner(k: Checks, t: SocketType, routingId: seq<Byte>)
    requires AllPrintable(BasicProperties(t, routingId))
    requires Accepts(k, TypeProperty(t)) && Accepts(k, IdentityProperty(routingId))
    ensures Parse(k, PrintAll(BasicProperties(t, routingId)), Collected(map[], None))
         == Ok(CollectAll(k, Collected(map[], None), BasicProperties(t, routingId)))
  {
    assert PrintAll(BasicProperties(t, routingId)) + [] == PrintAll(BasicProperties(t, routingId));
    ParsePrinted(k, BasicProperties(t, routingId), [], Collected(map[], None));
  }
}
