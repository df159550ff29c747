/**
 * pgm_receiver_t as a mutable object: it joins the streams of any number of peers, decodes their packets, and
 * hands the messages to a session that may refuse one, in which case it goes on later where it stopped.
 *
 * Decoders are values here; the messages of a decoder are the calls of its step function that return 1.
 */
module PgmReceiving {
  import opened Wrappers
  import opened Bytes
  import D = Decoding
  import P = Pgm

  type Tsi = nat

  /** What the PGM socket returns: a packet, the news that packets of a peer have been lost, or nothing. */
  datatype Received = Data(tsi: Tsi, packet: P.Packet) | Loss(tsi: Tsi) | Nothing

  /** How process_input ends: all done, a data error, or EAGAIN. */
  datatype Verdict = Done | Broken | Stalled

  predicate SaneData(r: Received) {
    r.Data? ==> r.packet.offset == P.NO_OFFSET || r.packet.offset <= |r.packet.payload|
  }

  function Messages<S>(step: D.StepFunction<S>, log: seq<D.Call<S>>): seq<D.Call<S>> {
    if log == [] then []
    else
      var last := log[|log| - 1];
      Messages(step, log[..|log| - 1]) + if step(last.state, last.segment).rc == 1 then [last] else []
  }

  /** A decoder that decode has just left with rc. */
  ghost predicate Ends<S>(step: D.StepFunction<S>, before: seq<D.Call<S>>, after: seq<D.Call<S>>, rc: D.Rc) {
    if rc == 1 then
      after != [] && Messages(step, after) == Messages(step, before) + [after[|after| - 1]]
    else Messages(step, after) == Messages(step, before)
  }

  lemma CallEnds<S>(step: D.StepFunction<S>, d: D.Decoder<S>)
    ensures Ends(step, d.log, D.CallStep(step, d).d.log, D.CallStep(step, d).rc)
  {
    var log := d.log + [D.Call(d.state, d.got)];
    assert log[..|log| - 1] == d.log;
  }

  lemma {:induction false} SettleEnds<S(!new)>(step: D.StepFunction<S>, rank: S -> nat, d: D.Decoder<S>)
    requires D.Progress(step, rank) && d.need == 0
    ensures Ends(step, d.log, D.Settle(step, rank, d).d.log, D.Settle(step, rank, d).rc)
    decreases d.got != [], rank(d.state)
  {
    CallEnds(step, d);
    var e := D.CallStep(step, d);
    if e.rc == 0 && e.d.need == 0 {
      SettleEnds(step, rank, e.d);
    }
  }

  /** decode adds one message to those a decoder has made, exactly if it returns 1. */
  lemma {:induction false} DecodeEnds<S(!new)>(step: D.StepFunction<S>, rank: S -> nat, d: D.Decoder<S>,
                                               data: seq<Byte>)
    requires D.Progress(step, rank) && D.AtRest(d)
    ensures Ends(step, d.log, D.Decode(step, rank, d, data).d.log, D.Decode(step, rank, d, data).rc)
    decreases |data|, d.need == 0
  {
    if data != [] {
      if d.need > |data| {
        D.TooShort(step, rank, d, data);
      } else {
        D.LongPiece(step, rank, d, data);
        var e := D.Take(d, data[..d.need]);
        SettleEnds(step, rank, e);
        var s := D.Settle(step, rank, e);
        if s.rc == 0 {
          DecodeEnds(step, rank, s.d, data[d.need..]);
        }
      }
    }
  }

  // ------------------------------------------------------------------ what each peer's decoder is given

  /** The bytes from the first message on, for each peer whose stream has been joined. */
  type Given = map<Tsi, seq<Byte>>

  /** A peer is dropped when packets are lost or its data cannot be decoded, and joins again later. */
  function Give<S(!new)>(step: D.StepFunction<S>, ghost rank: S -> nat, start: D.Decoder<S>, given: Given,
                         r: Received): Given
    requires D.Progress(step, rank) && D.AtRest(start) && SaneData(r)
  {
    match r
    case Nothing => given
    case Loss(tsi) => given - {tsi}
    case Data(tsi, packet) => Sound(step, rank, start, Joining(given, tsi, packet), tsi)
  }

  function Joining(given: Given, tsi: Tsi, packet: P.Packet): Given
    requires SaneData(Data(tsi, packet))
  {
    if tsi in given then given[tsi := given[tsi] + packet.payload]
    else if packet.offset == P.NO_OFFSET then given
    else given[tsi := packet.payload[packet.offset..]]
  }

  /** Without the peer, if what it has been given cannot be decoded. */
  function Sound<S(!new)>(step: D.StepFunction<S>, ghost rank: S -> nat, start: D.Decoder<S>, given: Given,
                          tsi: Tsi): Given
    requires D.Progress(step, rank) && D.AtRest(start)
  {
    if tsi in given && !D.Feed(step, rank, start, given[tsi]).ok then given - {tsi} else given
  }

  function GiveAll<S(!new)>(step: D.StepFunction<S>, ghost rank: S -> nat, start: D.Decoder<S>, given: Given,
                            rs: seq<Received>): Given
    requires D.Progress(step, rank) && D.AtRest(start) && forall i | 0 <= i < |rs| :: SaneData(rs[i])
    decreases |rs|
  {
    if rs == [] then given
    else Give(step, rank, start, GiveAll(step, rank, start, given, rs[..|rs| - 1]), rs[|rs| - 1])
  }

  /** What an arrival means for peer t: lost packets end its stream, and nobody else's; a packet goes on with the
      stream of its peer, or begins it at the offset it carries; and bad data end it. */
  lemma GiveExactly<S(!new)>(step: D.StepFunction<S>, rank: S -> nat, start: D.Decoder<S>, given: Given, r: Received,
                             t: Tsi)
    requires D.Progress(step, rank) && D.AtRest(start) && SaneData(r)
    ensures var after := Give(step, rank, start, given, r);
      if r == Loss(t) then t !in after
      else if r.Data? && r.tsi == t then
        var begins := t !in given && r.packet.offset != P.NO_OFFSET;
        var bytes := if t in given then given[t] + r.packet.payload
                     else if begins then r.packet.payload[r.packet.offset..] else [];
        && (t in after <==> (t in given || begins) && D.Feed(step, rank, start, bytes).ok)
        && (t in after ==> after[t] == bytes)
      else (t in after <==> t in given) && (t in after ==> after[t] == given[t])
  {
  }

  function AllOf(tsi: Tsi, packets: seq<P.Packet>): (r: seq<Received>)
    requires P.Sane(packets)
    ensures |r| == |packets| && forall i | 0 <= i < |r| :: r[i] == Data(tsi, packets[i]) && SaneData(r[i])
  {
    seq(|packets|, i requires 0 <= i < |packets| => Data(tsi, packets[i]))
  }

  lemma PrefixIsSound<S(!new)>(step: D.StepFunction<S>, rank: S -> nat, start: D.Decoder<S>, a: seq<Byte>, b: seq<Byte>)
    requires D.Progress(step, rank) && D.AtRest(start) && D.Feed(step, rank, start, a + b).ok
    ensures D.Feed(step, rank, start, a).ok
  {
    D.FeedSplit(step, rank, start, a, b);
  }

  /** What a single peer has been given. */
  function OnlyOf(tsi: Tsi, r: P.Receiver): Given {
    if r.joined then map[tsi := r.fed] else map[]
  }

  lemma JoiningOnly(tsi: Tsi, r: P.Receiver, packet: P.Packet)
    requires SaneData(Data(tsi, packet))
    ensures Joining(OnlyOf(tsi, r), tsi, packet) == OnlyOf(tsi, P.Receive(r, packet))
  {
    if r.joined {
      assert map[tsi := r.fed][tsi := r.fed + packet.payload] == map[tsi := r.fed + packet.payload];
    }
  }

  lemma OneMorePacket<S(!new)>(step: D.StepFunction<S>, rank: S -> nat, start: D.Decoder<S>, tsi: Tsi, r: P.Receiver,
                               packet: P.Packet, fed: seq<Byte>)
    requires D.Progress(step, rank) && D.AtRest(start) && SaneData(Data(tsi, packet))
    requires fed == P.Receive(r, packet).fed && D.Feed(step, rank, start, fed).ok
    ensures Give(step, rank, start, OnlyOf(tsi, r), Data(tsi, packet)) == OnlyOf(tsi, P.Receive(r, packet))
  {
    JoiningOnly(tsi, r, packet);
    var given := Joining(OnlyOf(tsi, r), tsi, packet);
    OnlyItsBytes(tsi, P.Receive(r, packet));
    SoundStays(step, rank, start, given, tsi, fed);
  }

  lemma OnlyItsBytes(tsi: Tsi, r: P.Receiver)
    ensures tsi in OnlyOf(tsi, r) ==> OnlyOf(tsi, r)[tsi] == r.fed
  {
  }

  lemma SoundStays<S(!new)>(step: D.StepFunction<S>, rank: S -> nat, start: D.Decoder<S>, given: Given, tsi: Tsi,
                            fed: seq<Byte>)
    requires D.Progress(step, rank) && D.AtRest(start)
    requires (tsi in given ==> given[tsi] == fed) && D.Feed(step, rank, start, fed).ok
    ensures Sound(step, rank, start, given, tsi) == given
  {
  }

  lemma SoundBefore<S(!new)>(step: D.StepFunction<S>, rank: S -> nat, start: D.Decoder<S>, r: P.Receiver,
                             packet: P.Packet)
    requires D.Progress(step, rank) && D.AtRest(start) && SaneData(Data(0, packet)) && (!r.joined ==> r.fed == [])
    requires D.Feed(step, rank, start, P.Receive(r, packet).fed).ok
    ensures D.Feed(step, rank, start, r.fed).ok
  {
    if r.joined {
      PrefixIsSound(step, rank, start, r.fed, packet.payload);
    }
  }

  /** For a single peer without losses or bad data, this is what Pgm.ReceiveAll says a receiver is given, and so a
      suffix of the stream that the sender has sent. */
  lemma {:induction false} OnePeer<S(!new)>(step: D.StepFunction<S>, rank: S -> nat, start: D.Decoder<S>, tsi: Tsi,
                                            packets: seq<P.Packet>)
    requires D.Progress(step, rank) && D.AtRest(start) && P.Sane(packets)
    requires D.Feed(step, rank, start, P.ReceiveAll(packets, 0, |packets|).fed).ok
    ensures GiveAll(step, rank, start, map[], AllOf(tsi, packets)) == OnlyOf(tsi, P.ReceiveAll(packets, 0, |packets|))
    decreases |packets|
  {
    if packets != [] {
      var n := |packets| - 1;
      var front, r := packets[..n], P.ReceiveAll(packets, 0, n);
      ReceivePrefix(packets, front, n);
      if !r.joined {
        P.NotJoinedNotFed(packets, 0, n);
      }
      SoundBefore(step, rank, start, r, packets[n]);
      OnePeer(step, rank, start, tsi, front);
      assert AllOf(tsi, packets)[..n] == AllOf(tsi, front);
      OneMorePacket(step, rank, start, tsi, r, packets[n], P.Receive(r, packets[n]).fed);
    }
  }

  lemma {:induction false} ReceivePrefix(packets: seq<P.Packet>, front: seq<P.Packet>, n: nat)
    requires P.Sane(packets) && P.Sane(front) && n <= |front| <= |packets| && front == packets[..|front|]
    ensures P.ReceiveAll(front, 0, n) == P.ReceiveAll(packets, 0, n)
  {
    if n > 0 {
      ReceivePrefix(packets, front, n - 1);
    }
  }

  /** The messages in the session's queue, and of which peer. */
  datatype Pushed<S> = Pushed(tsi: Tsi, message: D.Call<S>)

  function From<S>(session: seq<Pushed<S>>, tsi: Tsi): seq<D.Call<S>> {
    if session == [] then []
    else
      var last := session[|session| - 1];
      From(session[..|session| - 1], tsi) + if last.tsi == tsi then [last.message] else []
  }

  lemma FromMore<S>(session: seq<Pushed<S>>, x: Pushed<S>, mark: nat, tsi: Tsi)
    requires mark <= |session|
    ensures From((session + [x])[mark..], tsi) == From(session[mark..], tsi) + if x.tsi == tsi then [x.message] else []
  {
    assert (session + [x])[mark..] == session[mark..] + [x];
    assert (session[mark..] + [x])[..|session[mark..]|] == session[mark..];
  }

  /** Messages of other peers do not matter. */
  lemma {:induction false} FromOthers<S>(before: seq<Pushed<S>>, after: seq<Pushed<S>>, mark: nat, tsi: Tsi)
    requires mark <= |before| <= |after| && after[..|before|] == before
    requires forall i | |before| <= i < |after| :: after[i].tsi != tsi
    ensures From(after[mark..], tsi) == From(before[mark..], tsi)
    decreases |after|
  {
    if |after| == |before| {
      assert after == before;
    } else {
      var front := after[..|after| - 1];
      assert front[..|before|] == before && front + [after[|after| - 1]] == after;
      FromOthers(before, front, mark, tsi);
      FromMore(front, after[|after| - 1], mark, tsi);
    }
  }

  /** A peer whose stream has been joined: the bytes it has been given, its decoder, what is still to be decoded,
      the messages the session has got of it, whether it has refused one more, and where in the session's queue
      its messages begin. */
  datatype Stream<S> = Stream(
    bytes: seq<Byte>,
    d: D.Decoder<S>,
    rest: seq<Byte>,
    sent: seq<D.Call<S>>,
    pending: bool,
    mark: nat)

  /** What is left leads to where the whole would lead, and no message is lost or doubled. */
  ghost predicate Fine<S(!new)>(step: D.StepFunction<S>, rank: S -> nat, start: D.Decoder<S>, s: Stream<S>)
    requires D.Progress(step, rank) && D.AtRest(start)
  {
    && D.AtRest(s.d) && D.Feed(step, rank, start, s.bytes) == D.Feed(step, rank, s.d, s.rest)
    && (!s.pending ==> Messages(step, s.d.log) == s.sent)
    && (s.pending ==> s.d.log != [] && Messages(step, s.d.log) == s.sent + [s.d.log[|s.d.log| - 1]])
  }

  /** The stream after one call of decode, which has not failed. */
  function Decoded<S>(s: Stream<S>, e: D.Decoded<S>): Stream<S>
    requires e.used <= |s.rest|
  {
    s.(d := e.d, rest := s.rest[e.used..], pending := e.rc == 1)
  }

  lemma DecodeKeepsFine<S(!new)>(step: D.StepFunction<S>, rank: S -> nat, start: D.Decoder<S>, s: Stream<S>,
                                 e: D.Decoded<S>)
    requires D.Progress(step, rank) && D.AtRest(start) && Fine(step, rank, start, s) && !s.pending
    requires e == D.Decode(step, rank, s.d, s.rest)
    ensures e.rc == -1 ==> !D.Feed(step, rank, start, s.bytes).ok
    ensures e.rc != -1 ==> Fine(step, rank, start, Decoded(s, e))
  {
    D.FeedOnward(step, rank, s.d, s.rest, e);
    DecodeEnds(step, rank, s.d, s.rest);
  }

  function PushedOn<S>(s: Stream<S>): Stream<S>
    requires s.d.log != []
  {
    s.(sent := s.sent + [s.d.log[|s.d.log| - 1]], pending := false)
  }

  lemma PushKeepsFine<S(!new)>(step: D.StepFunction<S>, rank: S -> nat, start: D.Decoder<S>, s: Stream<S>)
    requires D.Progress(step, rank) && D.AtRest(start) && Fine(step, rank, start, s) && s.pending
    ensures s.d.log != [] && Fine(step, rank, start, PushedOn(s))
  {
  }

  function More<S>(s: Stream<S>, payload: seq<Byte>): Stream<S> {
    s.(bytes := s.bytes + payload, rest := payload)
  }

  lemma MoreKeepsFine<S(!new)>(step: D.StepFunction<S>, rank: S -> nat, start: D.Decoder<S>, s: Stream<S>,
                               payload: seq<Byte>)
    requires D.Progress(step, rank) && D.AtRest(start) && Fine(step, rank, start, s) && !s.pending && s.rest == []
    ensures Fine(step, rank, start, More(s, payload))
  {
    D.FeedNext(step, rank, start, s.bytes, s.d, payload);
  }

  function Joined<S>(start: D.Decoder<S>, bytes: seq<Byte>, mark: nat): Stream<S> {
    Stream(bytes, start, bytes, [], false, mark)
  }

  lemma JoinedIsFine<S(!new)>(step: D.StepFunction<S>, rank: S -> nat, start: D.Decoder<S>, bytes: seq<Byte>, mark: nat)
    requires D.Progress(step, rank) && D.AtRest(start) && start.log == []
    ensures Fine(step, rank, start, Joined(start, bytes, mark))
  {
  }

  /** A stream that has been decoded to its end is sound. */
  lemma DoneIsSound<S(!new)>(step: D.StepFunction<S>, rank: S -> nat, start: D.Decoder<S>, s: Stream<S>)
    requires D.Progress(step, rank) && D.AtRest(start) && Fine(step, rank, start, s) && !s.pending && s.rest == []
    ensures D.Feed(step, rank, start, s.bytes) == D.Fed(s.d, true)
  {
  }

  lemma KeptIsSound<S(!new)>(step: D.StepFunction<S>, rank: S -> nat, start: D.Decoder<S>, streams: map<Tsi, Stream<S>>,
                             tsi: Tsi, s: Stream<S>)
    requires D.Progress(step, rank) && D.AtRest(start) && Fine(step, rank, start, s) && (!s.pending ==> s.rest == [])
    ensures !s.pending ==>
      Sound(step, rank, start, BytesOf(streams)[tsi := s.bytes], tsi) == BytesOf(streams)[tsi := s.bytes]
  {
    if !s.pending {
      DoneIsSound(step, rank, start, s);
    }
  }

  datatype Peer<S> = Peer(joined: bool, decoder: Option<D.Decoder<S>>)

  type Streams<S> = map<Tsi, Stream<S>>

  function BytesOf<S>(streams: Streams<S>): Given {
    map t | t in streams :: streams[t].bytes
  }

  lemma BytesSet<S>(streams: Streams<S>, tsi: Tsi, s: Stream<S>)
    ensures BytesOf(streams[tsi := s]) == BytesOf(streams)[tsi := s.bytes]
    ensures BytesOf(streams - {tsi}) == BytesOf(streams) - {tsi}
    ensures BytesOf(streams)[tsi := s.bytes] - {tsi} == BytesOf(streams) - {tsi}
  {
  }

  lemma BytesGone<S>(streams: Streams<S>, tsi: Tsi)
    requires tsi !in streams
    ensures BytesOf(streams) - {tsi} == BytesOf(streams)
  {
  }

  ghost predicate AllFine<S(!new)>(step: D.StepFunction<S>, rank: S -> nat, start: D.Decoder<S>, streams: Streams<S>)
    requires D.Progress(step, rank) && D.AtRest(start)
  {
    forall t | t in streams :: Fine(step, rank, start, streams[t])
  }

  lemma FineSet<S(!new)>(step: D.StepFunction<S>, rank: S -> nat, start: D.Decoder<S>, streams: Streams<S>, tsi: Tsi,
                         s: Stream<S>)
    requires D.Progress(step, rank) && D.AtRest(start) && AllFine(step, rank, start, streams - {tsi})
    ensures Fine(step, rank, start, s) ==> AllFine(step, rank, start, streams[tsi := s])
  {
    forall t | t in streams && t != tsi
      ensures Fine(step, rank, start, streams[t])
    {
      assert (streams - {tsi})[t] == streams[t];
    }
  }

  lemma FineDrop<S(!new)>(step: D.StepFunction<S>, rank: S -> nat, start: D.Decoder<S>, streams: Streams<S>, tsi: Tsi)
    requires D.Progress(step, rank) && D.AtRest(start) && AllFine(step, rank, start, streams)
    ensures AllFine(step, rank, start, streams - {tsi})
  {
    forall t | t in streams - {tsi}
      ensures Fine(step, rank, start, (streams - {tsi})[t])
    {
      assert (streams - {tsi})[t] == streams[t];
    }
  }

  ghost predicate InSession<S>(t: Tsi, s: Stream<S>, session: seq<Pushed<S>>) {
    s.mark <= |session| && From(session[s.mark..], t) == s.sent
  }

  /** The fields of the receiver hold the streams. */
  ghost predicate Booked<S>(streams: Streams<S>, peers: map<Tsi, Peer<S>>, active: Option<Tsi>, input: seq<Byte>,
                            session: seq<Pushed<S>>) {
    && (forall t | t in streams :: Linked(t, streams[t], peers, active, input) && InSession(t, streams[t], session))
    && (forall t | t in peers && t !in streams :: peers[t] == Peer(false, None))
    && (active.Some? ==> active.value in streams)
  }

  ghost predicate Linked<S>(t: Tsi, s: Stream<S>, peers: map<Tsi, Peer<S>>, active: Option<Tsi>, input: seq<Byte>) {
    && t in peers && peers[t] == Peer(true, Some(s.d))
    && s.pending == (active == Some(t)) && s.rest == if s.pending then input else []
  }

  /** More messages of one peer only. */
  ghost predicate Longer<S>(before: seq<Pushed<S>>, after: seq<Pushed<S>>, tsi: Tsi) {
    |before| <= |after| && after[..|before|] == before && forall i | |before| <= i < |after| :: after[i].tsi == tsi
  }

  lemma LongerTwice<S>(a: seq<Pushed<S>>, b: seq<Pushed<S>>, c: seq<Pushed<S>>, tsi: Tsi)
    requires Longer(a, b, tsi) && Longer(b, c, tsi)
    ensures Longer(a, c, tsi)
  {
    assert c[..|a|] == c[..|b|][..|a|];
    forall i | |a| <= i < |c|
      ensures c[i].tsi == tsi
    {
      assert i < |b| ==> c[i] == c[..|b|][i] == b[i];
    }
  }

  lemma StillInSession<S>(streams: Streams<S>, before: seq<Pushed<S>>, after: seq<Pushed<S>>, tsi: Tsi)
    requires Longer(before, after, tsi)
    ensures forall t | t in streams && t != tsi && InSession(t, streams[t], before) :: InSession(t, streams[t], after)
  {
    forall t | t in streams && t != tsi && InSession(t, streams[t], before)
      ensures InSession(t, streams[t], after)
    {
      FromOthers(before, after, streams[t].mark, t);
    }
  }

  lemma BooksLonger<S>(streams: Streams<S>, peers: map<Tsi, Peer<S>>, input: seq<Byte>, before: seq<Pushed<S>>,
                       after: seq<Pushed<S>>, tsi: Tsi)
    requires Booked(streams, peers, None, input, before) && Longer(before, after, tsi) && tsi !in streams
    ensures Booked(streams, peers, None, input, after)
  {
    StillInSession(streams, before, after, tsi);
  }

  /** The books after one peer's packet has been handled. */
  lemma BooksSet<S>(streams: Streams<S>, peers: map<Tsi, Peer<S>>, input: seq<Byte>, before: seq<Pushed<S>>,
                    after: seq<Pushed<S>>, tsi: Tsi, r: Stream<S>, rest: seq<Byte>,
                    all: Streams<S>, known: map<Tsi, Peer<S>>, active: Option<Tsi>)
    requires Booked(streams - {tsi}, peers - {tsi}, None, input, before) && Longer(before, after, tsi)
      && InSession(tsi, r, after)
    requires r.rest == (if r.pending then rest else []) && active == if r.pending then Some(tsi) else None
    requires all == streams[tsi := r] && known == peers[tsi := Peer(true, Some(r.d))]
    ensures Booked(all, known, active, rest, after)
  {
    StillInSession(streams - {tsi}, before, after, tsi);
    forall t | t in all
      ensures Linked(t, all[t], known, active, rest) && InSession(t, all[t], after)
    {
      if t != tsi {
        assert (streams - {tsi})[t] == streams[t] && (peers - {tsi}).Keys == peers.Keys - {tsi};
      }
    }
    forall t | t in peers && t != tsi && t !in streams
      ensures peers[t] == Peer(false, None)
    {
      assert t in peers - {tsi};
    }
  }

  lemma AllSet<S(!new)>(step: D.StepFunction<S>, rank: S -> nat, start: D.Decoder<S>, streams: Streams<S>,
                        peers: map<Tsi, Peer<S>>, input: seq<Byte>, before: seq<Pushed<S>>,
                        after: seq<Pushed<S>>, tsi: Tsi, r: Stream<S>, rest: seq<Byte>,
                        all: Streams<S>, known: map<Tsi, Peer<S>>, active: Option<Tsi>)
    requires D.Progress(step, rank) && D.AtRest(start) && AllFine(step, rank, start, streams - {tsi})
      && Fine(step, rank, start, r)
    requires Booked(streams - {tsi}, peers - {tsi}, None, input, before) && Longer(before, after, tsi)
      && InSession(tsi, r, after)
    requires r.rest == (if r.pending then rest else []) && active == if r.pending then Some(tsi) else None
    requires all == streams[tsi := r] && known == peers[tsi := Peer(true, Some(r.d))]
    ensures AllFine(step, rank, start, all) && Booked(all, known, active, rest, after)
    ensures BytesOf(all) == BytesOf(streams)[tsi := r.bytes]
  {
    BytesSet(streams, tsi, r);
    BooksSet(streams, peers, input, before, after, tsi, r, rest, all, known, active);
    FineSet(step, rank, start, streams, tsi, r);
  }

  lemma BooksDrop<S>(streams: Streams<S>, peers: map<Tsi, Peer<S>>, input: seq<Byte>, before: seq<Pushed<S>>,
                     after: seq<Pushed<S>>, tsi: Tsi)
    requires Booked(streams - {tsi}, peers - {tsi}, None, input, before) && Longer(before, after, tsi)
    ensures Booked(streams - {tsi}, peers[tsi := Peer(false, None)], None, [], after)
    ensures tsi !in peers ==> Booked(streams - {tsi}, peers, None, [], after)
  {
    StillInSession(streams - {tsi}, before, after, tsi);
    forall t | t in peers && t != tsi && t !in streams
      ensures peers[t] == Peer(false, None)
    {
      assert t in peers - {tsi};
    }
  }

  lemma BooksWithout<S>(streams: Streams<S>, peers: map<Tsi, Peer<S>>, active: Option<Tsi>, input: seq<Byte>,
                        session: seq<Pushed<S>>, tsi: Tsi, other: seq<Byte>)
    requires Booked(streams, peers, active, input, session) && (active == None || active == Some(tsi))
    ensures Booked(streams - {tsi}, peers - {tsi}, None, other, session)
    ensures tsi in peers && peers[tsi].joined <==> tsi in streams
  {
    forall t | t in streams - {tsi}
      ensures Linked(t, (streams - {tsi})[t], peers - {tsi}, None, other) && InSession(t, (streams - {tsi})[t], session)
    {
      assert (streams - {tsi})[t] == streams[t];
    }
    assert tsi in streams ==> Linked(tsi, streams[tsi], peers, active, input);
  }

  /** A peer that is known but not joined makes no difference. */
  lemma BooksKnown<S>(streams: Streams<S>, peers: map<Tsi, Peer<S>>, input: seq<Byte>, session: seq<Pushed<S>>,
                      tsi: Tsi)
    requires Booked(streams, peers, None, input, session) && tsi !in peers
    ensures Booked(streams, peers[tsi := Peer(false, None)], None, input, session)
  {
    forall t | t in streams
      ensures Linked(t, streams[t], peers[tsi := Peer(false, None)], None, input)
    {
      assert Linked(t, streams[t], peers, None, input);
    }
  }

  /** Nor does the input while no message is pending. */
  lemma BooksInput<S>(streams: Streams<S>, peers: map<Tsi, Peer<S>>, input: seq<Byte>, session: seq<Pushed<S>>,
                      other: seq<Byte>)
    requires Booked(streams, peers, None, input, session)
    ensures Booked(streams, peers, None, other, session)
  {
    forall t | t in streams
      ensures Linked(t, streams[t], peers, None, other)
    {
      assert Linked(t, streams[t], peers, None, input);
    }
  }

  class PgmReceiver<S(!new)> {
    const step: D.StepFunction<S>
    ghost const rank: S -> nat
    const start: D.Decoder<S>
    var peers: map<Tsi, Peer<S>>
    var activeTsi: Option<Tsi>
    var input: seq<Byte>
    var session: seq<Pushed<S>>
    var room: nat
    ghost var streams: map<Tsi, Stream<S>>

    ghost predicate Valid()
      reads this
    {
      && D.Progress(step, rank) && D.AtRest(start) && start.log == []
      && AllFine(step, rank, start, streams) && Booked(streams, peers, activeTsi, input, session)
    }

    ghost function Bytes(): Given
      reads this
    {
      BytesOf(streams)
    }

    /** What the peers have been given, without the one whose bad data may not have been looked at yet. */
    ghost function Settled(): Given
      reads this
      requires D.Progress(step, rank) && D.AtRest(start)
    {
      if activeTsi.None? then Bytes() else Sound(step, rank, start, Bytes(), activeTsi.value)
    }

    constructor (step: D.StepFunction<S>, ghost rank: S -> nat, start: D.Decoder<S>)
      requires D.Progress(step, rank) && D.AtRest(start) && start.log == []
      ensures Valid() && this.step == step && this.rank == rank && this.start == start
      ensures Bytes() == map[] && activeTsi == None && session == []
    {
      this.step, this.rank, this.start := step, rank, start;
      peers, activeTsi, input, session, room := map[], None, [], [], 0;
      streams := map[];
    }

    /** push_msg; it is refused with EAGAIN when the session has no room. */
    method Push(tsi: Tsi, message: D.Call<S>) returns (ok: bool)
      modifies this`session, this`room
      ensures ok == (old(room) > 0)
      ensures session == if ok then old(session) + [Pushed(tsi, message)] else old(session)
    {
      ok := room > 0;
      if ok {
        session, room := session + [Pushed(tsi, message)], room - 1;
      }
    }

    /** process_input. */
    method ProcessInput(tsi: Tsi, decoder: D.Decoder<S>, ghost s: Stream<S>)
      returns (verdict: Verdict, d: D.Decoder<S>, ghost r: Stream<S>)
      requires D.Progress(step, rank) && D.AtRest(start) && Fine(step, rank, start, s) && InSession(tsi, s, session)
      requires !s.pending && s.d == decoder && s.rest == input
      modifies this`input, this`session, this`room
      ensures Longer(old(session), session, tsi) && r.bytes == s.bytes
      ensures verdict == Broken ==> !D.Feed(step, rank, start, s.bytes).ok
      ensures verdict != Broken ==> Fine(step, rank, start, r) && InSession(tsi, r, session) && r.d == d
      ensures verdict != Broken ==> r.pending == (verdict == Stalled) && r.rest == if r.pending then input else []
    {
      d, r := decoder, s;
      while input != []
        invariant Fine(step, rank, start, r) && InSession(tsi, r, session) && !r.pending && r.d == d && r.rest == input
        invariant r.bytes == s.bytes && Longer(old(session), session, tsi)
        decreases |input|, d.need == 0, rank(d.state)
      {
        var rc;
        rc, d, r := DecodeOnce(d, r);
        if rc == -1 {
          return Broken, d, r;
        }
        if rc == 0 {
          break;
        }
        var pushed;
        ghost var before := session;
        pushed, r := PushMessage(tsi, d, r);
        LongerTwice(old(session), before, session, tsi);
        if !pushed {
          return Stalled, d, r;
        }
      }
      verdict := Done;
    }

    /** The call of decode. */
    method DecodeOnce(decoder: D.Decoder<S>, ghost s: Stream<S>) returns (rc: D.Rc, d: D.Decoder<S>, ghost r: Stream<S>)
      requires D.Progress(step, rank) && D.AtRest(start) && Fine(step, rank, start, s) && input != []
      requires !s.pending && s.d == decoder && s.rest == input
      modifies this`input
      ensures rc == -1 ==> !D.Feed(step, rank, start, s.bytes).ok
      ensures rc != -1 ==> Fine(step, rank, start, r) && r.pending == (rc == 1) && r.d == d && r.rest == input
      ensures r.bytes == s.bytes && r.sent == s.sent && r.mark == s.mark && (rc == 0 ==> input == [])
      ensures |input| <= |old(input)|
      ensures rc == 1 && |input| == |old(input)| ==>
        decoder.need == 0 && (d.need > 0 || rank(d.state) < rank(decoder.state))
    {
      var e := D.Decode(step, rank, decoder, input);
      DecodeKeepsFine(step, rank, start, s, e);
      rc, d, r := e.rc, e.d, Decoded(s, e);
      input := input[e.used..];
    }

    /** push_msg of the message just decoded. */
    method PushMessage(tsi: Tsi, d: D.Decoder<S>, ghost s: Stream<S>) returns (pushed: bool, ghost r: Stream<S>)
      requires D.Progress(step, rank) && D.AtRest(start) && Fine(step, rank, start, s) && InSession(tsi, s, session)
      requires s.pending && s.d == d
      modifies this`session, this`room
      ensures pushed == (old(room) > 0) && Longer(old(session), session, tsi)
      ensures Fine(step, rank, start, r) && InSession(tsi, r, session) && r == if pushed then PushedOn(s) else s
    {
      PushKeepsFine(step, rank, start, s);
      var message := d.log[|d.log| - 1];
      FromMore(session, Pushed(tsi, message), s.mark, tsi);
      pushed := Push(tsi, message);
      r := if pushed then PushedOn(s) else s;
    }

    /** Valid, but for the peer whose packet is being handled. */
    ghost predicate ValidBut(tsi: Tsi)
      reads this
    {
      && D.Progress(step, rank) && D.AtRest(start) && start.log == [] && activeTsi == None
      && AllFine(step, rank, start, streams - {tsi}) && Booked(streams - {tsi}, peers - {tsi}, None, input, session)
    }

    /** process_input, and what its callers make of the outcome. */
    method Process(tsi: Tsi, decoder: D.Decoder<S>, ghost s: Stream<S>)
      requires ValidBut(tsi) && Fine(step, rank, start, s) && InSession(tsi, s, session)
      requires !s.pending && s.d == decoder && s.rest == input
      modifies this
      ensures Valid() && (activeTsi.Some? ==> activeTsi.value == tsi)
      ensures Settled() == Sound(step, rank, start, old(Bytes())[tsi := s.bytes], tsi)
    {
      ghost var before, given := session, input;
      var verdict, d;
      ghost var r;
      verdict, d, r := ProcessInput(tsi, decoder, s);
      if verdict == Broken {
        BytesSet(streams, tsi, s);
        DropPeer(tsi, before, given);
      } else {
        KeptIsSound(step, rank, start, streams, tsi, r);
        AllSet(step, rank, start, streams, peers, given, before, session, tsi, r, input,
               streams[tsi := r], peers[tsi := Peer(true, Some(d))], if verdict == Stalled then Some(tsi) else None);
        KeepPeer(tsi, d, verdict == Stalled, r);
      }
    }

    /** Bad data: the peer is no longer joined. */
    method DropPeer(tsi: Tsi, ghost before: seq<Pushed<S>>, ghost given: seq<Byte>)
      requires D.Progress(step, rank) && D.AtRest(start) && start.log == [] && activeTsi == None
      requires AllFine(step, rank, start, streams - {tsi})
      requires Booked(streams - {tsi}, peers - {tsi}, None, given, before) && Longer(before, session, tsi)
      modifies this`peers, this`input, this`streams
      ensures Valid() && Bytes() == old(Bytes()) - {tsi}
    {
      BytesSet(streams, tsi, Joined(start, [], 0));
      BooksDrop(streams, peers, given, before, session, tsi);
      peers := peers[tsi := Peer(false, None)];
      input := [];
      streams := streams - {tsi};
    }

    /** The peer goes on, or is the one that waits for room in the session. */
    method KeepPeer(tsi: Tsi, d: D.Decoder<S>, stalled: bool, ghost r: Stream<S>)
      requires D.Progress(step, rank) && D.AtRest(start) && start.log == []
      requires AllFine(step, rank, start, streams[tsi := r])
      requires Booked(streams[tsi := r], peers[tsi := Peer(true, Some(d))], if stalled then Some(tsi) else None, input,
        session)
      modifies this`peers, this`activeTsi, this`streams
      ensures Valid() && activeTsi == (if stalled then Some(tsi) else None) && streams == old(streams[tsi := r])
    {
      peers := peers[tsi := Peer(true, Some(d))];
      streams := streams[tsi := r];
      activeTsi := if stalled then Some(tsi) else None;
    }

    /** The part of in_event for a packet. */
    method HandleData(tsi: Tsi, packet: P.Packet)
      requires Valid() && activeTsi == None && SaneData(Data(tsi, packet))
      modifies this
      ensures Valid() && Settled() == Give(step, rank, start, old(Bytes()), Data(tsi, packet))
    {
      BooksWithout(streams, peers, activeTsi, input, session, tsi, packet.payload);
      FineDrop(step, rank, start, streams, tsi);
      if tsi !in peers || !peers[tsi].joined {
        HandleUnjoined(tsi, packet);
      } else {
        input := packet.payload;
        ghost var s := streams[tsi];
        MoreKeepsFine(step, rank, start, s, packet.payload);
        Process(tsi, peers[tsi].decoder.value, More(s, packet.payload));
      }
    }

    /** A peer that has not been heard of before. */
    method Note(tsi: Tsi)
      requires Valid() && activeTsi == None && tsi !in streams
      modifies this`peers
      ensures Valid()
    {
      if tsi !in peers {
        BooksKnown(streams, peers, input, session, tsi);
        peers := peers[tsi := Peer(false, None)];
      }
    }

    /** A packet of a peer that has not been joined. */
    method HandleUnjoined(tsi: Tsi, packet: P.Packet)
      requires Valid() && activeTsi == None && SaneData(Data(tsi, packet))
      requires tsi !in streams
      modifies this
      ensures Valid() && Settled() == Give(step, rank, start, old(Bytes()), Data(tsi, packet))
    {
      Note(tsi);
      BooksInput(streams, peers, input, session, packet.payload);
      input := packet.payload;
      if packet.offset == P.NO_OFFSET {
        return;
      }
      BooksInput(streams, peers, input, session, packet.payload[packet.offset..]);
      input := input[packet.offset..];
      Join(tsi);
    }

    /** The peer gets a decoder, and the rest of the packet is decoded. */
    method Join(tsi: Tsi)
      requires Valid() && activeTsi == None && tsi !in streams
      modifies this
      ensures Valid() && Settled() == Sound(step, rank, start, old(Bytes())[tsi := old(input)], tsi)
    {
      BooksWithout(streams, peers, None, input, session, tsi, input);
      FineDrop(step, rank, start, streams, tsi);
      ghost var s, was := Joined(start, input, |session|), peers;
      JoinedIsFine(step, rank, start, input, |session|);
      peers := peers[tsi := Peer(true, Some(start))];
      assert peers - {tsi} == was - {tsi};
      Process(tsi, start, s);
    }

    method HandleLoss(tsi: Tsi)
      requires Valid() && activeTsi == None
      modifies this
      ensures Valid() && Bytes() == Give(step, rank, start, old(Bytes()), Loss(tsi)) && activeTsi == None
    {
      BooksWithout(streams, peers, None, input, session, tsi, input);
      FineDrop(step, rank, start, streams, tsi);
      if tsi in peers {
        DropPeer(tsi, session, input);
      } else {
        BytesGone(streams, tsi);
      }
    }

    /** in_event: the loop goes on until nothing has arrived, packets have been lost, or the session is full. */
    method InEvent(arrivals: seq<Received>) returns (taken: nat)
      requires Valid() && activeTsi == None && forall i | 0 <= i < |arrivals| :: SaneData(arrivals[i])
      modifies this
      ensures Valid() && taken <= |arrivals|
      ensures Settled() == GiveAll(step, rank, start, old(Bytes()), arrivals[..taken])
      ensures taken < |arrivals| ==> activeTsi.Some? || (taken > 0 && !arrivals[taken - 1].Data?)
    {
      taken := 0;
      while taken < |arrivals|
        invariant Valid() && activeTsi == None && taken <= |arrivals|
        invariant Bytes() == GiveAll(step, rank, start, old(Bytes()), arrivals[..taken])
      {
        assert arrivals[..taken + 1][..taken] == arrivals[..taken];
        var r := arrivals[taken];
        taken := taken + 1;
        match r {
          case Nothing => return;
          case Loss(tsi) =>
            HandleLoss(tsi);
            return;
          case Data(tsi, packet) =>
            HandleData(tsi, packet);
            if activeTsi.Some? {
              return;
            }
        }
      }
    }

    /** The refused message is pushed now. */
    method PushPending(tsi: Tsi) returns (decoder: D.Decoder<S>, ghost s: Stream<S>)
      requires Valid() && activeTsi == Some(tsi) && room > 0
      modifies this
      ensures ValidBut(tsi) && Fine(step, rank, start, s) && InSession(tsi, s, session)
      ensures !s.pending && s.d == decoder && s.rest == input && Bytes() == old(Bytes())
      ensures tsi in streams && s.bytes == streams[tsi].bytes
    {
      decoder, s := peers[tsi].decoder.value, streams[tsi];
      BooksWithout(streams, peers, activeTsi, input, session, tsi, input);
      FineDrop(step, rank, start, streams, tsi);
      ghost var before := session;
      var _, r := PushMessage(tsi, decoder, s);
      BooksLonger(streams - {tsi}, peers - {tsi}, input, before, session, tsi);
      s := r;
      activeTsi := None;
    }

    /** restart_input: the message that was refused is pushed, the rest of the packet decoded, and input goes on. */
    method RestartInput(arrivals: seq<Received>) returns (taken: nat)
      requires Valid() && activeTsi.Some? && room > 0 && forall i | 0 <= i < |arrivals| :: SaneData(arrivals[i])
      modifies this
      ensures Valid() && taken <= |arrivals|
      ensures Settled() == GiveAll(step, rank, start, old(Settled()), arrivals[..taken])
    {
      var tsi := activeTsi.value;
      var decoder;
      ghost var s;
      decoder, s := PushPending(tsi);
      assert Bytes()[tsi := s.bytes] == Bytes();
      Process(tsi, decoder, s);
      taken := 0;
      if activeTsi == None {
        taken := InEvent(arrivals);
      }
    }

    /** Refusals do not show: whenever none is outstanding, the session has got of each peer exactly the messages
        in what the peer has been given, decoded in one piece. */
    lemma NothingLostOrDoubled(tsi: Tsi)
      requires Valid() && activeTsi == None && tsi in streams
      ensures D.Feed(step, rank, start, streams[tsi].bytes).ok && streams[tsi].mark <= |session|
      ensures From(session[streams[tsi].mark..], tsi)
        == Messages(step, D.Feed(step, rank, start, streams[tsi].bytes).d.log)
    {
      assert Linked(tsi, streams[tsi], peers, activeTsi, input) && InSession(tsi, streams[tsi], session);
      DoneIsSound(step, rank, start, streams[tsi]);
    }
  }
}
