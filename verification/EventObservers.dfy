/**
 EventClient: the observers of each event type, kept in step with the subscriptions of a
 socket that filters by prefix.

 The multimap is the sequence of its entries in iteration order: ordered by key, entries with
 equal keys in order of insertion. A target is a name for an EventTarget's address.
 */
module EventObservers {

  type EventType = string
  type Target = nat

  datatype Entry = Entry(key: EventType, target: Target)

  type Multimap = seq<Entry>

  // ------------------------------------------------------------------ the order of keys

  /** std::string's operator<. */
  predicate Less(a: EventType, b: EventType) {
    b != "" && (a == "" || a[0] < b[0] || (a[0] == b[0] && Less(a[1..], b[1..])))
  }

  lemma {:induction false} LessTransitive(a: EventType, b: EventType, c: EventType)
    requires !Less(b, a) && !Less(c, b)
    ensures !Less(c, a)
  {
    if a != "" && b != "" && c != "" && a[0] == b[0] == c[0] {
      LessTransitive(a[1..], b[1..], c[1..]);
    }
  }

  lemma {:induction false} LessTotal(a: EventType, b: EventType)
    ensures Less(a, b) || a == b || Less(b, a)
    ensures !(Less(a, b) && Less(b, a)) && !Less(a, a)
  {
    if a != "" && b != "" && a[0] == b[0] {
      LessTotal(a[1..], b[1..]);
      assert a == [a[0]] + a[1..] && b == [b[0]] + b[1..];
    }
    if a != "" {
      LessTotal(a[1..], a[1..]);
    }
  }

  predicate Ordered(m: Multimap) {
    forall i, j | 0 <= i < j < |m| :: !Less(m[j].key, m[i].key)
  }

  // ------------------------------------------------------------------ the multimap

  /** The first position whose key is not below `key`. */
  function Lower(m: Multimap, key: EventType): (i: nat)
    ensures i <= |m| && forall j | 0 <= j < i :: Less(m[j].key, key)
    ensures i < |m| ==> !Less(m[i].key, key)
  {
    if m == [] || !Less(m[0].key, key) then 0
    else
      var i := Lower(m[1..], key);
      assert forall j | 0 < j < |m| :: m[j] == m[1..][j - 1];
      1 + i
  }

  /** The first position whose key is above `key`. */
  function Upper(m: Multimap, key: EventType): (i: nat)
    ensures i <= |m| && forall j | 0 <= j < i :: !Less(key, m[j].key)
    ensures i < |m| ==> Less(key, m[i].key)
  {
    if m == [] || Less(key, m[0].key) then 0
    else
      var i := Upper(m[1..], key);
      assert forall j | 0 < j < |m| :: m[j] == m[1..][j - 1];
      1 + i
  }

  /** find: the first entry with the key, or the end. */
  function Find(m: Multimap, key: EventType): nat {
    var i := Lower(m, key);
    if i < |m| && m[i].key == key then i else |m|
  }

  function Insert(m: Multimap, e: Entry): Multimap {
    m[..Upper(m, e.key)] + [e] + m[Upper(m, e.key)..]
  }

  predicate HasKey(m: Multimap, key: EventType) {
    exists i | 0 <= i < |m| :: m[i].key == key
  }

  /** Entries with a key are exactly those between its bounds. */
  lemma RangeIsKey(m: Multimap, key: EventType, i: nat)
    requires Ordered(m) && i < |m|
    ensures Lower(m, key) <= i < Upper(m, key) <==> m[i].key == key
  {
    LessTotal(m[i].key, key);
    var lo, hi := Lower(m, key), Upper(m, key);
    if i >= lo {
      if Less(m[i].key, key) {
        assert i != lo;
        LessTransitive(key, m[lo].key, m[i].key);
      }
    }
    if i >= hi && m[i].key == key {
      assert false;
    }
  }

  lemma FindIsFirst(m: Multimap, key: EventType)
    requires Ordered(m)
    ensures Find(m, key) <= |m| && (Find(m, key) < |m| <==> HasKey(m, key))
    ensures forall j | 0 <= j < Find(m, key) :: m[j].key != key
  {
    forall j | 0 <= j < |m|
      ensures Lower(m, key) <= j < Upper(m, key) <==> m[j].key == key
    {
      RangeIsKey(m, key, j);
    }
  }

  // ------------------------------------------------------------------ registering and unregistering

  datatype State = State(map': Multimap, subscriptions: multiset<EventType>)

  predicate Stored(m: Multimap, key: EventType, target: Target) {
    Entry(key, target) in m
  }

  /** The first position of an entry, or the end. */
  function Position(m: Multimap, e: Entry): (i: nat)
    ensures i <= |m| && (i < |m| ==> m[i] == e) && (i == |m| ==> e !in m)
  {
    if m == [] || m[0] == e then 0 else 1 + Position(m[1..], e)
  }

  function Without(m: Multimap, e: Entry): Multimap {
    var i := Position(m, e);
    if i < |m| then m[..i] + m[i + 1..] else m
  }

  /** register_observer; `accepted` is whether zmq_setsockopt succeeds if it is called. */
  function Register(s: State, key: EventType, target: Target, accepted: bool): (r: (State, bool)) {
    if Stored(s.map', key, target) then (s, true)
    else
      var m := Insert(s.map', Entry(key, target));
      if Find(s.map', key) < |s.map'| then (State(m, s.subscriptions), true)
      else (State(m, if accepted then s.subscriptions + multiset{key} else s.subscriptions), accepted)
  }

  function Unregister(s: State, key: EventType, target: Target, accepted: bool): (r: (State, bool)) {
    if !Stored(s.map', key, target) then (s, true)
    else
      var m := Without(s.map', Entry(key, target));
      if Find(m, key) < |m| then (State(m, s.subscriptions), true)
      else (State(m, if accepted then s.subscriptions - multiset{key} else s.subscriptions), accepted)
  }

  predicate NoDuplicates(m: Multimap) {
    forall i, j | 0 <= i < j < |m| :: m[i] != m[j]
  }

  /** One subscription per type that has an observer, and none for any other. */
  ghost predicate InStep(s: State) {
    forall key :: s.subscriptions[key] == if HasKey(s.map', key) then 1 else 0
  }

  ghost predicate Inv(s: State) {
    Ordered(s.map') && NoDuplicates(s.map') && InStep(s)
  }

  lemma InsertOrder(m: Multimap, e: Entry)
    requires Ordered(m)
    ensures Ordered(Insert(m, e))
  {
    var u := Upper(m, e.key);
    var r := Insert(m, e);
    forall i | u <= i < |m|
      ensures !Less(m[i].key, e.key)
    {
      LessTotal(e.key, m[u].key);
      LessTotal(m[i].key, m[i].key);
      LessTransitive(e.key, m[u].key, m[i].key);
    }
    assert forall i | 0 <= i < |r| :: r[i] == if i < u then m[i] else if i == u then e else m[i - 1];
  }

  lemma InsertMembers(m: Multimap, e: Entry, x: Entry)
    ensures x in Insert(m, e) <==> x in m || x == e
  {
    var u := Upper(m, e.key);
    assert m == m[..u] + m[u..];
    assert x in m <==> x in m[..u] || x in m[u..];
  }

  lemma InsertDistinct(m: Multimap, e: Entry)
    requires NoDuplicates(m) && e !in m
    ensures NoDuplicates(Insert(m, e))
  {
    var u := Upper(m, e.key);
    var r := Insert(m, e);
    assert forall i | 0 <= i < |r| :: r[i] == if i < u then m[i] else if i == u then e else m[i - 1];
    forall i, j | 0 <= i < j < |r|
      ensures r[i] != r[j]
    {
      assert j != u ==> r[j] in m;
      assert i != u ==> r[i] in m;
    }
  }

  lemma InsertFacts(m: Multimap, e: Entry)
    requires Ordered(m) && NoDuplicates(m) && e !in m
    ensures Ordered(Insert(m, e)) && NoDuplicates(Insert(m, e))
    ensures forall x :: x in Insert(m, e) <==> x in m || x == e
    ensures forall key :: HasKey(Insert(m, e), key) <==> HasKey(m, key) || key == e.key
  {
    InsertOrder(m, e);
    InsertDistinct(m, e);
    forall x
      ensures x in Insert(m, e) <==> x in m || x == e
    {
      InsertMembers(m, e, x);
    }
    forall key
      ensures HasKey(Insert(m, e), key) <==> HasKey(m, key) || key == e.key
    {
      InsertKeys(m, Insert(m, e), e, key);
    }
  }

  lemma InsertKeys(m: Multimap, r: Multimap, e: Entry, key: EventType)
    requires forall x :: x in r <==> x in m || x == e
    ensures HasKey(r, key) <==> HasKey(m, key) || key == e.key
  {
    if HasKey(m, key) {
      var i :| 0 <= i < |m| && m[i].key == key;
      assert m[i] in r;
    }
    if key == e.key {
      assert e in r;
    }
    if HasKey(r, key) {
      var i :| 0 <= i < |r| && r[i].key == key;
      assert r[i] in r;
    }
  }

  lemma WithoutOrder(m: Multimap, e: Entry)
    requires Ordered(m) && NoDuplicates(m) && e in m
    ensures Ordered(Without(m, e)) && NoDuplicates(Without(m, e))
  {
    var p := Position(m, e);
    var r := Without(m, e);
    assert forall i | 0 <= i < |r| :: r[i] == m[if i < p then i else i + 1];
  }

  lemma WithoutMembers(m: Multimap, e: Entry, x: Entry)
    requires NoDuplicates(m) && e in m
    ensures x in Without(m, e) <==> x in m && x != e
  {
    var p := Position(m, e);
    assert m == m[..p] + [e] + m[p + 1..];
    assert forall i | 0 <= i < p :: m[i] != m[p];
    assert forall i | p < i < |m| :: m[i] != m[p];
  }

  lemma WithoutFacts(m: Multimap, e: Entry)
    requires Ordered(m) && NoDuplicates(m) && e in m
    ensures Ordered(Without(m, e)) && NoDuplicates(Without(m, e))
    ensures forall x :: x in Without(m, e) <==> x in m && x != e
    ensures forall key | key != e.key :: HasKey(Without(m, e), key) <==> HasKey(m, key)
  {
    WithoutOrder(m, e);
    forall x
      ensures x in Without(m, e) <==> x in m && x != e
    {
      WithoutMembers(m, e, x);
    }
    forall key | key != e.key
      ensures HasKey(Without(m, e), key) <==> HasKey(m, key)
    {
      SameKeys(m, Without(m, e), e, key);
    }
  }

  lemma SameKeys(m: Multimap, r: Multimap, e: Entry, key: EventType)
    requires key != e.key && forall x :: x in r <==> x in m && x != e
    ensures HasKey(r, key) <==> HasKey(m, key)
  {
    if HasKey(m, key) {
      var i :| 0 <= i < |m| && m[i].key == key;
      assert m[i] in r;
    }
    if HasKey(r, key) {
      var i :| 0 <= i < |r| && r[i].key == key;
      assert r[i] in m;
    }
  }

  /** Registering adds the pair, and keeps subscriptions in step exactly if the socket accepts. */
  lemma RegisterKeeps(s: State, key: EventType, target: Target, accepted: bool)
    requires Inv(s)
    ensures var (r, ok) := Register(s, key, target, accepted);
      && Ordered(r.map') && NoDuplicates(r.map')
      && (forall e :: e in r.map' <==> e in s.map' || e == Entry(key, target))
      && (InStep(r) <==> accepted || HasKey(s.map', key))
      && (ok <==> InStep(r))
  {
    var (r, ok) := Register(s, key, target, accepted);
    FindIsFirst(s.map', key);
    if Stored(s.map', key, target) {
      var i :| 0 <= i < |s.map'| && s.map'[i] == Entry(key, target);
      assert HasKey(s.map', key);
    } else {
      InsertFacts(s.map', Entry(key, target));
      if !accepted && !HasKey(s.map', key) {
        assert r.subscriptions[key] != 1;
      }
    }
  }

  /** The socket refuses the first observer of "a": the pair is stored all the same, and nothing is subscribed. */
  lemma RefusedIsKept()
    ensures var (r, ok) := Register(State([], multiset{}), "a", 1, false);
      !ok && Stored(r.map', "a", 1) && !InStep(r)
  {
    assert Inv(State([], multiset{})) by {
      assert forall key :: !HasKey([], key);
    }
    RegisterKeeps(State([], multiset{}), "a", 1, false);
  }

  lemma UnregisterKeeps(s: State, key: EventType, target: Target, accepted: bool)
    requires Inv(s)
    ensures var (r, ok) := Unregister(s, key, target, accepted);
      && Ordered(r.map') && NoDuplicates(r.map')
      && (forall e :: e in r.map' <==> e in s.map' && e != Entry(key, target))
      && (InStep(r) <==> accepted || !Stored(s.map', key, target) || HasKey(r.map', key))
      && (ok <==> InStep(r))
  {
    var (r, ok) := Unregister(s, key, target, accepted);
    if Stored(s.map', key, target) {
      WithoutFacts(s.map', Entry(key, target));
      FindIsFirst(r.map', key);
      var i :| 0 <= i < |s.map'| && s.map'[i] == Entry(key, target);
      assert HasKey(s.map', key);
      if !accepted && !HasKey(r.map', key) {
        assert r.subscriptions[key] != 0;
      }
    }
  }

  // ------------------------------------------------------------------ histories

  datatype Op = Subscribe(key: EventType, target: Target) | Cancel(key: EventType, target: Target)

  function Apply(s: State, op: Op): State {
    match op
    case Subscribe(k, o) => Register(s, k, o, true).0
    case Cancel(k, o) => Unregister(s, k, o, true).0
  }

  function History(ops: seq<Op>): State {
    if ops == [] then State([], multiset{}) else Apply(History(ops[..|ops| - 1]), ops[|ops| - 1])
  }

  /** The last operation on the pair, if any, was a registration. */
  predicate Registered(ops: seq<Op>, key: EventType, target: Target) {
    ops != [] &&
    var op := ops[|ops| - 1];
    if op == Subscribe(key, target) then true
    else if op == Cancel(key, target) then false
    else Registered(ops[..|ops| - 1], key, target)
  }

  /** Over every history: the map holds each pair that is registered, once, and nothing else, and
      the socket holds one subscription per type with an observer and no other. */
  lemma {:induction false} HistoryInStep(ops: seq<Op>, key: EventType, target: Target)
    ensures Inv(History(ops))
    ensures Stored(History(ops).map', key, target) <==> Registered(ops, key, target)
    ensures History(ops).subscriptions[key] == if exists o :: Registered(ops, key, o) then 1 else 0
  {
    HistoryInv(ops);
    HistoryStored(ops, key, target);
    var m := History(ops).map';
    if HasKey(m, key) {
      var i :| 0 <= i < |m| && m[i].key == key;
      HistoryStored(ops, key, m[i].target);
      assert Registered(ops, key, m[i].target);
    } else {
      forall o
        ensures !Registered(ops, key, o)
      {
        HistoryStored(ops, key, o);
      }
    }
  }

  lemma {:induction false} HistoryInv(ops: seq<Op>)
    ensures Inv(History(ops))
  {
    if ops == [] {
      assert forall key :: !HasKey([], key);
    } else {
      HistoryInv(ops[..|ops| - 1]);
      var op := ops[|ops| - 1];
      RegisterKeeps(History(ops[..|ops| - 1]), op.key, op.target, true);
      UnregisterKeeps(History(ops[..|ops| - 1]), op.key, op.target, true);
    }
  }

  lemma {:induction false} HistoryStored(ops: seq<Op>, key: EventType, target: Target)
    ensures Stored(History(ops).map', key, target) <==> Registered(ops, key, target)
  {
    if ops != [] {
      HistoryInv(ops[..|ops| - 1]);
      HistoryStored(ops[..|ops| - 1], key, target);
      var op := ops[|ops| - 1];
      RegisterKeeps(History(ops[..|ops| - 1]), op.key, op.target, true);
      UnregisterKeeps(History(ops[..|ops| - 1]), op.key, op.target, true);
    }
  }

  // ------------------------------------------------------------------ delivery

  /** A SUB socket lets a message through if a subscription is a prefix of it. */
  ghost predicate Passes(subscriptions: multiset<EventType>, title: EventType) {
    exists p :: p in subscriptions && p <= title
  }

  function Targets(m: Multimap): (r: seq<Target>)
    ensures |r| == |m| && forall i | 0 <= i < |r| :: r[i] == m[i].target
  {
    seq(|m|, i requires 0 <= i < |m| => m[i].target)
  }

  /** The targets handle_event calls for a received title, in order. */
  function Handlers(m: Multimap, title: EventType): (r: seq<Target>)
    requires Ordered(m)
  {
    var lo, hi := Lower(m, title), Upper(m, title);
    if lo <= hi then Targets(m[lo..hi]) else []
  }

  lemma HandlerAt(m: Multimap, title: EventType, i: nat)
    requires Ordered(m) && i < |Handlers(m, title)|
    ensures Lower(m, title) + i < |m| && m[Lower(m, title) + i] == Entry(title, Handlers(m, title)[i])
  {
    var lo := Lower(m, title);
    BoundsOrdered(m, title);
    RangeIsKey(m, title, lo + i);
    var e := m[lo + i];
    assert e.key == title;
    assert e.target == Handlers(m, title)[i];
    assert e == Entry(e.key, e.target);
  }

  lemma HandlersStored(m: Multimap, title: EventType, target: Target)
    requires Ordered(m)
    ensures target in Handlers(m, title) <==> Stored(m, title, target)
  {
    var handlers := Handlers(m, title);
    if target in handlers {
      var i :| 0 <= i < |handlers| && handlers[i] == target;
      HandlerAt(m, title, i);
    }
    if Stored(m, title, target) {
      var i :| 0 <= i < |m| && m[i] == Entry(title, target);
      RangeIsKey(m, title, i);
      assert handlers[i - Lower(m, title)] == target;
    }
  }

  lemma HandlersDistinct(m: Multimap, title: EventType, i: nat, j: nat)
    requires Ordered(m) && NoDuplicates(m) && i < j < |Handlers(m, title)|
    ensures Handlers(m, title)[i] != Handlers(m, title)[j]
  {
    HandlerAt(m, title, i);
    HandlerAt(m, title, j);
    assert m[Lower(m, title) + i] != m[Lower(m, title) + j];
  }

  /** Exactly the targets registered for this very title are called, once each, and the prefix
      filter never withholds a title that has one. */
  lemma DeliveryIsExact(s: State, title: EventType, target: Target)
    requires Inv(s)
    ensures target in Handlers(s.map', title) <==> Stored(s.map', title, target)
    ensures forall i, j | 0 <= i < j < |Handlers(s.map', title)| ::
              Handlers(s.map', title)[i] != Handlers(s.map', title)[j]
    ensures Stored(s.map', title, target) ==> Passes(s.subscriptions, title)
  {
    HandlersStored(s.map', title, target);
    forall i, j | 0 <= i < j < |Handlers(s.map', title)|
      ensures Handlers(s.map', title)[i] != Handlers(s.map', title)[j]
    {
      HandlersDistinct(s.map', title, i, j);
    }
    if Stored(s.map', title, target) {
      var i :| 0 <= i < |s.map'| && s.map'[i] == Entry(title, target);
      assert HasKey(s.map', title) && title in s.subscriptions;
    }
  }

  /** The targets publish_loc_event calls: it runs on from the found key to the end of the map. */
  function LocHandlers(m: Multimap, key: EventType): (r: seq<Target>)
    ensures Find(m, key) <= |m| && |r| == |m| - Find(m, key)
  {
    Targets(m[Find(m, key)..])
  }

  lemma FindIsLower(m: Multimap, key: EventType)
    requires Ordered(m) && HasKey(m, key)
    ensures Find(m, key) == Lower(m, key) <= Upper(m, key)
  {
    FindIsFirst(m, key);
    BoundsOrdered(m, key);
  }

  lemma TargetsSplit(m: Multimap, lo: nat, hi: nat)
    requires lo <= hi <= |m|
    ensures Targets(m[lo..]) == Targets(m[lo..hi]) + Targets(m[hi..])
  {
  }

  lemma NoHandlers(m: Multimap, key: EventType)
    requires Ordered(m) && !HasKey(m, key)
    ensures Handlers(m, key) == [] == LocHandlers(m, key)
  {
    FindIsFirst(m, key);
    BoundsOrdered(m, key);
    if Lower(m, key) < Upper(m, key) {
      RangeIsKey(m, key, Lower(m, key));
    }
  }

  /** They are the targets of the type itself, if it has any, and then those of all types that sort after it. */
  lemma LocRunsOn(m: Multimap, key: EventType)
    requires Ordered(m)
    ensures LocHandlers(m, key) == Handlers(m, key) + if HasKey(m, key) then Targets(m[Upper(m, key)..]) else []
  {
    if HasKey(m, key) {
      FindIsLower(m, key);
      TargetsSplit(m, Lower(m, key), Upper(m, key));
    } else {
      NoHandlers(m, key);
    }
  }

  /** publish_loc_event delivers to the observers of the type and to nobody else, exactly if the type has no
      observers or no type with observers sorts after it. */
  lemma LocDeliveryExactly(m: Multimap, key: EventType)
    requires Ordered(m)
    ensures LocHandlers(m, key) == Handlers(m, key) <==>
      !HasKey(m, key) || forall i | 0 <= i < |m| :: !Less(key, m[i].key)
  {
    LocRunsOn(m, key);
    var hi := Upper(m, key);
    if HasKey(m, key) && hi < |m| {
      assert |LocHandlers(m, key)| == |Handlers(m, key)| + |Targets(m[hi..])|;
    }
  }

  /** An observer of "b" is called for an event of type "a". */
  lemma LocRunsOnForA()
    ensures Ordered([Entry("a", 1), Entry("b", 2)])
    ensures LocHandlers([Entry("a", 1), Entry("b", 2)], "a") == [1, 2]
    ensures Handlers([Entry("a", 1), Entry("b", 2)], "a") == [1]
  {
    var m := [Entry("a", 1), Entry("b", 2)];
    assert Less("a", "b") && !Less("b", "a") && !Less("a", "a");
    assert Lower(m, "a") == 0;
    assert m[1..] == [Entry("b", 2)] && Upper(m[1..], "a") == 0;
    assert Upper(m, "a") == 1;
  }

  // ------------------------------------------------------------------ the class

  /** EventClient's fields that matter here. Results of zmq_setsockopt are parameters. */
  class EventClient {
    var eventObjectMap: Multimap
    var subscriptions: multiset<EventType>

    function View(): State
      reads this
    {
      State(eventObjectMap, subscriptions)
    }

    constructor ()
      ensures View() == State([], multiset{})
    {
      eventObjectMap, subscriptions := [], multiset{};
    }

    method SetSockOpt(subscribe: bool, key: EventType, accepted: bool) returns (rc: int)
      modifies this`subscriptions
      ensures rc == 0 <==> accepted
      ensures subscriptions == if !accepted then old(subscriptions)
        else if subscribe then old(subscriptions) + multiset{key} else old(subscriptions) - multiset{key}
    {
      if !accepted {
        return -1;
      }
      subscriptions := if subscribe then subscriptions + multiset{key} else subscriptions - multiset{key};
      return 0;
    }

    /** Scans from the first equal key to the end of the map, not to the end of the equal range. */
    method RegisterObserver(key: EventType, object': Target, accepted: bool) returns (ok: bool)
      requires Ordered(eventObjectMap)
      modifies this
      ensures (View(), ok) == Register(old(View()), key, object', accepted)
    {
      var it := Find(eventObjectMap, key);
      FindIsFirst(eventObjectMap, key);
      if it != |eventObjectMap| {
        while it != |eventObjectMap|
          invariant it <= |eventObjectMap| && eventObjectMap == old(eventObjectMap)
          invariant forall j | 0 <= j < it :: eventObjectMap[j] != Entry(key, object')
          decreases |eventObjectMap| - it
        {
          if eventObjectMap[it].key == key && eventObjectMap[it].target == object' {
            return true;
          }
          it := it + 1;
        }
        eventObjectMap := Insert(eventObjectMap, Entry(key, object'));
        return true;
      } else {
        assert !Stored(eventObjectMap, key, object');
        eventObjectMap := Insert(eventObjectMap, Entry(key, object'));
        var rc := SetSockOpt(true, key, accepted);
        return rc == 0;
      }
    }

    method UnregisterObserver(key: EventType, object': Target, accepted: bool) returns (ok: bool)
      requires Ordered(eventObjectMap)
      modifies this
      ensures (View(), ok) == Unregister(old(View()), key, object', accepted)
    {
      var it := 0;
      while it != |eventObjectMap|
        invariant it <= |eventObjectMap| && eventObjectMap == old(eventObjectMap) && subscriptions == old(subscriptions)
        invariant forall j | 0 <= j < it :: eventObjectMap[j] != Entry(key, object')
        decreases |eventObjectMap| - it
      {
        if eventObjectMap[it].key == key && eventObjectMap[it].target == object' {
          assert it == Position(eventObjectMap, Entry(key, object')) by {
            FirstPosition(eventObjectMap, Entry(key, object'), it);
          }
          eventObjectMap := eventObjectMap[..it] + eventObjectMap[it + 1..];
          var search := Find(eventObjectMap, key);
          if search == |eventObjectMap| {
            var rc := SetSockOpt(false, key, accepted);
            return rc == 0;
          }
          return true;
        }
        it := it + 1;
      }
      return true;
    }

    /** publish_loc_event: the loop ends only at the end of the map. */
    method PublishLocEvent(key: EventType) returns (handled: seq<Target>)
      requires Ordered(eventObjectMap)
      ensures handled == LocHandlers(eventObjectMap, key)
    {
      var search := Find(eventObjectMap, key);
      FindIsFirst(eventObjectMap, key);
      ghost var first := search;
      handled := [];
      while search != |eventObjectMap|
        invariant first <= search <= |eventObjectMap| && handled == LocHandlers(eventObjectMap, key)[..search - first]
        decreases |eventObjectMap| - search
      {
        handled := handled + [eventObjectMap[search].target];
        search := search + 1;
      }
    }

    /** handle_event once a message with this title has been received. */
    method HandleEvent(title: EventType) returns (handled: seq<Target>)
      requires Ordered(eventObjectMap)
      ensures handled == Handlers(eventObjectMap, title)
    {
      var it, last := Lower(eventObjectMap, title), Upper(eventObjectMap, title);
      var first := it;
      handled := [];
      BoundsOrdered(eventObjectMap, title);
      while it != last
        invariant first <= it <= last && handled == Handlers(eventObjectMap, title)[..it - first]
        decreases last - it
      {
        handled := handled + [eventObjectMap[it].target];
        it := it + 1;
      }
    }
  }

  lemma {:induction false} FirstPosition(m: Multimap, e: Entry, i: nat)
    requires i < |m| && m[i] == e && forall j | 0 <= j < i :: m[j] != e
    ensures Position(m, e) == i
  {
    if i > 0 {
      assert m[0] != e;
      FirstPosition(m[1..], e, i - 1);
    }
  }

  lemma BoundsOrdered(m: Multimap, key: EventType)
    requires Ordered(m)
    ensures Lower(m, key) <= Upper(m, key)
  {
    if Upper(m, key) < Lower(m, key) {
      LessTotal(key, m[Upper(m, key)].key);
    }
  }
}
