/**
 * The endpoint table of ctx_t with its loops, proved against module Rendezvous.
 */
module RendezvousObjects {
  import opened Wrappers
  import opened Rendezvous

  lemma JoinsStep<A>(b: Socket, done: seq<Pending<A>>, p: Pending<A>, addr: A)
    ensures p.addr == addr ==>
      Joins(b, At(done + [p], addr)) == Joins(b, At(done, addr)) + [Inc(b), Bound(b, p.c), Connected(p.x, p.c)]
    ensures p.addr != addr ==> At(done + [p], addr) == At(done, addr)
    ensures Elsewhere(done + [p], addr) == Elsewhere(done, addr) + if p.addr == addr then [] else [p]
  {
    assert (done + [p])[..|done|] == done;
    var at := At(done, addr);
    assert (at + [p])[..|at|] == at;
  }

  /** endpoints and pending_connections; `log` records the calls made to sockets. */
  class EndpointTable<A(==)> {
    var endpoints: map<A, Socket>
    var pending: seq<Pending<A>>
    var log: seq<Event>

    constructor ()
      ensures endpoints == map[] && pending == [] && log == []
    {
      endpoints, pending, log := map[], [], [];
    }

    method RegisterEndpoint(addr: A, socket: Socket) returns (rc: int)
      modifies this`endpoints
      ensures rc == if addr in old(endpoints) then -1 else 0
      ensures endpoints == if rc == 0 then old(endpoints)[addr := socket] else old(endpoints)
    {
      if addr in endpoints {
        return -1;
      }
      endpoints := endpoints[addr := socket];
      return 0;
    }

    method UnregisterEndpoint(addr: A, socket: Socket) returns (rc: int)
      modifies this`endpoints
      ensures rc == if addr in old(endpoints) && old(endpoints)[addr] == socket then 0 else -1
      ensures endpoints == if rc == 0 then old(endpoints) - {addr} else old(endpoints)
    {
      if addr !in endpoints || endpoints[addr] != socket {
        return -1;
      }
      endpoints := endpoints - {addr};
      return 0;
    }

    method UnregisterEndpoints(socket: Socket)
      modifies this`endpoints
      ensures endpoints == map a | a in old(endpoints) && old(endpoints)[a] != socket :: old(endpoints)[a]
    {
      var left := endpoints.Keys;
      ghost var was := endpoints;
      while left != {}
        invariant left <= was.Keys
        invariant endpoints == map a | a in was && (a in left || was[a] != socket) :: was[a]
        decreases |left|
      {
        var a :| a in left;
        left := left - {a};
        if endpoints[a] == socket {
          endpoints := endpoints - {a};
        }
      }
    }

    /** A socket that is found will not be deallocated before the caller's bind command. */
    method FindEndpoint(addr: A) returns (socket: Option<Socket>)
      modifies this`log
      ensures socket == if addr in endpoints then Some(endpoints[addr]) else None
      ensures log == if addr in endpoints then old(log) + [Inc(endpoints[addr])] else old(log)
    {
      if addr !in endpoints {
        return None;
      }
      log := log + [Inc(endpoints[addr])];
      return Some(endpoints[addr]);
    }

    /** connect_inproc_sockets; the bind side also tells the connecting socket. */
    method ConnectInprocSockets(bindSocket: Socket, p: Pending<A>, bindSide: bool)
      modifies this`log
      ensures bindSide ==> log == old(log) + [Inc(bindSocket), Bound(bindSocket, p.c), Connected(p.x, p.c)]
      ensures !bindSide ==> log == old(log) + [Inc(bindSocket), Bound(bindSocket, p.c)]
    {
      log := log + [Inc(bindSocket)];
      log := log + [Bound(bindSocket, p.c)];
      if bindSide {
        log := log + [Connected(p.x, p.c)];
      }
    }

    method PendConnection(p: Pending<A>)
      modifies this`log, this`pending
      ensures p.addr in endpoints ==>
        log == old(log) + [Inc(endpoints[p.addr]), Bound(endpoints[p.addr], p.c)] && pending == old(pending)
      ensures p.addr !in endpoints ==> log == old(log) + [Inc(p.x)] && pending == old(pending) + [p]
    {
      if p.addr !in endpoints {
        log := log + [Inc(p.x)];
        pending := pending + [p];
      } else {
        ConnectInprocSockets(endpoints[p.addr], p, false);
      }
    }

    /** All pending connections at the address are joined, in order, and none of the others. */
    method ConnectPending(addr: A, bindSocket: Socket)
      modifies this`log, this`pending
      ensures log == old(log) + Joins(bindSocket, At(old(pending), addr))
      ensures pending == Elsewhere(old(pending), addr)
    {
      var rest: seq<Pending<A>> := [];
      var i := 0;
      ghost var was := log;
      assert pending[..0] == [];
      while i < |pending|
        invariant i <= |pending| && pending == old(pending)
        invariant log == was + Joins(bindSocket, At(pending[..i], addr))
        invariant rest == Elsewhere(pending[..i], addr)
      {
        ghost var joins := Joins(bindSocket, At(pending[..i], addr));
        JoinsStep(bindSocket, pending[..i], pending[i], addr);
        assert pending[..i + 1] == pending[..i] + [pending[i]];
        if pending[i].addr == addr {
          ConnectInprocSockets(bindSocket, pending[i], true);
          LogStep(was, joins, [Inc(bindSocket), Bound(bindSocket, pending[i].c),
            Connected(pending[i].x, pending[i].c)]);
        } else {
          rest := rest + [pending[i]];
        }
        i := i + 1;
      }
      assert pending[..i] == pending;
      pending := rest;
    }
  }

  lemma LogStep(a: seq<Event>, b: seq<Event>, c: seq<Event>)
    ensures (a + b) + c == a + (b + c)
  {
  }
}
