/**
 * fq_t as a mutable object over its pipe array, proved against the functions of module FairQueue.
 */
module FairQueueObjects {
  import opened Wrappers
  import opened Messages
  import opened MessageObjects
  import opened Pipes
  import opened Rotation
  import opened RotationObjects
  import F = FairQueue

  function AsOption(pipe: Pipe?): Option<Pipe> {
    if pipe == null then None else Some(pipe)
  }

  class FairQueue {
    const ring: PipeRing
    var lastIn: Pipe?
    var more: bool

    ghost predicate Valid()
      reads ring, ring.pipes, ring.pipes.items`arrayIndex
    {
      ring.Valid()
    }

    ghost function View(): F.Fq<Pipe>
      reads this, ring, ring.pipes
    {
      F.Fq(ring.Turns(), more, AsOption(lastIn))
    }

    /** The pipes with something to read. */
    ghost function Ready(): set<Pipe>
      reads ring.pipes, ring.pipes.items`incoming
    {
      set p | p in ring.pipes.items && p.incoming != []
    }

    constructor ()
      ensures Valid() && fresh(ring) && fresh(ring.pipes) && View() == F.Start<Pipe, Content>().q
    {
      ring := new PipeRing();
      lastIn, more := null, false;
    }

    method Attach(pipe: Pipe)
      requires Valid() && pipe !in ring.pipes.items
      modifies ring`active, ring.pipes`items, ring.pipes.items`arrayIndex, pipe`arrayIndex
      ensures Valid() && View() == old(View()).(ring := Rotation.Attach(old(ring.Turns()), pipe))
    {
      ring.Attach(pipe);
    }

    method Activated(pipe: Pipe)
      requires Valid() && pipe in ring.pipes.items && ring.pipes.Index(pipe) >= ring.active
      modifies ring`active, ring.pipes`items, ring.pipes.items`arrayIndex
      ensures Valid() && View() == old(View()).(ring := Rotation.Activated(old(ring.Turns()), pipe))
    {
      ring.Activated(pipe);
    }

    method PipeTerminated(pipe: Pipe)
      requires Valid() && pipe in ring.pipes.items
      modifies this`lastIn, ring, ring.pipes`items, ring.pipes.items`arrayIndex
      ensures Valid() && View() == F.Terminate(old(View()), pipe)
    {
      ring.Remove(pipe);
      if lastIn == pipe {
        lastIn := null;
      }
    }

    /** One round of the loop of recvpipe: the current pipe is read from or deactivated; the last
        frame of a message passes the turn on. */
    method Try(pipe: Pipe, msg: Msg, ghost ready: set<Pipe>) returns (fetched: bool)
      requires Valid() && ring.active > 0 && pipe == ring.pipes.items[ring.current]
      requires more ==> pipe.incoming != []
      requires pipe in ready <==> pipe.incoming != []
      modifies this, ring, ring.pipes`items, ring.pipes.items`arrayIndex, pipe`incoming, msg
      ensures Valid() && forall i | 0 <= i < |ring.pipes.items| :: ring.pipes.items[i] in old(ring.pipes.items)
      ensures fetched == (old(pipe.incoming) != [])
      ensures fetched ==> (View(), Some(pipe)) == F.Fetched(old(View()), ready, msg.more)
      ensures !fetched ==> !more && lastIn == old(lastIn) && more == old(more)
      ensures !fetched ==> ring.active < old(ring.active)
      ensures !fetched ==> Advance(ring.Turns(), ready) == Advance(old(ring.Turns()), ready)
      ensures old(pipe.incoming) == (if fetched then [msg.View()] else []) + pipe.incoming
    {
      fetched := pipe.Read(msg);
      if fetched {
        more := msg.more;
        if !more {
          lastIn := pipe;
          ring.PassTurn();
        }
      } else {
        assert !more;
        ring.Deactivate();
      }
    }

    /** Pipes have been tried in vain since `before`, and nothing else has happened. */
    ghost predicate Polling(before: F.Fq<Pipe>, ready: set<Pipe>)
      reads this, ring, ring.pipes, ring.pipes.items`arrayIndex
    {
      && Valid() && Rotation.Valid(before.ring) && View() == before.(ring := ring.Turns())
      && Advance(ring.Turns(), ready) == Advance(before.ring, ready)
    }

    /** In the middle of a message the current pipe has the next frame. */
    ghost predicate MiddleIsThere()
      reads this, ring, ring.pipes, ring.pipes.items`incoming
      requires ring.active > 0 ==> ring.current < |ring.pipes.items|
    {
      more ==> ring.active > 0 && ring.pipes.items[ring.current].incoming != []
    }

    method PollRound(pipe: Pipe, msg: Msg, ghost ready: set<Pipe>, ghost before: F.Fq<Pipe>) returns (fetched: bool)
      requires Polling(before, ready) && ring.active > 0 && pipe == ring.pipes.items[ring.current] && MiddleIsThere()
      requires pipe in ready <==> pipe.incoming != []
      modifies this, ring, ring.pipes`items, ring.pipes.items`arrayIndex, pipe`incoming, msg
      ensures Valid() && forall i | 0 <= i < |ring.pipes.items| :: ring.pipes.items[i] in old(ring.pipes.items)
      ensures fetched ==> (View(), Some(pipe)) == F.Fetched(before, ready, msg.more)
      ensures fetched ==> old(pipe.incoming) == [msg.View()] + pipe.incoming
      ensures !fetched ==>
        Polling(before, ready) && !more && ring.active < old(ring.active) && pipe.incoming == old(pipe.incoming)
    {
      fetched := Try(pipe, msg, ready);
    }

    /** The loop of recvpipe. */
    method Poll(msg: Msg, ghost ready: set<Pipe>, ghost all: set<Pipe>) returns (pipe: Pipe?)
      requires Valid() && MiddleIsThere()
      requires forall i | 0 <= i < |ring.pipes.items| :: ring.pipes.items[i] in all
      requires forall p | p in all :: p in ready <==> p.incoming != []
      modifies this, ring, ring.pipes`items, all`arrayIndex, all`incoming, msg
      ensures Valid()
      ensures (View(), AsOption(pipe)) == F.Fetched(old(View()), ready, pipe != null && msg.more)
      ensures pipe != null ==> pipe in all && old(pipe.incoming) == [msg.View()] + pipe.incoming
      ensures forall p | p in all && p != pipe :: p.incoming == old(p.incoming)
    {
      ghost var before := View();
      while ring.active > 0
        invariant Polling(before, ready) && MiddleIsThere()
        invariant forall i | 0 <= i < |ring.pipes.items| :: ring.pipes.items[i] in all
        invariant unchanged(all`incoming)
        decreases ring.active
      {
        var next := ring.pipes.items[ring.current];
        var fetched := PollRound(next, msg, ready, before);
        if fetched {
          return next;
        }
      }
      return null;
    }

    /** The next frame, or a blank message if there is none. */
    method Fetch(msg: Msg) returns (pipe: Pipe?)
      requires Valid()
      requires more ==> ring.active > 0 && ring.pipes.items[ring.current].incoming != []
      modifies this, ring, ring.pipes`items, ring.pipes.items`arrayIndex, ring.pipes.items`incoming, msg
      ensures Valid()
      ensures (View(), AsOption(pipe)) == F.Fetched(old(View()), old(Ready()), pipe != null && msg.more)
      ensures if pipe == null then msg.View() == Blank() else old(pipe.incoming) == [msg.View()] + pipe.incoming
      ensures forall p | p in old(ring.pipes.items) && p != pipe :: p.incoming == old(p.incoming)
    {
      pipe := Poll(msg, Ready(), set p | p in ring.pipes.items);
      if pipe == null {
        msg.Init();
      }
    }

    /** recvpipe: the old content of the message is released first. */
    method RecvPipe(msg: Msg) returns (rc: int, pipe: Pipe?)
      requires Valid()
      requires more ==> ring.active > 0 && ring.pipes.items[ring.current].incoming != []
      requires Counted(msg.View()) && msg.shared ==> 1 <= msg.body.content.refcnt < COUNTER_MODULUS
      modifies this, ring, ring.pipes`items, ring.pipes.items`arrayIndex, ring.pipes.items`incoming, msg, msg.Block()
      ensures Valid() && rc == if pipe == null then -1 else 0
      ensures (View(), AsOption(pipe)) == F.Fetched(old(View()), old(Ready()), pipe != null && msg.more)
      ensures if pipe == null then msg.View() == Blank() else old(pipe.incoming) == [msg.View()] + pipe.incoming
      ensures forall p | p in old(ring.pipes.items) && p != pipe :: p.incoming == old(p.incoming)
      ensures old(Counted(msg.View())) ==>
        var c := old(msg.body.content); c.View() == CloseCell(old(msg.shared), old(c.View()))
    {
      ghost var before, ready := View(), Ready();
      var _ := msg.Close();
      assert View() == before && Ready() == ready;
      pipe := Fetch(msg);
      rc := if pipe == null then -1 else 0;
    }

    method HasIn() returns (has: bool)
      requires Valid()
      modifies ring, ring.pipes`items, ring.pipes.items`arrayIndex
      ensures Valid()
      ensures has == (more || ring.Turns().active > 0)
      ensures ring.Turns() == if more then old(ring.Turns()) else Advance(old(ring.Turns()), old(Ready()))
    {
      if more {
        return true;
      }
      ghost var before, ready, all := ring.Turns(), Ready(), ring.pipes.items;
      while ring.active > 0
        invariant Valid()
        invariant Advance(ring.Turns(), ready) == Advance(before, ready)
        invariant forall i | 0 <= i < |ring.pipes.items| :: ring.pipes.items[i] in all
        decreases ring.active
      {
        var readable := ring.pipes.items[ring.current].CheckRead();
        if readable {
          return true;
        }
        ring.Deactivate();
      }
      return false;
    }
  }
}
