/**
 * lb_t as a mutable object over its pipe array, proved against the functions of module LoadBalancer.
 */
module LoadBalancerObjects {
  import opened Messages
  import opened MessageObjects
  import opened Pipes
  import opened Rotation
  import opened RotationObjects
  import L = LoadBalancer

  function AsOutcome(rc: int, pipe: Pipe?): L.Outcome<Pipe> {
    if rc != 0 then L.Again else if pipe == null then L.Dropped else L.SentTo(pipe)
  }

  class LoadBalancer {
    const ring: PipeRing
    var more: bool
    var dropping: bool

    ghost predicate Valid()
      reads this, ring, ring.pipes, ring.pipes.items`arrayIndex
    {
      ring.Valid() && L.Valid(View())
    }

    ghost function View(): L.Lb<Pipe>
      reads this, ring, ring.pipes
    {
      L.Lb(ring.Turns(), more, dropping)
    }

    /** The pipes that would accept a frame. */
    ghost function Room(): set<Pipe>
      reads ring.pipes, ring.pipes.items`room
    {
      set p | p in ring.pipes.items && p.room
    }

    constructor ()
      ensures Valid() && fresh(ring) && fresh(ring.pipes) && View() == L.Start<Pipe, Content>().q
    {
      ring := new PipeRing();
      more, dropping := false, false;
    }

    method Attach(pipe: Pipe)
      requires Valid() && pipe !in ring.pipes.items
      modifies ring`active, ring.pipes`items, ring.pipes.items`arrayIndex, pipe`arrayIndex
      ensures Valid() && View() == old(View()).(ring := Rotation.Attach(old(ring.Turns()), pipe))
    {
      ring.Attach(pipe);
    }

    method Activated(pipe: Pipe)
      requires Valid() && pipe in ring.pipes.items && ring.pipes.Index(pipe) >= ring.active
      modifies ring`active, ring.pipes`items, ring.pipes.items`arrayIndex
      ensures Valid() && View() == old(View()).(ring := Rotation.Activated(old(ring.Turns()), pipe))
    {
      ring.Activated(pipe);
    }

    method PipeTerminated(pipe: Pipe)
      requires Valid() && pipe in ring.pipes.items
      modifies this`dropping, ring, ring.pipes`items, ring.pipes.items`arrayIndex
      ensures Valid() && View() == L.Terminate(old(View()), pipe)
    {
      PositionIs(ring.pipes.items, ring.pipes.Index(pipe));
      if ring.pipes.Index(pipe) == ring.current && more {
        dropping := true;
      }
      ring.Remove(pipe);
    }

    /** One round of the loop of sendpipe: the current pipe takes the frame or is deactivated. */
    method Try(pipe: Pipe, v: Value, ghost room: set<Pipe>) returns (written: bool)
      requires ring.Valid() && ring.active > 0 && pipe == ring.pipes.items[ring.current]
      requires pipe in room <==> pipe.room
      modifies ring, ring.pipes`items, ring.pipes.items`arrayIndex, pipe`outgoing
      ensures ring.Valid() && written == pipe.room
      ensures pipe.outgoing == if written then old(pipe.outgoing) + [v] else old(pipe.outgoing)
      ensures Advance(ring.Turns(), room) == Advance(old(ring.Turns()), room)
      ensures if written then ring.Turns() == old(ring.Turns()) else ring.active < old(ring.active)
      ensures forall i | 0 <= i < |ring.pipes.items| :: ring.pipes.items[i] in old(ring.pipes.items)
    {
      written := pipe.Write(v);
      if !written {
        ring.Deactivate();
      }
    }

    /** The loop of sendpipe between messages: full pipes are deactivated until one takes the frame. */
    method Place(v: Value, ghost room: set<Pipe>, ghost all: set<Pipe>) returns (pipe: Pipe?)
      requires ring.Valid()
      requires forall i | 0 <= i < |ring.pipes.items| :: ring.pipes.items[i] in all
      requires forall p | p in all :: p in room <==> p.room
      modifies ring, ring.pipes`items, all`arrayIndex, all`outgoing
      ensures ring.Valid() && ring.Turns() == Advance(old(ring.Turns()), room)
      ensures pipe == if ring.active == 0 then null else ring.pipes.items[ring.current]
      ensures pipe != null ==> pipe in all && pipe.outgoing == old(pipe.outgoing) + [v]
      ensures forall p | p in all && p != pipe :: p.outgoing == old(p.outgoing)
    {
      ghost var goal := Advance(ring.Turns(), room);
      while ring.active > 0
        invariant ring.Valid() && Advance(ring.Turns(), room) == goal
        invariant forall i | 0 <= i < |ring.pipes.items| :: ring.pipes.items[i] in all
        invariant unchanged(all`outgoing)
        decreases ring.active
      {
        var next := ring.pipes.items[ring.current];
        var written := Try(next, v, room);
        if written {
          return next;
        }
      }
      return null;
    }

    /** The frame has been written: its message goes on, or is flushed and the turn passed on. */
    method Complete(pipe: Pipe, msgMore: bool)
      requires ring.Valid() && !dropping && ring.active > 0
      modifies this`more, ring`current, pipe`flushed
      ensures Valid()
      ensures View() == L.Lb(if msgMore then old(ring.Turns()) else Next(old(ring.Turns())), msgMore, false)
      ensures pipe.flushed == if msgMore then old(pipe.flushed) else |pipe.outgoing|
    {
      more := msgMore;
      if !more {
        pipe.Flush();
        ring.PassTurn();
      }
    }

    /** sendpipe between messages. */
    method Begin(v: Value) returns (rc: int, pipe: Pipe?)
      requires Valid() && !more
      modifies this, ring, ring.pipes`items, ring.pipes.items`arrayIndex
      modifies ring.pipes.items`outgoing, ring.pipes.items`flushed
      ensures Valid()
      ensures (View(), AsOutcome(rc, pipe)) == L.Send(old(View()), v.more, old(Room()))
      ensures forall p | p in old(ring.pipes.items) ::
        p.Out() == L.OutAfter(old(View()), AsOutcome(rc, pipe), v, p, old(p.Out()))
    {
      pipe := Place(v, Room(), set p | p in ring.pipes.items);
      if pipe == null {
        return -1, null;
      }
      Complete(pipe, v.more);
      rc := 0;
    }

    /** sendpipe in the middle of a message: a full pipe takes back what it has of it. */
    method Continue(v: Value) returns (rc: int, pipe: Pipe?)
      requires Valid() && more && !dropping
      modifies this, ring, ring.pipes.items`outgoing, ring.pipes.items`flushed
      ensures Valid()
      ensures (View(), AsOutcome(rc, pipe)) == L.Send(old(View()), v.more, old(Room()))
      ensures forall p | p in old(ring.pipes.items) ::
        p.Out() == L.OutAfter(old(View()), AsOutcome(rc, pipe), v, p, old(p.Out()))
    {
      pipe := ring.pipes.items[ring.current];
      var written := pipe.Write(v);
      if !written {
        pipe.Rollback();
        more := false;
        return -1, null;
      }
      Complete(pipe, v.more);
      rc := 0;
    }

    /** sendpipe for a message whose pipe has gone: the frame is released. */
    method Discard(msg: Msg)
      requires Valid() && dropping
      requires Counted(msg.View()) && msg.shared ==> 1 <= msg.body.content.refcnt < COUNTER_MODULUS
      modifies this`more, this`dropping, msg, msg.Block()
      ensures Valid() && View() == L.Lb(ring.Turns(), old(msg.more), old(msg.more)) && msg.View() == Blank()
      ensures old(Counted(msg.View())) ==>
        var c := old(msg.body.content); c.View() == CloseCell(old(msg.shared), old(c.View()))
    {
      more := msg.more;
      dropping := more;
      var _ := msg.Close();
      msg.Init();
    }

    /** sendpipe. */
    method SendPipe(msg: Msg) returns (rc: int, pipe: Pipe?)
      requires Valid()
      requires Counted(msg.View()) && msg.shared ==> 1 <= msg.body.content.refcnt < COUNTER_MODULUS
      modifies this, ring, ring.pipes`items, ring.pipes.items`arrayIndex
      modifies ring.pipes.items`outgoing, ring.pipes.items`flushed, msg, msg.Block()
      ensures Valid()
      ensures (View(), AsOutcome(rc, pipe)) == L.Send(old(View()), old(msg.more), old(Room()))
      ensures forall p | p in old(ring.pipes.items) ::
        p.Out() == L.OutAfter(old(View()), AsOutcome(rc, pipe), old(msg.View()), p, old(p.Out()))
      ensures msg.View() == if rc == 0 then Blank() else old(msg.View())
      ensures old(Counted(msg.View())) ==>
        var c := old(msg.body.content);
        c.View() == if old(dropping) then CloseCell(old(msg.shared), old(c.View())) else old(c.View())
    {
      if dropping {
        Discard(msg);
        return 0, null;
      }
      if more {
        rc, pipe := Continue(msg.View());
      } else {
        rc, pipe := Begin(msg.View());
      }
      if rc == 0 {
        msg.Init();
      }
    }

    method HasOut() returns (has: bool)
      requires Valid()
      modifies ring, ring.pipes`items, ring.pipes.items`arrayIndex
      ensures Valid() && (View(), has) == L.HasOut(old(View()), old(Room()))
    {
      if more {
        return true;
      }
      ghost var before, room, all := ring.Turns(), Room(), ring.pipes.items;
      while ring.active > 0
        invariant ring.Valid()
        invariant Advance(ring.Turns(), room) == Advance(before, room)
        invariant forall i | 0 <= i < |ring.pipes.items| :: ring.pipes.items[i] in all
        decreases ring.active
      {
        var writable := ring.pipes.items[ring.current].CheckWrite();
        if writable {
          return true;
        }
        ring.Deactivate();
      }
      return false;
    }
  }
}
