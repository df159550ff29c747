/**
 * The pipe array with the counters `active` and `current`, as fq_t and lb_t both keep it.
 */
module RotationObjects {
  import opened Messages
  import opened Pipes
  import opened Rotation

  class PipeRing {
    const pipes: PipeArray
    var active: nat
    var current: nat

    ghost predicate Valid()
      reads this, pipes, pipes.items`arrayIndex
    {
      pipes.Valid() && Rotation.Valid(Turns())
    }

    ghost function Turns(): Ring<Pipe>
      reads this, pipes
    {
      Ring(pipes.items, active, current)
    }

    constructor ()
      ensures Valid() && fresh(pipes) && Turns() == Ring([], 0, 0)
    {
      pipes := new PipeArray();
      active, current := 0, 0;
    }

    method Attach(pipe: Pipe)
      requires Valid() && pipe !in pipes.items
      modifies this`active, pipes`items, pipes.items`arrayIndex, pipe`arrayIndex
      ensures Valid() && Turns() == Rotation.Attach(old(Turns()), pipe)
    {
      AttachItems(Turns(), pipe);
      pipes.Insert(pipe, active);
      active := active + 1;
    }

    /** Called for a passive pipe that has become usable again. */
    method Activated(pipe: Pipe)
      requires Valid() && pipe in pipes.items && pipes.Index(pipe) >= active
      modifies this`active, pipes`items, pipes.items`arrayIndex
      ensures Valid() && Turns() == Rotation.Activated(old(Turns()), pipe)
    {
      PositionIs(pipes.items, pipes.Index(pipe));
      ActivatedItems(Turns(), pipe);
      pipes.Swap(pipes.Index(pipe), active);
      active := active + 1;
    }

    /** The current pipe becomes passive. */
    method Deactivate()
      requires Valid() && active > 0
      modifies this`active, this`current, pipes`items, pipes.items`arrayIndex
      ensures Valid() && Turns() == Rotation.Deactivate(old(Turns()))
      ensures forall i | 0 <= i < |pipes.items| :: pipes.items[i] in old(pipes.items)
    {
      ghost var r := Rotation.Deactivate(Turns());
      active := active - 1;
      pipes.Swap(current, active);
      if current == active {
        current := 0;
      }
      assert Turns() == r;
    }

    method PassTurn()
      requires Valid() && active > 0
      modifies this`current
      ensures Valid() && Turns() == Next(old(Turns()))
    {
      current := (current + 1) % active;
    }

    method Remove(pipe: Pipe)
      requires Valid() && pipe in pipes.items
      modifies this`active, this`current, pipes`items, pipes.items`arrayIndex
      ensures Valid() && Turns() == Terminated(old(Turns()), pipe)
    {
      ghost var r := Terminated(Turns(), pipe);
      TerminatedItems(Turns(), pipe);
      RemoveItem(pipe);
      assert Turns() == r;
    }

    method RemoveItem(pipe: Pipe)
      requires Valid() && pipe in pipes.items
      modifies this`active, this`current, pipes`items, pipes.items`arrayIndex
      ensures pipes.Valid() && Turns() == Terminated(old(Turns()), pipe)
    {
      PositionIs(pipes.items, pipes.Index(pipe));
      ghost var s, i, n := pipes.items, pipes.Index(pipe), active;
      LeaveActive(pipe);
      pipes.Erase(pipe);
      assert pipes.items == Removed(s, i, n);
    }

    /** If the pipe is active, swaps it to the last active slot and shrinks the active region. */
    method LeaveActive(pipe: Pipe)
      requires Valid() && pipe in pipes.items
      modifies this`active, this`current, pipes`items, pipes.items`arrayIndex
      ensures pipes.Valid() && pipe in pipes.items
      ensures forall i | 0 <= i < |pipes.items| :: pipes.items[i] in old(pipes.items)
      ensures var i, n := old(pipes.Index(pipe)), old(active);
        && i < |old(pipes.items)| == |pipes.items|
        && pipes.items == (if i < n then Swapped(old(pipes.items), i, n - 1) else old(pipes.items))
        && pipes.Index(pipe) == (if i < n then n - 1 else i)
        && active == (if i < n then n - 1 else n)
        && current == if i < n && old(current) == n - 1 then 0 else old(current)
    {
      var index := pipes.Index(pipe);
      if index < active {
        active := active - 1;
        pipes.Swap(index, active);
        if current == active {
          current := 0;
        }
        assert pipes.items[active] == pipe;
      }
    }
  }
}
