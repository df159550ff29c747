/**
 own_t and the command half of object_t as objects that update their fields in place.

 Every handler is proved equal to the handler function of module Ownership on the object's
 abstract value, so the theorems about runs of those functions are about these methods. The
 source's assertions are preconditions here; that they hold in every run is a theorem there.
 */
module OwnObjects {
  import opened Wrappers
  import opened Ownership

  newtype uint32 = x: int | 0 <= x < 0x1_0000_0000
  newtype uint64 = x: int | 0 <= x < 0x1_0000_0000_0000_0000

  /** The mailboxes behind ctx_t::send_command, one queue per destination. */
  class Mailboxes {
    var queues: Mail

    method SendCommand(to: nat, cmd: Command)
      requires to < |queues|
      modifies this
      ensures queues == Send(old(queues), to, cmd)
    {
      queues := queues[to := queues[to] + [cmd]];
    }
  }

  class OwnObject {
    const self: nat
    const slots: Mailboxes
    const linger: int

    var terminating: bool
    var sentSeqnum: uint32
    var processedSeqnum: uint64
    var owner: Option<nat>
    var owned: set<nat>
    var termAcks: int
    var destroyed: bool

    /** How often sent_seqnum was incremented; the counter itself wraps. */
    ghost var increments: nat

    ghost predicate Valid()
      reads this, slots
    {
      && sentSeqnum as int == increments % SEQNUM_MODULUS
      && self < |slots.queues|
      && Named(View())
      && (terminating ==> owned == {})
    }

    ghost function View(): Cell
      reads this, slots
    {
      Cell(
        Node(terminating, increments, processedSeqnum as nat, owner, owned, termAcks, linger, destroyed),
        slots.queues,
        true)
    }

    constructor (self: nat, slots: Mailboxes, linger: int)
      requires self < |slots.queues|
      ensures Valid() && View() == Cell(NewNode(None, linger, 0), slots.queues, true)
      ensures this.self == self && this.slots == slots
    {
      this.self := self;
      this.slots := slots;
      this.linger := linger;
      terminating, sentSeqnum, processedSeqnum, owner, owned, termAcks := false, 0, 0, None, {}, 0;
      destroyed := false;
      increments := 0;
    }

    method SetOwner(owner: nat)
      requires Valid() && this.owner.None? && owner < |slots.queues|
      modifies this`owner
      ensures Valid() && View() == old(View()).(node := old(View()).node.(owner := Some(owner)))
    {
      this.owner := Some(owner);
    }

    method IncSeqnum()
      requires Valid()
      modifies this`sentSeqnum, this`increments
      ensures Valid() && View() == old(View()).(node := old(View()).node.(sent := old(View()).node.sent + 1))
    {
      sentSeqnum := if sentSeqnum == 0xFFFF_FFFF then 0 else sentSeqnum + 1;
      increments := increments + 1;
    }

    method ProcessDestroy()
      modifies this`destroyed
      ensures destroyed
    {
      destroyed := true;
    }

    method CheckTermAcks()
      requires Valid() && !destroyed
      modifies this`destroyed, slots
      ensures Valid() && View() == Ownership.CheckTermAcks(old(View()))
    {
      if terminating && processedSeqnum as int == sentSeqnum as int && termAcks == 0 {
        if owner.Some? {
          slots.SendCommand(owner.value, TermAck);
        }
        ProcessDestroy();
      }
    }

    method ProcessSeqnum()
      requires Valid() && !destroyed && processedSeqnum < 0xFFFF_FFFF_FFFF_FFFF
      modifies this`processedSeqnum, this`destroyed, slots
      ensures Valid() && View() == Ownership.ProcessSeqnum(old(View()))
    {
      processedSeqnum := processedSeqnum + 1;
      CheckTermAcks();
    }

    method RegisterTermAcks(count: int)
      requires Valid()
      modifies this`termAcks
      ensures Valid() && View() == old(View()).(node := old(View()).node.(termAcks := old(termAcks) + count))
    {
      termAcks := termAcks + count;
    }

    method UnregisterTermAck()
      requires Valid() && !destroyed && termAcks > 0
      modifies this`termAcks, this`destroyed, slots
      ensures Valid() && View() == Ownership.UnregisterTermAck(old(View()))
    {
      termAcks := termAcks - 1;
      CheckTermAcks();
    }

    method ProcessTermAck()
      requires Valid() && !destroyed && termAcks > 0
      modifies this`termAcks, this`destroyed, slots
      ensures Valid() && View() == Ownership.UnregisterTermAck(old(View()))
    {
      UnregisterTermAck();
    }

    method ProcessTermReq(child: nat)
      requires Valid()
      modifies this`owned, this`termAcks, slots
      ensures Valid() && View() == Ownership.ProcessTermReq(old(View()), child)
    {
      if terminating {
        return;
      }
      if child !in owned {
        return;
      }
      owned := owned - {child};
      RegisterTermAcks(1);
      slots.SendCommand(child, Term(linger));
    }

    method TermChild(child: nat)
      requires Valid()
      modifies this`owned, this`termAcks, slots
      ensures Valid() && View() == Ownership.ProcessTermReq(old(View()), child)
    {
      ProcessTermReq(child);
    }

    method ProcessOwn(child: nat)
      requires Valid() && child < |slots.queues|
      modifies this`owned, this`termAcks, slots
      ensures Valid() && View() == Ownership.ProcessOwn(old(View()), child)
    {
      if terminating {
        RegisterTermAcks(1);
        slots.SendCommand(child, Term(0));
        return;
      }
      owned := owned + {child};
    }

    /** Reaches every owned object, in whatever order the set is walked. */
    method ProcessTerm(linger: int)
      requires Valid() && !destroyed && !terminating
      modifies this`terminating, this`owned, this`termAcks, this`destroyed, slots
      ensures Valid() && View() == Ownership.ProcessTerm(old(View()), linger)
    {
      var rest := owned;
      while rest != {}
        invariant rest <= owned && owned == old(owned)
          && slots.queues == SendAll(old(slots.queues), owned - rest, Term(linger))
        invariant Valid() && termAcks == old(termAcks) && !terminating && !destroyed
        decreases rest
      {
        var child :| child in rest;
        slots.SendCommand(child, Term(linger));
        rest := rest - {child};
      }
      RegisterTermAcks(|owned|);
      owned := {};
      terminating := true;
      CheckTermAcks();
    }

    method Terminate()
      requires Valid() && !destroyed
      modifies this`terminating, this`owned, this`termAcks, this`destroyed, slots
      ensures Valid() && View() == TerminateSelf(old(View()), self)
    {
      if terminating {
        return;
      }
      if owner.None? {
        ProcessTerm(linger);
        return;
      }
      slots.SendCommand(owner.value, TermReq(self));
    }

    method SendPlug(destination: OwnObject)
      requires Valid() && destination.Valid() && destination.slots == slots
      modifies destination`sentSeqnum, destination`increments, slots
      ensures destination.increments == old(destination.increments) + 1
      ensures destination.sentSeqnum as int == destination.increments % SEQNUM_MODULUS
      ensures slots.queues == Send(old(slots.queues), destination.self, Plug)
    {
      destination.IncSeqnum();
      slots.SendCommand(destination.self, Plug);
    }

    method SendOwn(destination: OwnObject, child: nat)
      requires Valid() && destination.Valid() && destination.slots == slots && child < |slots.queues|
      modifies destination`sentSeqnum, destination`increments, slots
      ensures destination.increments == old(destination.increments) + 1
      ensures destination.sentSeqnum as int == destination.increments % SEQNUM_MODULUS
      ensures slots.queues == Send(old(slots.queues), destination.self, Own(child))
    {
      destination.IncSeqnum();
      slots.SendCommand(destination.self, Own(child));
    }

    /** The child learns its owner and is plugged in before the owner hears of it. */
    method LaunchChild(child: OwnObject)
      requires Valid() && child.Valid() && child.slots == slots && child != this && child.owner.None?
      modifies this`sentSeqnum, this`increments, child`owner, child`sentSeqnum, child`increments, slots
      ensures Valid() && child.Valid()
      ensures slots.queues == Send(Send(old(slots.queues), child.self, Plug), self, Own(child.self))
      ensures View().node == old(View()).node.(sent := old(increments) + 1)
      ensures child.View().node == old(child.View()).node.(owner := Some(self), sent := old(child.increments) + 1)
    {
      child.SetOwner(self);
      SendPlug(child);
      SendOwn(this, child.self);
    }

    /** object_t::process_command for the commands an own_t answers. */
    method ProcessCommand(cmd: Command)
      requires Valid() && !destroyed && CommandNamed(cmd, |slots.queues|)
      requires processedSeqnum < 0xFFFF_FFFF_FFFF_FFFF
      requires cmd.Term? ==> !terminating
      requires cmd.TermAck? ==> termAcks > 0
      modifies this`terminating, this`processedSeqnum, this`owned, this`termAcks, this`destroyed, slots
      ensures Valid() && View() == Ownership.ProcessCommand(old(View()), cmd)
    {
      match cmd
      case Own(c) => {
        ProcessOwn(c);
        ProcessSeqnum();
      }
      case TermReq(c) => ProcessTermReq(c);
      case Term(l) => ProcessTerm(l);
      case TermAck => ProcessTermAck();
      case _ => ProcessSeqnum();
    }
  }
}
