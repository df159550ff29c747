/**
 * shared_message_memory_allocator (decoder_allocators.cpp): a reception buffer with a counter of its
 * users, which are the allocator itself and the zero-copy messages whose data lie in the buffer.
 *
 * Messages are closed by other threads at any time, so every access to a counter is a step of its own;
 * in particular allocate gives up its hold in one step and decides what to do in the next.
 */
module ReceiveBuffers {

  type BufferId = nat

  /** The counter at the head of a buffer, and how often the buffer has been freed. */
  datatype Buffer = Buffer(counter: int, frees: nat)

  /** Where the allocator is: holding its buffer or none, or between the two halves of allocate with a
      buffer that nobody uses. */
  datatype Phase = Holding(b: BufferId) | Empty | Reusing(b: BufferId)

  /** `live[b]` is the number of zero-copy messages on b that have not been closed, `uses[b]` how often b
      has been handed out for reception. */
  datatype State = State(
    buffers: map<BufferId, Buffer>,
    phase: Phase,
    live: map<BufferId, nat>,
    uses: map<BufferId, nat>)

  /** sub: true if the counter is not zero afterwards. */
  function Sub(x: Buffer): (Buffer, bool) {
    (x.(counter := x.counter - 1), x.counter - 1 != 0)
  }

  datatype Step =
    | AllocateDrop            // allocate: `c->sub (1)`, and release if somebody still uses the buffer
    | AllocateTake(b: BufferId)   // allocate: set the counter to 1, of the old buffer or a new one
    | IncRef                  // a zero-copy message is made on the current buffer
    | CallDecRef(b: BufferId) // the last handle of a zero-copy message on b is closed
    | Deallocate

  predicate Enabled(s: State, step: Step) {
    match step
    case AllocateDrop => s.phase.Holding? && s.phase.b in s.buffers
    case AllocateTake(b) =>
      if s.phase.Reusing? then b == s.phase.b && b in s.buffers && b in s.uses
      else s.phase.Empty? && b !in s.buffers
    case IncRef => s.phase.Holding? && s.phase.b in s.buffers && s.phase.b in s.live
    case CallDecRef(b) => b in s.buffers && b in s.live && s.live[b] > 0
    case Deallocate => !s.phase.Reusing? && (s.phase.Holding? ==> s.phase.b in s.buffers)
  }

  function Apply(s: State, step: Step): State
    requires Enabled(s, step)
  {
    match step
    case AllocateDrop =>
      var (x, used) := Sub(s.buffers[s.phase.b]);
      s.(buffers := s.buffers[s.phase.b := x], phase := if used then Empty else Reusing(s.phase.b))
    case AllocateTake(b) =>
      if s.phase.Reusing? then
        State(s.buffers[b := s.buffers[b].(counter := 1)], Holding(b), s.live, s.uses[b := s.uses[b] + 1])
      else
        State(s.buffers[b := Buffer(1, 0)], Holding(b), s.live[b := 0], s.uses[b := 1])
    case IncRef =>
      var b := s.phase.b;
      s.(buffers := s.buffers[b := s.buffers[b].(counter := s.buffers[b].counter + 1)],
         live := s.live[b := s.live[b] + 1])
    case CallDecRef(b) =>
      var (x, used) := Sub(s.buffers[b]);
      s.(buffers := s.buffers[b := if used then x else x.(frees := x.frees + 1)], live := s.live[b := s.live[b] - 1])
    case Deallocate =>
      if s.phase.Empty? then s
      else
        var (x, used) := Sub(s.buffers[s.phase.b]);
        s.(buffers := s.buffers[s.phase.b := if used then x else x.(frees := x.frees + 1)], phase := Empty)
  }

  /** 1 if the allocator holds b. */
  function Hold(s: State, b: BufferId): nat {
    if s.phase == Holding(b) then 1 else 0
  }

  /** The counter counts the users; a buffer is freed once, when it has none left, except that the
      allocator may be about to use it again. */
  predicate Sound(s: State, b: BufferId)
    requires b in s.buffers && b in s.live
  {
    && s.buffers[b].counter == Hold(s, b) + s.live[b]
    && s.buffers[b].frees == (if Hold(s, b) + s.live[b] == 0 && s.phase != Reusing(b) then 1 else 0)
    && (s.phase == Reusing(b) ==> s.live[b] == 0)
  }

  predicate Inv(s: State) {
    && s.live.Keys == s.buffers.Keys == s.uses.Keys
    && (!s.phase.Empty? ==> s.phase.b in s.buffers)
    && forall b | b in s.buffers :: Sound(s, b)
  }

  lemma StepSound(s: State, step: Step, b: BufferId)
    requires Inv(s) && Enabled(s, step) && b in Apply(s, step).buffers && b in Apply(s, step).live
    ensures Sound(Apply(s, step), b)
  {
    if b in s.buffers {
      assert Sound(s, b);
    }
    if s.phase.Holding? {
      assert Sound(s, s.phase.b);
    }
  }

  lemma StepKeeps(s: State, step: Step)
    requires Inv(s) && Enabled(s, step)
    ensures Inv(Apply(s, step))
  {
    var r := Apply(s, step);
    assert r.live.Keys == r.buffers.Keys == r.uses.Keys;
    forall b | b in r.buffers
      ensures Sound(r, b)
    {
      StepSound(s, step, b);
    }
  }

  ghost predicate Run(trace: seq<State>, steps: seq<Step>) {
    && |trace| == |steps| + 1 && trace[0] == State(map[], Empty, map[], map[])
    && forall i {:trigger steps[i]} | 0 <= i < |steps| ::
         Enabled(trace[i], steps[i]) && trace[i + 1] == Apply(trace[i], steps[i])
  }

  lemma {:induction false} RunKeeps(trace: seq<State>, steps: seq<Step>, k: nat)
    requires Run(trace, steps) && k < |trace|
    ensures Inv(trace[k])
    decreases k
  {
    if k > 0 {
      RunKeeps(trace, steps, k - 1);
      assert Enabled(trace[k - 1], steps[k - 1]);
      StepKeeps(trace[k - 1], steps[k - 1]);
    }
  }

  /** In every run: the counter of a buffer is the allocator's hold plus the live messages; a buffer with a
      live message is never freed; and one without users is freed exactly once unless it is reused. */
  lemma CountersAreExact(trace: seq<State>, steps: seq<Step>, k: nat, b: BufferId)
    requires Run(trace, steps) && k < |trace| && b in trace[k].buffers
    ensures var s := trace[k];
      && b in s.live
      && s.buffers[b].counter == Hold(s, b) + s.live[b]
      && (s.live[b] > 0 || s.phase == Holding(b) ==> s.buffers[b].frees == 0)
      && (s.live[b] == 0 && s.phase != Holding(b) && s.phase != Reusing(b) ==> s.buffers[b].frees == 1)
  {
    RunKeeps(trace, steps, k);
    assert Sound(trace[k], b);
  }

  /** A buffer is handed out again only when no message uses it and it has not been freed; and between the
      two halves of allocate nothing can happen to it. */
  lemma ReusedOnlyWhenFree(trace: seq<State>, steps: seq<Step>, k: nat, b: BufferId)
    requires Run(trace, steps) && k < |steps| && b in trace[k].uses
    ensures Inv(trace[k]) && Inv(trace[k + 1])
    ensures steps[k] == AllocateTake(b) ==>
      trace[k].phase == Reusing(b) && trace[k].live[b] == 0 && trace[k].buffers[b].frees == 0
    ensures trace[k].phase == Reusing(b) && steps[k] != AllocateTake(b) ==>
      b in trace[k + 1].uses && trace[k + 1].buffers[b] == trace[k].buffers[b] && trace[k + 1].phase == Reusing(b)
    ensures b in trace[k + 1].uses && (trace[k + 1].uses[b] > trace[k].uses[b] <==> steps[k] == AllocateTake(b))
  {
    RunKeeps(trace, steps, k);
    RunKeeps(trace, steps, k + 1);
    assert Enabled(trace[k], steps[k]);
    assert b in trace[k].buffers && Sound(trace[k], b);
  }

  /** The messages made on b in the first k steps, and those closed. */
  ghost function Made(trace: seq<State>, steps: seq<Step>, k: nat, b: BufferId): nat
    requires k <= |steps| && k <= |trace|
  {
    if k == 0 then 0
    else Made(trace, steps, k - 1, b) + if steps[k - 1] == IncRef && trace[k - 1].phase == Holding(b) then 1 else 0
  }

  function Closed(steps: seq<Step>, k: nat, b: BufferId): nat
    requires k <= |steps|
  {
    if k == 0 then 0 else Closed(steps, k - 1, b) + if steps[k - 1] == CallDecRef(b) then 1 else 0
  }

  lemma LiveStep(s: State, step: Step, b: BufferId)
    requires Inv(s) && Enabled(s, step)
    ensures var r := Apply(s, step);
      && (b in s.live ==> b in r.live)
      && (b in s.live ==>
            r.live[b] + (if step == CallDecRef(b) then 1 else 0)
            == s.live[b] + if step == IncRef && s.phase == Holding(b) then 1 else 0)
      && (b !in s.live ==> step != CallDecRef(b) && s.phase != Holding(b) && (b in r.live ==> r.live[b] == 0))
  {
  }

  /** In every run the live messages of a buffer are those made on it less those closed. */
  lemma {:induction false} LiveIsMadeLessClosed(trace: seq<State>, steps: seq<Step>, k: nat, b: BufferId)
    requires Run(trace, steps) && k < |trace|
    ensures Made(trace, steps, k, b) == Closed(steps, k, b) + if b in trace[k].live then trace[k].live[b] else 0
    decreases k
  {
    if k > 0 {
      LiveIsMadeLessClosed(trace, steps, k - 1, b);
      RunKeeps(trace, steps, k - 1);
      assert Enabled(trace[k - 1], steps[k - 1]);
      LiveStep(trace[k - 1], steps[k - 1], b);
    }
  }

  /** In every run allocate uses its buffer again exactly if no message on it is live, and gives it up otherwise; a
      buffer that has been allocated is held, one that has been deallocated is not; and nothing else changes this. */
  lemma PhasesExactly(trace: seq<State>, steps: seq<Step>, k: nat)
    requires Run(trace, steps) && k < |steps|
    ensures Inv(trace[k]) && trace[k + 1].phase ==
      match steps[k]
      case AllocateDrop =>
        if trace[k].phase.Holding? && trace[k].phase.b in trace[k].live && trace[k].live[trace[k].phase.b] == 0
        then Reusing(trace[k].phase.b) else Empty
      case AllocateTake(b) => Holding(b)
      case Deallocate => Empty
      case _ => trace[k].phase
  {
    RunKeeps(trace, steps, k);
    assert Enabled(trace[k], steps[k]);
    if steps[k].AllocateDrop? {
      assert Sound(trace[k], trace[k].phase.b);
    }
  }

  // ------------------------------------------------------------------ the allocator as an object

  class ReceiveBuffer {
    var counter: int
    var frees: nat

    ghost function View(): Buffer reads this {
      Buffer(counter, frees)
    }

    constructor ()
      ensures View() == Buffer(1, 0)
    {
      counter, frees := 1, 0;
    }
  }

  class SharedAllocator {
    var buf: ReceiveBuffer?
    var bufsize: nat
    var msgContent: nat
    const maxSize: nat

    constructor (bufsize: nat)
      ensures buf == null && this.bufsize == 0 && maxSize == bufsize
    {
      buf, this.bufsize, msgContent, maxSize := null, 0, 0, bufsize;
    }

    /** allocate, undisturbed: the old buffer is used again exactly if the allocator was its only user. */
    method Allocate()
      requires buf != null ==> buf.counter >= 1
      modifies this, buf
      ensures buf != null && buf.counter == 1 && bufsize == maxSize && msgContent == 0
      ensures old(buf) != null && old(buf.counter) == 1 ==> buf == old(buf) && buf.frees == old(buf.frees)
      ensures old(buf) == null || old(buf.counter) > 1 ==> fresh(buf) && buf.frees == 0
      ensures old(buf) != null && old(buf.counter) > 1 ==> old(buf).View() == Sub(old(buf.View())).0
    {
      if buf != null {
        buf.counter := buf.counter - 1;
        if buf.counter != 0 {
          Release();
        }
      }
      if buf == null {
        buf := new ReceiveBuffer();
      } else {
        buf.counter := 1;
      }
      bufsize := maxSize;
      msgContent := 0;
    }

    method Release()
      modifies this
      ensures buf == null && bufsize == 0 && msgContent == 0
    {
      buf, bufsize, msgContent := null, 0, 0;
    }

    /** deallocate: the buffer is freed if nobody else uses it. */
    method Deallocate()
      requires buf != null ==> buf.counter >= 1
      modifies this, buf
      ensures buf == null && bufsize == 0
      ensures old(buf) != null && old(buf.counter) == 1 ==> old(buf).View() == Buffer(0, old(buf.frees) + 1)
      ensures old(buf) != null && old(buf.counter) > 1 ==> old(buf).View() == Sub(old(buf.View())).0
    {
      if buf != null {
        buf.counter := buf.counter - 1;
        if buf.counter == 0 {
          buf.frees := buf.frees + 1;
        }
      }
      Release();
    }

    method IncRef()
      requires buf != null
      modifies buf
      ensures buf.View() == Buffer(old(buf.counter) + 1, old(buf.frees))
    {
      buf.counter := buf.counter + 1;
    }

    /** Called when the last handle of a zero-copy message is closed. */
    static method CallDecRef(b: ReceiveBuffer)
      requires b.counter >= 1
      modifies b
      ensures b.View() == if old(b.counter) == 1 then Buffer(0, old(b.frees) + 1) else Sub(old(b.View())).0
    {
      b.counter := b.counter - 1;
      if b.counter == 0 {
        b.frees := b.frees + 1;
      }
    }
  }
}
