/** The asynchronous write buffer: many producers, one drain goroutine, and Flush. */
module BufferedWrites {

  /** The drain goroutine: in its select loop, emptying the queue after stop, or returned. */
  datatype Phase = Draining | Finishing | Exited

  /** `accepted` and `handed` are the writes that entered the queue and that reached `execute`, in
      order; `flushes` are the Flush calls that have begun, and `sealed` is how many writes had been
      accepted when the drain goroutine returned. */
  datatype Sys<Op> = Sys(
    queue: seq<Op>, accepted: seq<Op>, handed: seq<Op>, offered: nat, dropped: nat,
    stopped: bool, phase: Phase, sealed: nat, flushes: set<nat>)

  datatype Step<Op> =
    | Offer(op: Op)        // any producer
    | Take                 // the drain goroutine receives one write and executes it
    | SeeStop              // the drain goroutine picks the stop case of its select
    | Leave                // the drain goroutine finds the queue empty after stop
    | BeginFlush(id: nat)
    | EndFlush(id: nat)

  predicate Enabled<Op>(s: Sys<Op>, step: Step<Op>) {
    match step
    case Offer(_) => true
    case Take => s.phase != Exited && s.queue != []
    case SeeStop => s.stopped && s.phase == Draining
    case Leave => s.phase == Finishing && s.queue == []
    case BeginFlush(id) => id !in s.flushes
    case EndFlush(id) => id in s.flushes && s.phase == Exited
  }

  function Apply<Op>(cap: nat, s: Sys<Op>, step: Step<Op>): Sys<Op>
    requires Enabled(s, step)
  {
    match step
    case Offer(op) =>
      if |s.queue| < cap
      then s.(queue := s.queue + [op], accepted := s.accepted + [op], offered := s.offered + 1)
      else s.(dropped := s.dropped + 1, offered := s.offered + 1)
    case Take => s.(queue := s.queue[1..], handed := s.handed + [s.queue[0]])
    case SeeStop => s.(phase := Finishing)
    case Leave => s.(phase := Exited, sealed := |s.accepted|)
    case BeginFlush(id) => s.(stopped := true, flushes := s.flushes + {id})
    case EndFlush(id) => s
  }

  ghost predicate IsRun<Op>(cap: nat, states: seq<Sys<Op>>, steps: seq<Step<Op>>) {
    && |states| == |steps| + 1
    && forall i :: 0 <= i < |steps| ==> Enabled(states[i], steps[i]) && states[i + 1] == Apply(cap, states[i], steps[i])
  }

  function Start<Op>(): Sys<Op> {
    Sys([], [], [], 0, 0, false, Draining, 0, {})
  }

  ghost predicate Inv<Op>(cap: nat, s: Sys<Op>) {
    && s.accepted == s.handed + s.queue
    && |s.queue| <= cap
    && s.offered == |s.accepted| + s.dropped
    && (s.phase != Draining ==> s.stopped)
    && (s.phase == Exited ==> |s.handed| == s.sealed)
  }

  lemma StepInv<Op>(cap: nat, s: Sys<Op>, step: Step<Op>)
    requires Inv(cap, s) && Enabled(s, step)
    ensures Inv(cap, Apply(cap, s, step))
  {
  }

  lemma {:induction false} RunInv<Op>(cap: nat, states: seq<Sys<Op>>, steps: seq<Step<Op>>, i: nat)
    requires IsRun(cap, states, steps) && states[0] == Start() && i < |states|
    ensures Inv(cap, states[i])
  {
    if i > 0 {
      RunInv(cap, states, steps, i - 1);
      StepInv(cap, states[i - 1], steps[i - 1]);
    }
  }

  /** At every point of every interleaving the writes handed over are exactly a prefix of the accepted
      ones, the rest is still queued, and every offered write was either accepted or counted as
      dropped. */
  lemma HandedInOrder<Op>(cap: nat, states: seq<Sys<Op>>, steps: seq<Step<Op>>, i: nat)
    requires IsRun(cap, states, steps) && states[0] == Start() && i < |states|
    ensures var s := states[i];
      && s.handed <= s.accepted && s.accepted[|s.handed|..] == s.queue
      && s.offered == |s.accepted| + s.dropped
  {
    RunInv(cap, states, steps, i);
  }

  lemma {:induction false} Persists<Op>(cap: nat, states: seq<Sys<Op>>, steps: seq<Step<Op>>, i: nat, j: nat)
    requires IsRun(cap, states, steps) && i <= j < |states|
    ensures states[i].accepted <= states[j].accepted && states[i].handed <= states[j].handed
    ensures states[i].phase == Exited ==>
      states[j].phase == Exited && states[j].sealed == states[i].sealed && states[j].handed == states[i].handed
    decreases j
  {
    if i < j {
      Persists(cap, states, steps, i, j - 1);
      assert Enabled(states[j - 1], steps[j - 1]);
    }
  }

  /** Flush keeps its promise exactly when it should: if a Flush begins at step i and returns at step
      j, all writes accepted before step i have been handed over by then if and only if none of them was
      accepted after the drain goroutine had returned. */
  lemma FlushDrainsIff<Op>(cap: nat, states: seq<Sys<Op>>, steps: seq<Step<Op>>, i: nat, j: nat, id: nat)
    requires IsRun(cap, states, steps) && states[0] == Start()
    requires i < j < |steps| && steps[i] == BeginFlush(id) && steps[j] == EndFlush(id)
    ensures states[i].accepted <= states[j].handed
            <==> !(states[i].phase == Exited && |states[i].accepted| > states[i].sealed)
  {
    assert Enabled(states[i], steps[i]) && states[i + 1] == Apply(cap, states[i], steps[i]);
    assert Enabled(states[j], steps[j]);
    RunInv(cap, states, steps, i);
    RunInv(cap, states, steps, j);
    Persists(cap, states, steps, i, j);
    if states[i].phase != Exited {
      FlushBeforeExit(cap, states, steps, i, j, id);
    }
  }

  lemma {:induction false} FlushBeforeExit<Op>(
    cap: nat, states: seq<Sys<Op>>, steps: seq<Step<Op>>, i: nat, j: nat, id: nat)
    requires IsRun(cap, states, steps) && states[0] == Start() && i < j < |states|
    requires steps[i] == BeginFlush(id) && states[i].phase != Exited && states[j].phase == Exited
    ensures |states[i].accepted| <= |states[j].handed|
    decreases j
  {
    assert Enabled(states[j - 1], steps[j - 1]) && states[j] == Apply(cap, states[j - 1], steps[j - 1]);
    if states[j - 1].phase == Exited {
      assert j - 1 > i;
      FlushBeforeExit(cap, states, steps, i, j - 1, id);
      Persists(cap, states, steps, j - 1, j);
    } else {
      RunInv(cap, states, steps, j);
      Persists(cap, states, steps, i, j - 1);
    }
  }

  /** A write that enters the queue after the drain goroutine has returned is never handed over, however
      the run goes on. */
  lemma LateWritesStranded<Op>(cap: nat, states: seq<Sys<Op>>, steps: seq<Step<Op>>, i: nat, j: nat)
    requires IsRun(cap, states, steps) && states[0] == Start() && i < j < |states|
    requires states[i].phase == Exited && steps[i].Offer? && |states[i].queue| < cap
    ensures |states[j].handed| <= |states[i].accepted| < |states[i + 1].accepted| <= |states[j].accepted|
  {
    assert states[i + 1] == Apply(cap, states[i], steps[i]);
    RunInv(cap, states, steps, i);
    Persists(cap, states, steps, i, j);
    Persists(cap, states, steps, i + 1, j);
  }

  // ----- The code of one locked queue operation -----

  class BufferedDB<Op> {
    const cap: nat
    var queue: seq<Op>
    var dropped: nat
    ghost var handed: seq<Op>

    constructor (bufCap: int)
      ensures queue == [] && dropped == 0 && handed == []
      ensures cap == if bufCap <= 0 then 4096 else bufCap
    {
      cap := if bufCap <= 0 then 4096 else bufCap;
      queue, dropped, handed := [], 0, [];
    }

    /** A non-blocking send: full queues drop the write and count it. */
    method Enqueue(op: Op)
      modifies this`queue, this`dropped
      ensures if |old(queue)| < cap
        then queue == old(queue) + [op] && dropped == old(dropped)
        else queue == old(queue) && dropped == old(dropped) + 1
    {
      if |queue| < cap {
        queue := queue + [op];
      } else {
        dropped := dropped + 1;
      }
    }

    /** The loop of the stop case: execute until the queue is empty. */
    method DrainRest()
      modifies this`queue, this`handed
      ensures queue == [] && handed == old(handed) + old(queue)
    {
      while |queue| > 0
        invariant handed + queue == old(handed) + old(queue)
        decreases |queue|
      {
        handed := handed + [queue[0]];
        queue := queue[1..];
      }
    }
  }
}
