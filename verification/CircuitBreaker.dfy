/** The circuit breaker under concurrent calls: a call is an admission step and, later, a recording
    step, with any other steps in between. */
module CircuitBreaker {
  import opened PeerKeys

  datatype Mode = Closed | Open | HalfOpen

  datatype Config = Config(maxFailures: Word32, resetTimeout: int, halfOpenMax: Word32)

  datatype Breaker = Breaker(mode: Mode, failures: Word32, lastFail: int, slots: Word32)

  predicate Proper(cfg: Config) {
    cfg.maxFailures > 0 && cfg.halfOpenMax > 0
  }

  // ----- One locked region at a time -----

  function Admit(cfg: Config, b: Breaker, now: int): (bool, Breaker) {
    match b.mode
    case Closed => (true, b)
    case Open =>
      if now - b.lastFail >= cfg.resetTimeout then (true, b.(mode := HalfOpen, slots := 0)) else (false, b)
    case HalfOpen =>
      if b.slots < cfg.halfOpenMax then (true, b.(slots := Moved(b.slots, 1))) else (false, b)
  }

  function Record(cfg: Config, b: Breaker, ok: bool, now: int): Breaker {
    if ok then
      match b.mode
      case Closed => b.(failures := 0)
      case Open => b
      case HalfOpen => if b.slots >= cfg.halfOpenMax then Breaker(Closed, 0, b.lastFail, 0) else b
    else
      var f := Moved(b.failures, 1);
      match b.mode
      case Closed => Breaker(if f >= cfg.maxFailures then Open else Closed, f, now, b.slots)
      case Open => b.(failures := f, lastFail := now)
      case HalfOpen => Breaker(Open, f, now, 0)
  }

  class CircuitBreaker {
    const cfg: Config
    var mode: Mode
    var failures: Word32
    var lastFail: int
    var slots: Word32

    ghost function View(): (b: Breaker)
      reads this
    {
      Breaker(mode, failures, lastFail, slots)
    }

    constructor (config: Config)
      ensures Proper(cfg) && View() == Breaker(Closed, 0, 0, 0)
      ensures config.maxFailures != 0 ==> cfg.maxFailures == config.maxFailures
      ensures config.halfOpenMax != 0 ==> cfg.halfOpenMax == config.halfOpenMax
      ensures config.resetTimeout != 0 ==> cfg.resetTimeout == config.resetTimeout
    {
      cfg := Config(
        if config.maxFailures == 0 then 5 else config.maxFailures,
        if config.resetTimeout == 0 then 30_000_000_000 else config.resetTimeout,
        if config.halfOpenMax == 0 then 3 else config.halfOpenMax);
      mode, failures, lastFail, slots := Closed, 0, 0, 0;
    }

    method CanExecute(now: int) returns (ok: bool)
      modifies this
      ensures (ok, View()) == Admit(cfg, old(View()), now)
    {
      match mode {
        case Closed =>
          ok := true;
        case Open =>
          ok := false;
          if now - lastFail >= cfg.resetTimeout {
            mode := HalfOpen;
            slots := 0;
            ok := true;
          }
        case HalfOpen =>
          ok := false;
          if slots < cfg.halfOpenMax {
            slots := Moved(slots, 1);
            ok := true;
          }
      }
    }

    method RecordResult(ok: bool, now: int)
      modifies this
      ensures View() == Record(cfg, old(View()), ok, now)
    {
      if ok {
        OnSuccess();
      } else {
        OnFailure(now);
      }
    }

    method OnSuccess()
      modifies this
      ensures View() == Record(cfg, old(View()), true, lastFail)
    {
      match mode {
        case Closed =>
          failures := 0;
        case HalfOpen =>
          if slots >= cfg.halfOpenMax {
            mode, failures, slots := Closed, 0, 0;
          }
        case Open =>
      }
    }

    method OnFailure(now: int)
      modifies this
      ensures View() == Record(cfg, old(View()), false, now)
    {
      failures := Moved(failures, 1);
      lastFail := now;
      match mode {
        case Closed =>
          if failures >= cfg.maxFailures {
            mode := Open;
          }
        case HalfOpen =>
          mode, slots := Open, 0;
        case Open =>
      }
    }

    method Reset()
      modifies this
      ensures View() == Breaker(Closed, 0, old(lastFail), 0)
    {
      mode, failures, slots := Closed, 0, 0;
    }
  }

  // ----- Concurrent calls -----

  datatype Note = Succeeded | Failed(at: int) | WasReset

  /** `inFlight` are the calls admitted and not yet recorded, `last` the call that took the last
      half-open slot, `episode` the calls admitted in the current half-open episode, `log` every
      recorded result in order. */
  datatype Sys = Sys(b: Breaker, inFlight: set<nat>, last: nat, episode: nat, log: seq<Note>)

  datatype Step =
    | Call(id: nat, now: int)
    | Return(id: nat, ok: bool, now: int)
    | Lost(id: nat)  // the call panics: it never records a result
    | ManualReset

  function Apply(cfg: Config, s: Sys, step: Step): Sys {
    match step
    case Call(id, now) =>
      var (ok, b) := Admit(cfg, s.b, now);
      if id in s.inFlight || !ok then s
      else Sys(b, s.inFlight + {id}, if b.mode == HalfOpen && b.slots == cfg.halfOpenMax then id else s.last,
               if b.mode != HalfOpen then s.episode else if s.b.mode == Open then 1 else s.episode + 1, s.log)
    case Return(id, ok, now) =>
      if id !in s.inFlight then s
      else s.(b := Record(cfg, s.b, ok, now), inFlight := s.inFlight - {id},
              log := s.log + [if ok then Succeeded else Failed(now)])
    case Lost(id) => s.(inFlight := s.inFlight - {id})
    case ManualReset =>
      s.(b := Breaker(Closed, 0, s.b.lastFail, 0), log := s.log + [WasReset])
  }

  function Run(cfg: Config, s: Sys, steps: seq<Step>): Sys {
    if steps == [] then s else Apply(cfg, Run(cfg, s, steps[..|steps| - 1]), steps[|steps| - 1])
  }

  const START := Sys(Breaker(Closed, 0, 0, 0), {}, 0, 0, [])

  /** The failures recorded since the last success or reset. */
  function CurrentFailures(log: seq<Note>): nat {
    if log == [] || !log[|log| - 1].Failed? then 0 else 1 + CurrentFailures(log[..|log| - 1])
  }

  /** When the last failure was recorded; zero, the initial value, if there was none. */
  function LastFailure(log: seq<Note>): int {
    if log == [] then 0
    else if log[|log| - 1].Failed? then log[|log| - 1].at
    else LastFailure(log[..|log| - 1])
  }

  ghost predicate Inv(cfg: Config, s: Sys) {
    && s.b.lastFail == LastFailure(s.log)
    && (s.b.mode == HalfOpen ==> s.b.slots <= cfg.halfOpenMax && s.episode == s.b.slots + 1)
    && (s.b.mode == Closed ==> s.b.failures < cfg.maxFailures && s.b.failures == CurrentFailures(s.log))
  }

  /** The call that took the last slot has yet to record its result. */
  ghost predicate LastPending(cfg: Config, s: Sys) {
    s.b.mode == HalfOpen && s.b.slots == cfg.halfOpenMax ==> s.last in s.inFlight
  }

  predicate NoneLost(steps: seq<Step>) {
    forall i :: 0 <= i < |steps| ==> !steps[i].Lost?
  }

  lemma LogGrows(log: seq<Note>, n: Note)
    ensures CurrentFailures(log + [n]) == if n.Failed? then CurrentFailures(log) + 1 else 0
    ensures LastFailure(log + [n]) == if n.Failed? then n.at else LastFailure(log)
  {
    assert (log + [n])[..|log|] == log;
  }

  lemma CallInv(cfg: Config, s: Sys, id: nat, now: int)
    requires Proper(cfg) && Inv(cfg, s)
    ensures Inv(cfg, Apply(cfg, s, Call(id, now)))
    ensures LastPending(cfg, s) ==> LastPending(cfg, Apply(cfg, s, Call(id, now)))
  {
    hide CurrentFailures, LastFailure;
  }

  lemma ReturnInv(cfg: Config, s: Sys, id: nat, ok: bool, now: int)
    requires Proper(cfg) && Inv(cfg, s)
    ensures Inv(cfg, Apply(cfg, s, Return(id, ok, now)))
    ensures LastPending(cfg, s) ==> LastPending(cfg, Apply(cfg, s, Return(id, ok, now)))
  {
    LogGrows(s.log, if ok then Succeeded else Failed(now));
    hide CurrentFailures, LastFailure;
  }

  lemma StepInv(cfg: Config, s: Sys, step: Step)
    requires Proper(cfg) && Inv(cfg, s)
    ensures Inv(cfg, Apply(cfg, s, step))
    ensures LastPending(cfg, s) && !step.Lost? ==> LastPending(cfg, Apply(cfg, s, step))
  {
    hide CurrentFailures, LastFailure, Admit, Record;
    match step
    case Call(id, now) => CallInv(cfg, s, id, now);
    case Return(id, ok, now) => ReturnInv(cfg, s, id, ok, now);
    case Lost(_) =>
    case ManualReset => LogGrows(s.log, WasReset);
  }

  lemma {:induction false} RunInv(cfg: Config, steps: seq<Step>)
    requires Proper(cfg)
    ensures Inv(cfg, Run(cfg, START, steps))
    ensures NoneLost(steps) ==> LastPending(cfg, Run(cfg, START, steps))
  {
    if steps != [] {
      RunInv(cfg, steps[..|steps| - 1]);
      StepInv(cfg, Run(cfg, START, steps[..|steps| - 1]), steps[|steps| - 1]);
    }
  }

  /** In every interleaving, with calls lost or not: a closed breaker has counted exactly the current
      run of failures, below its limit, and a half-open episode admits at most halfOpenMax + 1 calls. */
  lemma ClosedCountsCurrentRun(cfg: Config, steps: seq<Step>)
    requires Proper(cfg)
    ensures var s := Run(cfg, START, steps);
      && (s.b.mode == Closed ==> s.b.failures == CurrentFailures(s.log) < cfg.maxFailures)
      && (s.b.mode == HalfOpen ==> s.episode <= cfg.halfOpenMax + 1)
  {
    RunInv(cfg, steps);
  }

  // ----- When calls are refused, and when the mode changes -----

  /** Over every run: a call is refused exactly when the breaker is open and the last recorded failure is less than
      the timeout ago, or when it is half-open with every slot taken. A refused call changes nothing. */
  lemma RefusedIff(cfg: Config, steps: seq<Step>, id: nat, now: int)
    requires Proper(cfg) && id !in Run(cfg, START, steps).inFlight
    ensures
      var s := Run(cfg, START, steps);
      var e := Apply(cfg, s, Call(id, now));
      && (id !in e.inFlight <==>
            || (s.b.mode == Open && now < LastFailure(s.log) + cfg.resetTimeout)
            || (s.b.mode == HalfOpen && s.episode == cfg.halfOpenMax + 1))
      && (id !in e.inFlight ==> e == s)
  {
    RunInv(cfg, steps);
  }

  /** Over every run, what each step does to the mode. CLOSED opens exactly at the failure that completes a run of
      maxFailures; OPEN turns HALF_OPEN exactly at a call once the timeout is over; HALF_OPEN closes exactly at a
      success once halfOpenMax + 1 calls were admitted, and opens exactly at a failure. A reset closes. */
  lemma ModeChangesIff(cfg: Config, steps: seq<Step>, step: Step)
    requires Proper(cfg)
    ensures
      var s := Run(cfg, START, steps);
      var mode, mode' := s.b.mode, Apply(cfg, s, step).b.mode;
      var recorded := step.Return? && step.id in s.inFlight;
      && (mode == Closed ==>
            && mode' != HalfOpen
            && (mode' == Open <==> recorded && !step.ok && CurrentFailures(s.log) + 1 == cfg.maxFailures))
      && (mode == Open ==>
            && (mode' == Closed <==> step.ManualReset?)
            && (mode' == HalfOpen <==>
                  step.Call? && step.id !in s.inFlight && step.now >= LastFailure(s.log) + cfg.resetTimeout))
      && (mode == HalfOpen ==>
            && (mode' == Open <==> recorded && !step.ok)
            && (mode' == Closed <==> step.ManualReset? || (recorded && step.ok && s.episode == cfg.halfOpenMax + 1)))
  {
    RunInv(cfg, steps);
    hide Run, CurrentFailures, LastFailure;
  }

  /** Never wedged: as long as every call records its result, either the next call is admitted, or the
      breaker is open and its timeout is still running, or the call that took the last slot is still in
      flight and its result, good or bad, ends the half-open episode. */
  lemma NeverWedged(cfg: Config, steps: seq<Step>, now: int)
    requires Proper(cfg) && NoneLost(steps)
    ensures var s := Run(cfg, START, steps);
      || Admit(cfg, s.b, now).0
      || (s.b.mode == Open && now < s.b.lastFail + cfg.resetTimeout)
      || (s.b.mode == HalfOpen && s.last in s.inFlight
          && forall ok, t :: Apply(cfg, s, Return(s.last, ok, t)).b.mode != HalfOpen)
  {
    RunInv(cfg, steps);
  }

  // ----- Calls that never record a result -----

  /** Every slot of the episode is taken and nobody is left to end it. */
  predicate Wedged(cfg: Config, s: Sys) {
    s.b.mode == HalfOpen && s.b.slots == cfg.halfOpenMax && s.inFlight == {}
  }

  predicate CallsOnly(steps: seq<Step>) {
    forall i :: 0 <= i < |steps| ==> steps[i].Call? || steps[i].Return?
  }

  /** Some sequence of calls and returns gets a call admitted. */
  ghost predicate CanAdmit(cfg: Config, s: Sys) {
    exists more, now :: CallsOnly(more) && Admit(cfg, Run(cfg, s, more).b, now).0
  }

  lemma {:induction false} WedgedStays(cfg: Config, s: Sys, calls: seq<Step>)
    requires Wedged(cfg, s) && CallsOnly(calls)
    ensures Run(cfg, s, calls) == s
  {
    if calls != [] {
      WedgedStays(cfg, s, calls[..|calls| - 1]);
    }
  }

  /** After any run, with calls lost or not, some continuation of calls and returns gets a call admitted
      if and only if the breaker is not half-open with every slot taken and nothing in flight. */
  lemma RecoversIff(cfg: Config, steps: seq<Step>)
    requires Proper(cfg)
    ensures CanAdmit(cfg, Run(cfg, START, steps)) <==> !Wedged(cfg, Run(cfg, START, steps))
  {
    RunInv(cfg, steps);
    var s := Run(cfg, START, steps);
    hide START;
    if Wedged(cfg, s) {
      forall more, now | CallsOnly(more) ensures !Admit(cfg, Run(cfg, s, more).b, now).0 {
        WedgedStays(cfg, s, more);
      }
    } else if s.b.mode == HalfOpen && s.b.slots == cfg.halfOpenMax {
      var id :| id in s.inFlight;
      var more := [Return(id, true, 0)];
      RunOne(cfg, s, more[0]);
      assert CallsOnly(more) && Admit(cfg, Run(cfg, s, more).b, 0).0;
    } else {
      var now := s.b.lastFail + cfg.resetTimeout;
      assert Run(cfg, s, []) == s;
      assert CallsOnly([]) && Admit(cfg, Run(cfg, s, []).b, now).0;
    }
  }

  lemma RunOne(cfg: Config, s: Sys, step: Step)
    ensures Run(cfg, s, [step]) == Apply(cfg, s, step)
  {
    assert [step][..0] == [];
  }

  lemma RunMore(cfg: Config, s: Sys, steps: seq<Step>, step: Step)
    ensures Run(cfg, s, steps + [step]) == Apply(cfg, Run(cfg, s, steps), step)
  {
    assert (steps + [step])[..|steps|] == steps;
  }

  /** One call that fails at time zero. */
  lemma FailsOnce(cfg: Config, s: Sys)
    requires s.inFlight == {} && s.b.mode == Closed && s.b.failures < 0xFFFF_FFFF
    ensures
      var e := Apply(cfg, Apply(cfg, s, Call(0, 0)), Return(0, false, 0));
      && e.inFlight == {}
      && e.b == Breaker(if s.b.failures + 1 >= cfg.maxFailures then Open else Closed, s.b.failures + 1, 0, s.b.slots)
  {
  }

  lemma {:induction false} FailingCalls(cfg: Config, n: nat) returns (steps: seq<Step>)
    requires Proper(cfg) && n <= cfg.maxFailures
    ensures var s := Run(cfg, START, steps);
      s.inFlight == {} && s.b == Breaker(if n == cfg.maxFailures then Open else Closed, n, 0, 0)
    ensures NoneLost(steps)
  {
    if n == 0 {
      steps := [];
    } else {
      var f := FailingCalls(cfg, n - 1);
      hide Apply, Run;
      FailsOnce(cfg, Run(cfg, START, f));
      RunMore(cfg, START, f, Call(0, 0));
      RunMore(cfg, START, f + [Call(0, 0)], Return(0, false, 0));
      steps := f + [Call(0, 0)] + [Return(0, false, 0)];
    }
  }

  lemma {:induction false} SucceedingCalls(cfg: Config, n: nat) returns (steps: seq<Step>)
    requires Proper(cfg) && n < cfg.halfOpenMax
    ensures var s := Run(cfg, START, steps);
      s.inFlight == {} && s.b.mode == HalfOpen && s.b.slots == n
    ensures NoneLost(steps)
  {
    var t := cfg.resetTimeout;
    var f := [];
    if n == 0 {
      f := FailingCalls(cfg, cfg.maxFailures);
    } else {
      f := SucceedingCalls(cfg, n - 1);
    }
    RunMore(cfg, START, f, Call(0, t));
    RunMore(cfg, START, f + [Call(0, t)], Return(0, true, t));
    steps := f + [Call(0, t)] + [Return(0, true, t)];
  }

  /** Every breaker can be wedged by losing a single call: the one that takes the last slot. */
  lemma OneLossWedges(cfg: Config) returns (steps: seq<Step>)
    requires Proper(cfg)
    ensures NoneLost(steps) && Wedged(cfg, Run(cfg, START, steps + [Call(0, 0)] + [Lost(0)]))
  {
    steps := SucceedingCalls(cfg, cfg.halfOpenMax - 1);
    RunMore(cfg, START, steps, Call(0, 0));
    RunMore(cfg, START, steps + [Call(0, 0)], Lost(0));
  }
}
