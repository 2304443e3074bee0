/** The per-node replica lifecycle: the transition table, agent reports, forced eviction and the
    directive queue, as atomic steps with a history. */
module Replicas {

  datatype State =
    | Absent | Requested | Swarming | BTComplete | HashVerify | Verified | Seeding | Invalid | Purge

  datatype Class = Ephemeral | Cache | Standard | Pinned | Archival

  datatype Key = Key(node: nat, hash: string)

  datatype Replica = Replica(cls: Class, state: State)

  datatype Directive = JoinSwarm(key: Key) | RetireReplica(key: Key)

  const QUEUE_CAP := 256

  // ----- The transition table -----

  predicate Permitted(s: State, next: State) {
    match s
    case Absent => next == Requested
    case Requested => next == Swarming || next == Absent
    case Swarming => next == BTComplete || next == Absent
    case BTComplete => next == HashVerify
    case HashVerify => next == Verified || next == Invalid
    case Verified => next == Seeding || next == Invalid
    case Seeding => next == Invalid || next == Absent
    case Invalid => next == Purge
    case Purge => next == Absent
  }

  predicate CountsAsVerified(s: State) {
    s == Verified || s == Seeding
  }

  predicate CountsTowardSLA(c: Class) {
    c == Standard || c == Pinned
  }

  function Rank(c: Class): nat {
    match c case Ephemeral => 0 case Cache => 1 case Standard => 2 case Pinned => 3 case Archival => 4
  }

  // ----- History -----

  datatype Event =
    | Entered(key: Key, state: State)
    | HashOk(key: Key)        // an agent reported hash_ok while the replica was in HASH_VERIFY
    | Joined(key: Key)        // JOIN_SWARM was queued
    | Retired(key: Key)       // RETIRE_REPLICA was queued

  /** Replicas, the queue of undelivered directives, and everything that happened. */
  datatype World = World(replicas: map<Key, Replica>, queue: seq<Directive>, log: seq<Event>)

  function StateOf(w: World, k: Key): State {
    if k in w.replicas then w.replicas[k].state else Absent
  }

  datatype Mark = At(state: State) | GotHashOk | GotJoin

  /** One more event of the same replica. */
  function Extended(t: seq<Mark>, e: Event): seq<Mark> {
    match e
    case Entered(_, s) => if s == Absent then [] else t + [At(s)]
    case HashOk(_) => t + [GotHashOk]
    case Joined(_) => t + [GotJoin]
    case Retired(_) => t
  }

  /** What happened to replica `k` since it was last ABSENT. */
  function Trail(log: seq<Event>, k: Key): seq<Mark> {
    if log == [] then []
    else
      var t, e := Trail(log[..|log| - 1], k), log[|log| - 1];
      if e.key == k then Extended(t, e) else t
  }

  // ----- Atomic steps -----

  datatype AgentState = SwarmingReport | CompleteReport | SeedingReport | InvalidReport | OtherReport
  datatype HashResult = HashGood | HashBad | HashNone

  datatype Step =
    | Ensure(key: Key, cls: Class)                     // create if missing; if ABSENT, request and queue a JOIN
    | Report(key: Key, agent: AgentState, hash: HashResult)
    | Evict(key: Key)                                  // force-evict and queue a RETIRE if there is room
    | Retire(key: Key)                                 // queue a RETIRE if there is room
    | Upgrade(key: Key, cls: Class)
    | Deliver                                          // the transport takes one directive

  function Create(w: World, k: Key, cls: Class): World {
    if k in w.replicas then w else w.(replicas := w.replicas[k := Replica(cls, Absent)])
  }

  /** A permitted transition; anything else leaves the replica as it is. */
  function Transition(w: World, k: Key, next: State): World {
    if k in w.replicas && Permitted(w.replicas[k].state, next) then
      w.(replicas := w.replicas[k := w.replicas[k].(state := next)], log := w.log + [Entered(k, next)])
    else w
  }

  function Send(w: World, d: Directive): World {
    if |w.queue| < QUEUE_CAP then
      w.(queue := w.queue + [d], log := w.log + [if d.JoinSwarm? then Joined(d.key) else Retired(d.key)])
    else w
  }

  /** Request the replica and queue its JOIN; on back-pressure go back to ABSENT. */
  function Request(w: World, k: Key): World {
    var w' := Transition(w, k, Requested);
    if |w'.queue| < QUEUE_CAP then Send(w', JoinSwarm(k)) else Transition(w', k, Absent)
  }

  function Reported(w: World, k: Key, agent: AgentState, hash: HashResult): World {
    if k !in w.replicas then w
    else
      var current := w.replicas[k].state;
      match agent
      case SwarmingReport => if current == Requested then Transition(w, k, Swarming) else w
      case CompleteReport =>
        if current == Swarming then Transition(w, k, BTComplete)
        else if current == BTComplete then Transition(w, k, HashVerify)
        else w
      case SeedingReport =>
        if current == HashVerify then
          match hash
          case HashGood => Transition(Transition(w.(log := w.log + [HashOk(k)]), k, Verified), k, Seeding)
          case HashBad => Transition(w, k, Invalid)
          case HashNone => w
        else if current == Verified then Transition(w, k, Seeding)
        else w
      case InvalidReport =>
        if current != Absent && current != Purge then Transition(w, k, Invalid) else w
      case OtherReport => w
  }

  function Evicted(w: World, k: Key): World {
    if CountsAsVerified(StateOf(w, k)) then
      Send(w.(replicas := w.replicas[k := w.replicas[k].(state := Absent)], log := w.log + [Entered(k, Absent)]),
           RetireReplica(k))
    else w
  }

  function Apply(w: World, step: Step): World {
    match step
    case Ensure(k, cls) => if StateOf(w, k) == Absent then Request(Create(w, k, cls), k) else w
    case Report(k, agent, hash) => Reported(w, k, agent, hash)
    case Evict(k) => Evicted(w, k)
    case Retire(k) => Send(w, RetireReplica(k))
    case Upgrade(k, cls) =>
      if k in w.replicas && Rank(cls) > Rank(w.replicas[k].cls)
      then w.(replicas := w.replicas[k := w.replicas[k].(cls := cls)]) else w
    case Deliver => if w.queue == [] then w else w.(queue := w.queue[1..])
  }

  function Run(w: World, steps: seq<Step>): World {
    if steps == [] then w else Apply(Run(w, steps[..|steps| - 1]), steps[|steps| - 1])
  }

  const START := World(map[], [], [])

  // ----- What the trail of each state must be -----

  const TO_HASH: seq<Mark> := [At(Requested), GotJoin, At(Swarming), At(BTComplete), At(HashVerify)]

  ghost predicate Fits(s: State, t: seq<Mark>) {
    match s
    case Absent => t == []
    case Requested => t == TO_HASH[..2]
    case Swarming => t == TO_HASH[..3]
    case BTComplete => t == TO_HASH[..4]
    case HashVerify => t == TO_HASH
    case Verified => t == TO_HASH + [GotHashOk, At(Verified)]
    case Seeding => t == TO_HASH + [GotHashOk, At(Verified), At(Seeding)]
    case Invalid => TO_HASH <= t
    case Purge => false
  }

  lemma TrailGrows(log: seq<Event>, e: Event, k: Key)
    ensures Trail(log + [e], k) == if e.key == k then Extended(Trail(log, k), e) else Trail(log, k)
  {
    assert (log + [e])[..|log|] == log;
  }

  /** The invariant of one replica. */
  ghost predicate Good(w: World, k: Key) {
    Fits(StateOf(w, k), Trail(w.log, k))
  }

  lemma TransitionTrail(w: World, k: Key, next: State, j: Key)
    ensures var w' := Transition(w, k, next);
      var moves := k in w.replicas && Permitted(w.replicas[k].state, next);
      && StateOf(w', j) == (if j == k && moves then next else StateOf(w, j))
      && Trail(w'.log, j) == (if j == k && moves then Extended(Trail(w.log, j), Entered(k, next)) else Trail(w.log, j))
      && w'.queue == w.queue && w'.replicas.Keys == w.replicas.Keys
  {
    TrailGrows(w.log, Entered(k, next), j);
  }

  lemma SendTrail(w: World, d: Directive, j: Key)
    ensures var w' := Send(w, d);
      && w'.replicas == w.replicas
      && Trail(w'.log, j) ==
         (if j == d.key && d.JoinSwarm? && |w.queue| < QUEUE_CAP then Trail(w.log, j) + [GotJoin] else Trail(w.log, j))
  {
    TrailGrows(w.log, if d.JoinSwarm? then Joined(d.key) else Retired(d.key), j);
  }

  lemma EnsureGood(w: World, k: Key, cls: Class, j: Key)
    requires Good(w, j)
    ensures Good(Apply(w, Ensure(k, cls)), j)
  {
    hide Trail, Transition, Send;
    if StateOf(w, k) == Absent {
      var w0 := Create(w, k, cls);
      var w1 := Transition(w0, k, Requested);
      assert StateOf(w0, j) == StateOf(w, j) && StateOf(w0, k) == Absent;
      TransitionTrail(w0, k, Requested, j);
      TransitionTrail(w0, k, Requested, k);
      if |w1.queue| < QUEUE_CAP {
        SendTrail(w1, JoinSwarm(k), j);
      } else {
        TransitionTrail(w1, k, Absent, j);
      }
    }
  }

  /** A single forward move that is not a verification. */
  lemma MoveGood(w: World, k: Key, next: State, j: Key)
    requires Good(w, j) && k in w.replicas
    requires next in {Swarming, BTComplete, HashVerify, Invalid} || (next == Seeding && w.replicas[k].state == Verified)
    ensures Good(Transition(w, k, next), j)
  {
    TransitionTrail(w, k, next, j);
    hide Trail, Transition;
  }

  lemma HashGoodGood(w: World, k: Key, j: Key)
    requires Good(w, j) && k in w.replicas && w.replicas[k].state == HashVerify
    ensures Good(Transition(Transition(w.(log := w.log + [HashOk(k)]), k, Verified), k, Seeding), j)
  {
    var w1 := w.(log := w.log + [HashOk(k)]);
    var w2 := Transition(w1, k, Verified);
    TrailGrows(w.log, HashOk(k), j);
    TransitionTrail(w1, k, Verified, j);
    TransitionTrail(w2, k, Seeding, j);
    hide Trail;
  }

  lemma ReportGood(w: World, k: Key, agent: AgentState, hash: HashResult, j: Key)
    requires Good(w, j)
    ensures Good(Apply(w, Report(k, agent, hash)), j)
  {
    if k in w.replicas {
      hide Good, Transition;
      match agent
      case SwarmingReport => MoveGood(w, k, Swarming, j);
      case CompleteReport =>
        MoveGood(w, k, BTComplete, j);
        MoveGood(w, k, HashVerify, j);
      case SeedingReport =>
        MoveGood(w, k, Invalid, j);
        if w.replicas[k].state == Verified {
          MoveGood(w, k, Seeding, j);
        } else if w.replicas[k].state == HashVerify {
          HashGoodGood(w, k, j);
        }
      case InvalidReport => MoveGood(w, k, Invalid, j);
      case OtherReport =>
    }
  }

  lemma EvictGood(w: World, k: Key, j: Key)
    requires Good(w, j)
    ensures Good(Apply(w, Evict(k)), j)
  {
    if CountsAsVerified(StateOf(w, k)) {
      var w' := w.(replicas := w.replicas[k := w.replicas[k].(state := Absent)], log := w.log + [Entered(k, Absent)]);
      TrailGrows(w.log, Entered(k, Absent), j);
      SendTrail(w', RetireReplica(k), j);
    }
  }

  lemma StepGood(w: World, step: Step, j: Key)
    requires Good(w, j)
    ensures Good(Apply(w, step), j)
  {
    match step
    case Ensure(k, cls) => EnsureGood(w, k, cls, j);
    case Report(k, agent, hash) => ReportGood(w, k, agent, hash, j);
    case Evict(k) => EvictGood(w, k, j);
    case Retire(k) => SendTrail(w, RetireReplica(k), j);
    case Upgrade(_, _) =>
    case Deliver =>
  }

  /** Over every interleaving of requests, reports, evictions, retirements, upgrades and deliveries,
      the history of each replica since it was last ABSENT is exactly what its state stands for. */
  lemma {:induction false} HistoryMatchesState(steps: seq<Step>, k: Key)
    ensures Good(Run(START, steps), k)
  {
    if steps != [] {
      HistoryMatchesState(steps[..|steps| - 1], k);
      StepGood(Run(START, steps[..|steps| - 1]), steps[|steps| - 1], k);
    }
  }

  /** A replica counted as verified has, since it was last ABSENT, passed REQUESTED, SWARMING,
      BT_COMPLETE and HASH_VERIFY in that order and then got a hash_ok report. */
  lemma VerifiedHasProvenance(steps: seq<Step>, k: Key)
    requires CountsAsVerified(StateOf(Run(START, steps), k))
    ensures TO_HASH + [GotHashOk, At(Verified)] <= Trail(Run(START, steps).log, k)
  {
    hide Run, Trail, StateOf;
    HistoryMatchesState(steps, k);
    assert (TO_HASH + [GotHashOk, At(Verified), At(Seeding)])[..7] == TO_HASH + [GotHashOk, At(Verified)];
  }

  /** Nothing ever purges: once INVALID, a replica stays INVALID whatever happens later, so its node
      is never asked to join again. */
  lemma {:induction false} InvalidForever(w: World, steps: seq<Step>, k: Key)
    requires StateOf(w, k) == Invalid
    ensures StateOf(Run(w, steps), k) == Invalid
  {
    if steps != [] {
      InvalidForever(w, steps[..|steps| - 1], k);
      InvalidStays(Run(w, steps[..|steps| - 1]), steps[|steps| - 1], k);
    }
  }

  lemma InvalidStays(w: World, step: Step, k: Key)
    requires StateOf(w, k) == Invalid
    ensures StateOf(Apply(w, step), k) == Invalid
  {
  }

  // ----- The directive queue -----

  /** Every directive that was ever queued, in order. */
  function Sent(log: seq<Event>): seq<Directive> {
    if log == [] then []
    else
      var d, e := Sent(log[..|log| - 1]), log[|log| - 1];
      if e.Joined? then d + [JoinSwarm(e.key)] else if e.Retired? then d + [RetireReplica(e.key)] else d
  }

  ghost predicate QueueIsUndelivered(w: World) {
    |w.queue| <= QUEUE_CAP && |w.queue| <= |Sent(w.log)| && w.queue == Sent(w.log)[|Sent(w.log)| - |w.queue|..]
  }

  lemma SentGrows(log: seq<Event>, e: Event)
    ensures Sent(log + [e]) ==
      Sent(log) + (if e.Joined? then [JoinSwarm(e.key)] else if e.Retired? then [RetireReplica(e.key)] else [])
  {
    assert (log + [e])[..|log|] == log;
  }

  lemma LogKeepsQueue(w: World, e: Event, r: map<Key, Replica>)
    requires QueueIsUndelivered(w) && (e.Entered? || e.HashOk?)
    ensures QueueIsUndelivered(w.(replicas := r, log := w.log + [e]))
  {
    SentGrows(w.log, e);
  }

  lemma SendKeepsQueue(w: World, d: Directive)
    requires QueueIsUndelivered(w)
    ensures QueueIsUndelivered(Send(w, d))
  {
    SentGrows(w.log, if d.JoinSwarm? then Joined(d.key) else Retired(d.key));
  }

  lemma TransitionKeepsQueue(w: World, k: Key, next: State)
    requires QueueIsUndelivered(w)
    ensures QueueIsUndelivered(Transition(w, k, next))
  {
    if k in w.replicas && Permitted(w.replicas[k].state, next) {
      LogKeepsQueue(w, Entered(k, next), w.replicas[k := w.replicas[k].(state := next)]);
    }
  }

  lemma StepKeepsQueue(w: World, step: Step)
    requires QueueIsUndelivered(w)
    ensures QueueIsUndelivered(Apply(w, step))
  {
    match step
    case Ensure(k, cls) =>
      var w0 := Create(w, k, cls);
      assert Sent(w0.log) == Sent(w.log);
      hide Sent, Transition, Send;
      TransitionKeepsQueue(w0, k, Requested);
      SendKeepsQueue(Transition(w0, k, Requested), JoinSwarm(k));
      TransitionKeepsQueue(Transition(w0, k, Requested), k, Absent);
    case Report(k, agent, hash) => ReportKeepsQueue(w, k, agent, hash);
    case Evict(k) =>
      if k in w.replicas {
        var r := w.replicas[k := w.replicas[k].(state := Absent)];
        LogKeepsQueue(w, Entered(k, Absent), r);
        SendKeepsQueue(w.(replicas := r, log := w.log + [Entered(k, Absent)]), RetireReplica(k));
      }
    case Retire(k) => SendKeepsQueue(w, RetireReplica(k));
    case Upgrade(_, _) =>
    case Deliver =>
  }

  lemma ReportKeepsQueue(w: World, k: Key, agent: AgentState, hash: HashResult)
    requires QueueIsUndelivered(w)
    ensures QueueIsUndelivered(Reported(w, k, agent, hash))
  {
    var w1 := w.(log := w.log + [HashOk(k)]);
    LogKeepsQueue(w, HashOk(k), w.replicas);
    hide QueueIsUndelivered, Transition;
    TransitionKeepsQueue(w1, k, Verified);
    TransitionKeepsQueue(Transition(w1, k, Verified), k, Seeding);
    TransitionKeepsQueue(w, k, Swarming);
    TransitionKeepsQueue(w, k, BTComplete);
    TransitionKeepsQueue(w, k, HashVerify);
    TransitionKeepsQueue(w, k, Seeding);
    TransitionKeepsQueue(w, k, Invalid);
  }

  /** A directive is queued exactly while fewer than 256 are waiting. */
  lemma SentIff(w: World, d: Directive)
    ensures Send(w, d).queue == if |w.queue| < 256 then w.queue + [d] else w.queue
  {
  }

  /** The queue always holds exactly the latest directives not yet delivered, in order and within its
      capacity. */
  lemma {:induction false} QueueOverRuns(steps: seq<Step>)
    ensures QueueIsUndelivered(Run(START, steps))
  {
    if steps != [] {
      QueueOverRuns(steps[..|steps| - 1]);
      StepKeepsQueue(Run(START, steps[..|steps| - 1]), steps[|steps| - 1]);
    }
  }

  // ----- JOINs and departures from ABSENT -----

  /** Over the whole history: every JOIN comes directly after its departure from ABSENT, and every departure is
      followed directly by its JOIN or, on back-pressure, by the way back. */
  ghost predicate Paired(log: seq<Event>) {
    && (forall i :: 0 <= i < |log| && log[i].Joined? ==> i > 0 && log[i - 1] == Entered(log[i].key, Requested))
    && (forall i :: 0 <= i < |log| && log[i].Entered? && log[i].state == Requested ==>
          i + 1 < |log| && (log[i + 1] == Joined(log[i].key) || log[i + 1] == Entered(log[i].key, Absent)))
  }

  predicate Quiet(es: seq<Event>) {
    forall i :: 0 <= i < |es| ==> !es[i].Joined? && !(es[i].Entered? && es[i].state == Requested)
  }

  lemma QuietPaired(log: seq<Event>, es: seq<Event>)
    requires Paired(log) && Quiet(es)
    ensures Paired(log + es)
  {
    var all := log + es;
    assert forall i :: 0 <= i < |log| ==> all[i] == log[i];
    assert forall i :: |log| <= i < |all| ==> all[i] == es[i - |log|];
  }

  lemma RequestPaired(log: seq<Event>, k: Key, e: Event)
    requires Paired(log) && (e == Joined(k) || e == Entered(k, Absent))
    ensures Paired(log + [Entered(k, Requested)] + [e])
  {
    var all := log + [Entered(k, Requested)] + [e];
    assert forall i :: 0 <= i < |log| ==> all[i] == log[i];
    assert all[|log|] == Entered(k, Requested) && all[|log| + 1] == e;
  }

  /** What a report adds to the log. */
  lemma ReportLog(w: World, k: Key, agent: AgentState, hash: HashResult) returns (es: seq<Event>)
    ensures Reported(w, k, agent, hash).log == w.log + es && Quiet(es)
  {
    var log' := Reported(w, k, agent, hash).log;
    es := log'[|w.log|..];
    assert w.log + [] == w.log;
  }

  lemma StepPaired(w: World, step: Step)
    requires Paired(w.log)
    ensures Paired(Apply(w, step).log)
  {
    match step
    case Ensure(k, cls) =>
      RequestPaired(w.log, k, Joined(k));
      RequestPaired(w.log, k, Entered(k, Absent));
      hide Paired;
    case Report(k, agent, hash) =>
      var es := ReportLog(w, k, agent, hash);
      QuietPaired(w.log, es);
    case Evict(k) =>
      QuietPaired(w.log, [Entered(k, Absent)]);
      QuietPaired(w.log + [Entered(k, Absent)], [Retired(k)]);
    case Retire(k) => QuietPaired(w.log, [Retired(k)]);
    case Upgrade(_, _) =>
    case Deliver =>
  }

  lemma {:induction false} JoinsPairDepartures(steps: seq<Step>)
    ensures Paired(Run(START, steps).log)
  {
    if steps != [] {
      hide Paired, Apply;
      JoinsPairDepartures(steps[..|steps| - 1]);
      StepPaired(Run(START, steps[..|steps| - 1]), steps[|steps| - 1]);
    } else {
      assert START.log == [];
    }
  }

  /** Where in the log each queued directive was sent. */
  function SentAt(log: seq<Event>): seq<nat> {
    if log == [] then []
    else
      var at, e := SentAt(log[..|log| - 1]), log[|log| - 1];
      if e.Joined? || e.Retired? then at + [|log| - 1] else at
  }

  lemma {:induction false} SentAtFits(log: seq<Event>)
    ensures |SentAt(log)| == |Sent(log)|
    ensures forall i :: 0 <= i < |Sent(log)| ==>
      SentAt(log)[i] < |log| && log[SentAt(log)[i]]
      == if Sent(log)[i].JoinSwarm? then Joined(Sent(log)[i].key) else Retired(Sent(log)[i].key)
    ensures forall i, j :: 0 <= i < j < |Sent(log)| ==> SentAt(log)[i] < SentAt(log)[j]
  {
    if log != [] {
      SentAtFits(log[..|log| - 1]);
    }
  }

  /** Every JOIN waiting in the queue, or sent before, stands for a departure of its own from ABSENT: the
      departures lie at different places of the history, in queue order. */
  lemma SentJoinsPair(steps: seq<Step>)
    ensures var log := Run(START, steps).log;
      && |SentAt(log)| == |Sent(log)|
      && (forall i :: 0 <= i < |Sent(log)| && Sent(log)[i].JoinSwarm? ==>
            0 < SentAt(log)[i] < |log| && log[SentAt(log)[i] - 1] == Entered(Sent(log)[i].key, Requested))
      && (forall i, j :: 0 <= i < j < |Sent(log)| ==> SentAt(log)[i] < SentAt(log)[j])
  {
    hide Run, Sent, SentAt;
    JoinsPairDepartures(steps);
    SentAtFits(Run(START, steps).log);
  }

  /** Some JOIN for the replica has not been followed by its return to ABSENT. */
  ghost predicate JoinStands(log: seq<Event>, k: Key) {
    exists p :: 0 <= p < |log| && log[p] == Joined(k) && forall q :: p < q < |log| ==> log[q] != Entered(k, Absent)
  }

  lemma {:induction false} TrailHasJoin(log: seq<Event>, k: Key)
    ensures GotJoin in Trail(log, k) <==> JoinStands(log, k)
  {
    if log != [] {
      var front, e := log[..|log| - 1], log[|log| - 1];
      TrailHasJoin(front, k);
      assert forall p :: 0 <= p < |front| ==> front[p] == log[p];
      StandsGrows(front, e, k);
      assert front + [e] == log;
      TrailGrows(front, e, k);
      hide Trail, JoinStands;
    }
  }

  lemma StandsGrows(front: seq<Event>, e: Event, k: Key)
    ensures JoinStands(front + [e], k) <==> e == Joined(k) || (JoinStands(front, k) && e != Entered(k, Absent))
  {
    var log := front + [e];
    assert log[|front|] == e && forall p :: 0 <= p < |front| ==> log[p] == front[p];
    if JoinStands(front, k) && e != Entered(k, Absent) {
      var p :| 0 <= p < |front| && front[p] == Joined(k) && forall q :: p < q < |front| ==> front[q] != Entered(k, Absent);
      assert log[p] == Joined(k);
    }
  }

  lemma JoinInTrail(s: State, t: seq<Mark>)
    requires Fits(s, t)
    ensures s != Absent <==> GotJoin in t
  {
    if s != Absent {
      assert t[1] == GotJoin;
    }
  }

  /** Over every run: a replica is away from ABSENT exactly when a JOIN for it stands. */
  lemma PresentIffJoinStands(steps: seq<Step>, k: Key)
    ensures StateOf(Run(START, steps), k) != Absent <==> JoinStands(Run(START, steps).log, k)
  {
    hide Run, Trail, StateOf, Fits, JoinStands;
    HistoryMatchesState(steps, k);
    var w := Run(START, steps);
    JoinInTrail(StateOf(w, k), Trail(w.log, k));
    TrailHasJoin(w.log, k);
  }

  /** The last return to ABSENT after `p`, if there is one. */
  lemma {:induction false} LastReturn(log: seq<Event>, k: Key, p: nat) returns (e: nat)
    requires exists q :: p < q < |log| && log[q] == Entered(k, Absent)
    ensures p < e < |log| && log[e] == Entered(k, Absent)
    ensures forall q :: e < q < |log| ==> log[q] != Entered(k, Absent)
    decreases |log|
  {
    e := |log| - 1;
    while log[e] != Entered(k, Absent)
      invariant p < e < |log| && forall q :: e < q < |log| ==> log[q] != Entered(k, Absent)
      decreases e
    {
      e := e - 1;
    }
  }

  /** The replica went back to ABSENT after this point and has not been asked for since. */
  ghost predicate GoneSince(log: seq<Event>, k: Key, p: nat) {
    exists e :: p < e < |log| && log[e] == Entered(k, Absent) && forall q :: e < q < |log| ==> log[q] != Joined(k)
  }

  lemma StandsUnlessGone(log: seq<Event>, k: Key, p: nat)
    requires p < |log| && log[p] == Joined(k)
    ensures !JoinStands(log, k) <==> GoneSince(log, k, p)
  {
    if !JoinStands(log, k) {
      var e := LastReturn(log, k, p);
      forall q | e < q < |log| ensures log[q] != Joined(k) {
        if log[q] == Joined(k) {
          assert JoinStands(log, k);
        }
      }
    }
  }

  /** For every JOIN ever queued, waiting or delivered: its replica is ABSENT exactly when it went back to ABSENT
      after that JOIN and has not been asked for since. */
  lemma SentJoinAbsentIff(steps: seq<Step>, i: nat)
    requires i < |Sent(Run(START, steps).log)| && Sent(Run(START, steps).log)[i].JoinSwarm?
    ensures var w := Run(START, steps);
      |SentAt(w.log)| == |Sent(w.log)| &&
      var k := Sent(w.log)[i].key;
      StateOf(w, k) == Absent <==> GoneSince(w.log, k, SentAt(w.log)[i])
  {
    var w := Run(START, steps);
    hide Run, Sent, SentAt, JoinStands, GoneSince, StateOf;
    var k := Sent(w.log)[i].key;
    SentAtFits(w.log);
    PresentIffJoinStands(steps, k);
    StandsUnlessGone(w.log, k, SentAt(w.log)[i]);
  }

  lemma Advances(w: World, k: Key, agent: AgentState, hash: HashResult, next: State)
    requires
      var s := StateOf(w, k);
      || (s == Requested && agent == SwarmingReport && next == Swarming)
      || (s == Swarming && agent == CompleteReport && next == BTComplete)
      || (s == BTComplete && agent == CompleteReport && next == HashVerify)
      || (s == HashVerify && agent == SeedingReport && hash == HashGood && next == Seeding)
    ensures var w' := Apply(w, Report(k, agent, hash)); StateOf(w', k) == next && w'.queue == w.queue
  {
  }

  lemma EvictsAfterJoin(w: World, k: Key)
    requires StateOf(w, k) == Seeding && w.queue == [JoinSwarm(k)]
    ensures var w' := Apply(w, Evict(k)); StateOf(w', k) == Absent && JoinSwarm(k) in w'.queue
  {
    assert Apply(w, Evict(k)).queue[0] == JoinSwarm(k);
  }

  lemma FirstEnsure(k: Key)
    ensures var w' := Apply(START, Ensure(k, Standard)); StateOf(w', k) == Requested && w'.queue == [JoinSwarm(k)]
  {
  }

  /** The JOIN may outlive the copy it was for: after an eviction the replica is ABSENT with its JOIN queued. */
  lemma JoinOutlivesCopy(k: Key) returns (steps: seq<Step>)
    ensures StateOf(Run(START, steps), k) == Absent && JoinSwarm(k) in Run(START, steps).queue
  {
    assert Run(START, []) == START;
    hide *;
    FirstEnsure(k);
    RunMore(START, [], Ensure(k, Standard));
    steps := [] + [Ensure(k, Standard)];
    steps := Reporting(steps, k, SwarmingReport, HashNone, Swarming);
    steps := Reporting(steps, k, CompleteReport, HashNone, BTComplete);
    steps := Reporting(steps, k, CompleteReport, HashNone, HashVerify);
    steps := Reporting(steps, k, SeedingReport, HashGood, Seeding);
    EvictsAfterJoin(Run(START, steps), k);
    RunMore(START, steps, Evict(k));
    steps := steps + [Evict(k)];
  }

  lemma Reporting(steps: seq<Step>, k: Key, agent: AgentState, hash: HashResult, next: State) returns (more: seq<Step>)
    requires
      var s := StateOf(Run(START, steps), k);
      || (s == Requested && agent == SwarmingReport && next == Swarming)
      || (s == Swarming && agent == CompleteReport && next == BTComplete)
      || (s == BTComplete && agent == CompleteReport && next == HashVerify)
      || (s == HashVerify && agent == SeedingReport && hash == HashGood && next == Seeding)
    ensures StateOf(Run(START, more), k) == next && Run(START, more).queue == Run(START, steps).queue
  {
    hide *;
    Advances(Run(START, steps), k, agent, hash, next);
    RunMore(START, steps, Report(k, agent, hash));
    more := steps + [Report(k, agent, hash)];
  }

  lemma RunMore(w: World, steps: seq<Step>, step: Step)
    ensures Run(w, steps + [step]) == Apply(Run(w, steps), step)
  {
    assert (steps + [step])[..|steps|] == steps;
  }

  // ----- What moves a replica where -----

  /** The only ways into each state, read from where they lead. A failed hash check and, from HASH_VERIFY on, an
      agent's invalid report make a replica INVALID; nothing makes it PURGE. */
  predicate Leads(w: World, step: Step, k: Key, next: State) {
    var s := StateOf(w, k);
    var reports := step.Report? && step.key == k;
    match next
    case Absent => step == Evict(k) && (s == Verified || s == Seeding)
    case Requested => step.Ensure? && step.key == k && s == Absent && |w.queue| < QUEUE_CAP
    case Swarming => reports && step.agent == SwarmingReport && s == Requested
    case BTComplete => reports && step.agent == CompleteReport && s == Swarming
    case HashVerify => reports && step.agent == CompleteReport && s == BTComplete
    case Seeding =>
      reports && step.agent == SeedingReport && (s == Verified || (s == HashVerify && step.hash == HashGood))
    case Invalid =>
      reports && (|| (step.agent == SeedingReport && s == HashVerify && step.hash == HashBad)
                  || (step.agent == InvalidReport && (s == HashVerify || s == Verified || s == Seeding)))
    case Verified => false
    case Purge => false
  }

  lemma TransitionIs(w: World, k: Key, next: State, j: Key)
    ensures StateOf(Transition(w, k, next), j) ==
            if j == k && k in w.replicas && Permitted(w.replicas[k].state, next) then next else StateOf(w, j)
  {
  }

  lemma EnsureEnters(w: World, k: Key, cls: Class, j: Key)
    ensures StateOf(Apply(w, Ensure(k, cls)), j) ==
            if j == k && StateOf(w, k) == Absent && |w.queue| < QUEUE_CAP then Requested else StateOf(w, j)
  {
  }

  function AfterReport(s: State, agent: AgentState, hash: HashResult): State {
    match agent
    case SwarmingReport => if s == Requested then Swarming else s
    case CompleteReport => if s == Swarming then BTComplete else if s == BTComplete then HashVerify else s
    case SeedingReport =>
      if s == Verified then Seeding
      else if s != HashVerify then s
      else if hash == HashGood then Seeding
      else if hash == HashBad then Invalid
      else s
    case InvalidReport => if s == HashVerify || s == Verified || s == Seeding then Invalid else s
    case OtherReport => s
  }

  lemma VerifiedThenSeeds(w: World, k: Key, j: Key)
    requires k in w.replicas && w.replicas[k].state == HashVerify
    ensures StateOf(Transition(Transition(w.(log := w.log + [HashOk(k)]), k, Verified), k, Seeding), j)
         == if j == k then Seeding else StateOf(w, j)
  {
    var logged := w.(log := w.log + [HashOk(k)]);
    var w1 := Transition(logged, k, Verified);
    TransitionIs(logged, k, Verified, j);
    TransitionIs(logged, k, Verified, k);
    KeysStay(logged, k, Verified);
    TransitionIs(w1, k, Seeding, j);
    hide Transition;
  }

  /** A report of one replica leaves the others. */
  lemma ReportEnters(w: World, k: Key, agent: AgentState, hash: HashResult, j: Key)
    ensures StateOf(Apply(w, Report(k, agent, hash)), j) ==
            if j == k then AfterReport(StateOf(w, k), agent, hash) else StateOf(w, j)
  {
    if k in w.replicas {
      hide Transition;
      match agent
      case SwarmingReport => TransitionIs(w, k, Swarming, j);
      case CompleteReport =>
        TransitionIs(w, k, BTComplete, j);
        TransitionIs(w, k, HashVerify, j);
      case SeedingReport =>
        TransitionIs(w, k, Seeding, j);
        TransitionIs(w, k, Invalid, j);
        if w.replicas[k].state == HashVerify {
          VerifiedThenSeeds(w, k, j);
        }
      case InvalidReport => TransitionIs(w, k, Invalid, j);
      case OtherReport =>
    }
  }

  lemma KeysStay(w: World, k: Key, next: State)
    ensures Transition(w, k, next).replicas.Keys == w.replicas.Keys
  {
  }

  /** Every step takes a replica to another state exactly as listed. */
  lemma EntersIff(w: World, step: Step, k: Key, next: State)
    requires StateOf(w, k) != next
    ensures StateOf(Apply(w, step), k) == next <==> Leads(w, step, k, next)
  {
    match step
    case Ensure(j, cls) =>
      EnsureEnters(w, j, cls, k);
      hide Apply;
    case Report(j, agent, hash) =>
      ReportEnters(w, j, agent, hash, k);
      hide Apply;
    case _ =>
  }

  // ----- Classes -----

  /** Upgrades lead from EPHEMERAL over CACHE, STANDARD and PINNED to ARCHIVAL. */
  lemma ClassesInOrder()
    ensures Rank(Ephemeral) < Rank(Cache) < Rank(Standard) < Rank(Pinned) < Rank(Archival)
  {
  }

  /** The class of the first request for the replica, raised by later upgrades. */
  function ClassSince(steps: seq<Step>, k: Key): seq<Class> {
    if steps == [] then []
    else
      var cls, step := ClassSince(steps[..|steps| - 1], k), steps[|steps| - 1];
      if step.Ensure? && step.key == k && cls == [] then [step.cls]
      else if step.Upgrade? && step.key == k && cls != [] && Rank(step.cls) > Rank(cls[0]) then [step.cls]
      else cls
  }

  lemma StepClass(w: World, step: Step, k: Key, cls: seq<Class>)
    requires if k in w.replicas then cls == [w.replicas[k].cls] else cls == []
    ensures
      var w' := Apply(w, step);
      var cls' :=
        if step.Ensure? && step.key == k && cls == [] then [step.cls]
        else if step.Upgrade? && step.key == k && cls != [] && Rank(step.cls) > Rank(cls[0]) then [step.cls]
        else cls;
      if k in w'.replicas then cls' == [w'.replicas[k].cls] else cls' == []
  {
  }

  /** Over every run a replica exists once it was asked for, and its class is the one first asked for, raised by
      upgrades and changed by nothing else. */
  lemma {:induction false} ClassIsFirstAsked(steps: seq<Step>, k: Key)
    ensures
      var w := Run(START, steps);
      if k in w.replicas then ClassSince(steps, k) == [w.replicas[k].cls] else ClassSince(steps, k) == []
  {
    if steps != [] {
      hide Apply;
      ClassIsFirstAsked(steps[..|steps| - 1], k);
      StepClass(Run(START, steps[..|steps| - 1]), steps[|steps| - 1], k, ClassSince(steps[..|steps| - 1], k));
    }
  }

  /** The four reports that take a requested replica to SEEDING. */
  function Climbed(w: World, k: Key): World {
    Apply(Apply(Apply(Apply(w, Report(k, SwarmingReport, HashNone)), Report(k, CompleteReport, HashNone)),
                Report(k, CompleteReport, HashNone)), Report(k, SeedingReport, HashGood))
  }

  lemma ReportMoves(w: World, k: Key, agent: AgentState, hash: HashResult, next: State)
    requires k in w.replicas
    requires
      var s := w.replicas[k].state;
      || (s == Requested && agent == SwarmingReport && next == Swarming)
      || (s == Swarming && agent == CompleteReport && next == BTComplete)
      || (s == BTComplete && agent == CompleteReport && next == HashVerify)
      || (s == HashVerify && agent == SeedingReport && hash == HashGood && next == Seeding)
    ensures
      var w' := Apply(w, Report(k, agent, hash));
      w'.replicas == w.replicas[k := w.replicas[k].(state := next)] && w'.queue == w.queue
  {
  }

  lemma ClimbedIs(w: World, k: Key)
    requires k in w.replicas && w.replicas[k].state == Requested
    ensures Climbed(w, k).replicas == w.replicas[k := w.replicas[k].(state := Seeding)]
  {
    hide Apply;
    ReportMoves(w, k, SwarmingReport, HashNone, Swarming);
    var w1 := Apply(w, Report(k, SwarmingReport, HashNone));
    ReportMoves(w1, k, CompleteReport, HashNone, BTComplete);
    var w2 := Apply(w1, Report(k, CompleteReport, HashNone));
    ReportMoves(w2, k, CompleteReport, HashNone, HashVerify);
    var w3 := Apply(w2, Report(k, CompleteReport, HashNone));
    ReportMoves(w3, k, SeedingReport, HashGood, Seeding);
  }
}
