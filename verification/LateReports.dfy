/** Agent reports as the locked regions they are: one reads the replica's state, later ones act on what was
    read. Anything may happen in between. */
module LateReports {
  import opened Replicas

  /** A report between its regions. `absences` counts how often the replica had been ABSENT when it was read. */
  datatype Flight =
    | Pending(key: Key, current: State, agent: AgentState, hash: HashResult, absences: nat)
    | ToSeed(key: Key)  // verified, and about to move on to SEEDING

  datatype Split = Split(w: World, flights: map<nat, Flight>)

  datatype Move =
    | Atomic(step: Step)  // everything but a report
    | Read(id: nat, key: Key, agent: AgentState, hash: HashResult)
    | Act(id: nat)

  function Absences(log: seq<Event>, k: Key): nat {
    if log == [] then 0
    else Absences(log[..|log| - 1], k) + if log[|log| - 1] == Entered(k, Absent) then 1 else 0
  }

  /** A hash_ok about a replica in HASH_VERIFY. */
  predicate Vouches(f: Flight) {
    f.Pending? && f.current == HashVerify && f.agent == SeedingReport && f.hash == HashGood
  }

  function ReadNow(x: Split, k: Key, agent: AgentState, hash: HashResult): Flight {
    Pending(k, StateOf(x.w, k), agent, hash, Absences(x.w.log, k))
  }

  function Acted(w: World, f: Flight): World {
    match f
    case ToSeed(k) => Transition(w, k, Seeding)
    case Pending(k, current, agent, hash, _) =>
      match agent
      case SwarmingReport => if current == Requested then Transition(w, k, Swarming) else w
      case CompleteReport =>
        if current == Swarming then Transition(w, k, BTComplete)
        else if current == BTComplete then Transition(w, k, HashVerify)
        else w
      case SeedingReport =>
        if current == HashVerify then
          match hash
          case HashGood => Transition(w, k, Verified)
          case HashBad => Transition(w, k, Invalid)
          case HashNone => w
        else if current == Verified then Transition(w, k, Seeding)
        else w
      case InvalidReport => if current != Absent && current != Purge then Transition(w, k, Invalid) else w
      case OtherReport => w
  }

  function Step1(x: Split, m: Move): Split {
    match m
    case Atomic(step) => if step.Report? then x else x.(w := Apply(x.w, step))
    case Read(id, k, agent, hash) =>
      if id in x.flights || k !in x.w.replicas then x
      else
        var f := ReadNow(x, k, agent, hash);
        Split(if Vouches(f) then x.w.(log := x.w.log + [HashOk(k)]) else x.w, x.flights[id := f])
    case Act(id) =>
      if id !in x.flights then x
      else
        var f := x.flights[id];
        Split(Acted(x.w, f), if Vouches(f) then x.flights[id := ToSeed(f.key)] else x.flights - {id})
  }

  function Play(moves: seq<Move>): Split {
    if moves == [] then Split(Replicas.START, map[]) else Step1(Play(moves[..|moves| - 1]), moves[|moves| - 1])
  }

  lemma ActsOnce(x: Split, id: nat, k: Key, agent: AgentState, hash: HashResult)
    requires id !in x.flights && k in x.w.replicas && !Vouches(ReadNow(x, k, agent, hash))
    ensures Step1(Step1(x, Read(id, k, agent, hash)), Act(id)) == x.(w := Apply(x.w, Report(k, agent, hash)))
  {
    assert x.flights[id := ReadNow(x, k, agent, hash)] - {id} == x.flights;
    hide Absences;
  }

  lemma ActsTwice(x: Split, id: nat, k: Key)
    requires id !in x.flights && k in x.w.replicas && x.w.replicas[k].state == HashVerify
    ensures Step1(Step1(Step1(x, Read(id, k, SeedingReport, HashGood)), Act(id)), Act(id))
         == x.(w := Apply(x.w, Report(k, SeedingReport, HashGood)))
  {
    assert x.flights[id := ReadNow(x, k, SeedingReport, HashGood)][id := ToSeed(k)] - {id} == x.flights;
    hide Absences;
  }

  /** With nothing in between, read and act are the atomic report. */
  lemma AtOnceIsReport(x: Split, id: nat, k: Key, agent: AgentState, hash: HashResult)
    requires id !in x.flights && k in x.w.replicas
    ensures
      var y := Step1(Step1(x, Read(id, k, agent, hash)), Act(id));
      (if Vouches(ReadNow(x, k, agent, hash)) then Step1(y, Act(id)) else y) == x.(w := Apply(x.w, Report(k, agent, hash)))
  {
    if Vouches(ReadNow(x, k, agent, hash)) {
      ActsTwice(x, id, k);
    } else {
      ActsOnce(x, id, k, agent, hash);
    }
    hide Step1, Apply, Absences;
  }

  // ----- What the trail of each state is -----

  /** Some number of hash_ok reports, all read at HASH_VERIFY. */
  predicate AllOk(t: seq<Mark>) {
    forall i :: 0 <= i < |t| ==> t[i] == GotHashOk
  }

  ghost predicate Shaped(s: State, t: seq<Mark>) {
    match s
    case Absent => t == []
    case Requested => t == TO_HASH[..2]
    case Swarming => t == TO_HASH[..3]
    case BTComplete => t == TO_HASH[..4]
    case HashVerify => TO_HASH <= t && AllOk(t[5..])
    case Verified => |t| >= 6 && TO_HASH <= t && AllOk(t[5..|t| - 1]) && t[|t| - 1] == At(Verified)
    case Seeding =>
      |t| >= 7 && TO_HASH <= t && AllOk(t[5..|t| - 2]) && t[|t| - 2..] == [At(Verified), At(Seeding)]
    case Invalid => TO_HASH <= t
    case Purge => false
  }

  ghost predicate Fine(w: World, k: Key) {
    Shaped(StateOf(w, k), Trail(w.log, k))
  }

  /** The copy was reported hash_ok: passed all four states in order, and then got the report. */
  predicate Vouched(t: seq<Mark>) {
    TO_HASH + [GotHashOk] <= t
  }

  lemma ShapeGrows(s: State, t: seq<Mark>, next: State)
    requires Shaped(s, t) && Permitted(s, next) && next != Requested && next != Absent && next != Purge
    ensures Shaped(next, t + [At(next)])
  {
    var t' := t + [At(next)];
    match next
    case HashVerify => assert t' == TO_HASH && t'[5..] == [];
    case Verified => assert t'[5..|t'| - 1] == t[5..];
    case Seeding => assert t'[5..|t'| - 2] == t[5..|t| - 1];
    case _ =>
  }

  lemma TransitionFine(w: World, k: Key, next: State, j: Key)
    requires Fine(w, j) && k in w.replicas && next != Requested && next != Absent && next != Purge
    ensures Fine(Transition(w, k, next), j)
  {
    TransitionTrail(w, k, next, j);
    hide Trail, Transition, Shaped;
    if j == k && Permitted(StateOf(w, k), next) {
      ShapeGrows(StateOf(w, k), Trail(w.log, k), next);
    }
  }

  lemma ActFine(w: World, f: Flight, j: Key)
    requires Fine(w, j) && f.key in w.replicas
    ensures Fine(Acted(w, f), j)
  {
    hide Fine, Transition;
    match f
    case ToSeed(k) => TransitionFine(w, k, Seeding, j);
    case Pending(k, _, _, _, _) =>
      TransitionFine(w, k, Swarming, j);
      TransitionFine(w, k, BTComplete, j);
      TransitionFine(w, k, HashVerify, j);
      TransitionFine(w, k, Verified, j);
      TransitionFine(w, k, Seeding, j);
      TransitionFine(w, k, Invalid, j);
  }

  lemma ReadFine(w: World, k: Key, j: Key)
    requires Fine(w, j) && StateOf(w, k) == HashVerify
    ensures Fine(w.(log := w.log + [HashOk(k)]), j)
  {
    TrailGrows(w.log, HashOk(k), j);
    hide Trail;
  }

  lemma EnsureFine(w: World, k: Key, cls: Class, j: Key)
    requires Fine(w, j)
    ensures Fine(Apply(w, Ensure(k, cls)), j)
  {
    hide Trail, Transition, Send;
    if StateOf(w, k) == Absent {
      var w0 := Create(w, k, cls);
      var w1 := Transition(w0, k, Requested);
      assert StateOf(w0, j) == StateOf(w, j) && StateOf(w0, k) == Absent;
      TransitionTrail(w0, k, Requested, j);
      TransitionTrail(w0, k, Requested, k);
      if |w1.queue| < QUEUE_CAP {
        SendTrail(w1, JoinSwarm(k), j);
      } else {
        TransitionTrail(w1, k, Absent, j);
      }
    }
  }

  lemma EvictTrail(w: World, k: Key, j: Key)
    requires CountsAsVerified(StateOf(w, k))
    ensures var w' := Apply(w, Evict(k));
      && StateOf(w', j) == (if j == k then Absent else StateOf(w, j))
      && Trail(w'.log, j) == (if j == k then [] else Trail(w.log, j))
  {
    var w' := w.(replicas := w.replicas[k := w.replicas[k].(state := Absent)], log := w.log + [Entered(k, Absent)]);
    TrailGrows(w.log, Entered(k, Absent), j);
    SendTrail(w', RetireReplica(k), j);
  }

  lemma AtomicFine(w: World, step: Step, j: Key)
    requires Fine(w, j) && !step.Report?
    ensures Fine(Apply(w, step), j)
  {
    match step
    case Ensure(k, cls) => EnsureFine(w, k, cls, j);
    case Evict(k) =>
      if CountsAsVerified(StateOf(w, k)) {
        EvictTrail(w, k, j);
      }
    case Retire(k) => SendTrail(w, RetireReplica(k), j);
    case Upgrade(_, _) =>
    case Deliver =>
  }

  /** Replicas are never forgotten, so a report that was read can act. */
  ghost predicate Known(x: Split) {
    forall id :: id in x.flights ==> x.flights[id].key in x.w.replicas
  }

  lemma ActedKeys(w: World, f: Flight)
    ensures Acted(w, f).replicas.Keys == w.replicas.Keys
  {
  }

  lemma StepKnown(x: Split, m: Move)
    requires Known(x)
    ensures Known(Step1(x, m))
  {
    match m
    case Atomic(step) =>
      if !step.Report? {
        KeysGrow(x.w, step);
      }
    case Read(_, _, _, _) =>
    case Act(id) =>
      if id in x.flights {
        ActedKeys(x.w, x.flights[id]);
      }
  }

  lemma KeysGrow(w: World, step: Step)
    requires !step.Report?
    ensures w.replicas.Keys <= Apply(w, step).replicas.Keys
  {
  }

  lemma StepFine(x: Split, m: Move, j: Key)
    requires Known(x) && Fine(x.w, j)
    ensures Fine(Step1(x, m).w, j)
  {
    hide Fine;
    match m
    case Atomic(step) =>
      if !step.Report? {
        AtomicFine(x.w, step, j);
      }
    case Read(id, k, agent, hash) =>
      if Vouches(ReadNow(x, k, agent, hash)) {
        ReadFine(x.w, k, j);
      }
    case Act(id) =>
      if id in x.flights {
        ActFine(x.w, x.flights[id], j);
      }
  }

  lemma {:induction false} PlayFine(moves: seq<Move>)
    ensures Known(Play(moves)) && forall j :: Fine(Play(moves).w, j)
  {
    if moves != [] {
      var front, m := moves[..|moves| - 1], moves[|moves| - 1];
      PlayFine(front);
      hide Fine, Known, Step1;
      StepKnown(Play(front), m);
      forall j ensures Fine(Play(moves).w, j) {
        StepFine(Play(front), m, j);
      }
    }
  }

  // ----- Exactly when provenance holds -----

  /** The move verifies this replica. */
  predicate Verifies(x: Split, m: Move, k: Key) {
    m.Act? && m.id in x.flights && Vouches(x.flights[m.id]) && x.flights[m.id].key == k && StateOf(x.w, k) == HashVerify
  }

  /** A replica about to be verified has had a hash_ok read since it was last ABSENT. */
  ghost predicate Timely(x: Split, m: Move) {
    forall k :: Verifies(x, m, k) ==> GotHashOk in Trail(x.w.log, k)
  }

  ghost predicate ProvenAt(w: World, k: Key) {
    CountsAsVerified(StateOf(w, k)) ==> Vouched(Trail(w.log, k))
  }

  lemma OkPosition(t: seq<Mark>)
    requires TO_HASH <= t && AllOk(t[5..])
    ensures GotHashOk in t <==> Vouched(t)
    ensures Vouched(t + [At(Verified)]) <==> Vouched(t)
  {
    assert forall i :: 5 <= i < |t| ==> t[i] == t[5..][i - 5];
    assert TO_HASH[0] == t[0] && TO_HASH[1] == t[1] && TO_HASH[2] == t[2] && TO_HASH[3] == t[3] && TO_HASH[4] == t[4];
    assert (TO_HASH + [GotHashOk])[5] == GotHashOk;
  }

  /** One locked transition other than a verification keeps the proof. */
  lemma TransitionProven(w: World, k: Key, next: State, j: Key)
    requires k in w.replicas && ProvenAt(w, j)
    requires next == Seeding || !CountsAsVerified(next)
    ensures ProvenAt(Transition(w, k, next), j)
  {
    TransitionTrail(w, k, next, j);
    hide Trail, Transition;
    var t := Trail(w.log, j);
    assert TO_HASH + [GotHashOk] <= t ==> TO_HASH + [GotHashOk] <= t + [At(next)];
  }

  lemma VerifyProvenIff(w: World, k: Key, j: Key)
    requires k in w.replicas && Fine(w, k) && ProvenAt(w, j)
    ensures ProvenAt(Transition(w, k, Verified), j) <==>
            (j == k && StateOf(w, k) == HashVerify ==> GotHashOk in Trail(w.log, k))
  {
    TransitionTrail(w, k, Verified, j);
    hide Trail, Transition;
    if StateOf(w, k) == HashVerify {
      OkPosition(Trail(w.log, k));
    }
  }

  lemma ActProvenIff(x: Split, id: nat, j: Key)
    requires Known(x) && id in x.flights && Fine(x.w, x.flights[id].key) && ProvenAt(x.w, j)
    ensures ProvenAt(Step1(x, Act(id)).w, j) <==> (Verifies(x, Act(id), j) ==> GotHashOk in Trail(x.w.log, j))
  {
    hide Fine, ProvenAt, Transition;
    var f := x.flights[id];
    var k := f.key;
    VerifyProvenIff(x.w, k, j);
    TransitionProven(x.w, k, Swarming, j);
    TransitionProven(x.w, k, BTComplete, j);
    TransitionProven(x.w, k, HashVerify, j);
    TransitionProven(x.w, k, Seeding, j);
    TransitionProven(x.w, k, Invalid, j);
  }

  lemma ReadProven(x: Split, m: Move, j: Key)
    requires m.Read? && ProvenAt(x.w, j)
    ensures ProvenAt(Step1(x, m).w, j)
  {
    TrailGrows(x.w.log, HashOk(m.key), j);
    hide Trail;
    var t := Trail(x.w.log, j);
    assert TO_HASH + [GotHashOk] <= t ==> TO_HASH + [GotHashOk] <= t + [GotHashOk];
  }

  lemma EnsureProven(w: World, k: Key, cls: Class, j: Key)
    requires ProvenAt(w, j)
    ensures ProvenAt(Apply(w, Ensure(k, cls)), j)
  {
    hide Trail, Transition, Send;
    if StateOf(w, k) == Absent {
      var w0 := Create(w, k, cls);
      var w1 := Transition(w0, k, Requested);
      assert StateOf(w0, j) == StateOf(w, j) && StateOf(w0, k) == Absent;
      TransitionTrail(w0, k, Requested, j);
      TransitionTrail(w0, k, Requested, k);
      SendTrail(w1, JoinSwarm(k), j);
      TransitionTrail(w1, k, Absent, j);
    }
  }

  lemma AtomicProven(w: World, step: Step, j: Key)
    requires ProvenAt(w, j) && !step.Report?
    ensures ProvenAt(Apply(w, step), j)
  {
    match step
    case Ensure(k, cls) => EnsureProven(w, k, cls, j);
    case Evict(k) =>
      if CountsAsVerified(StateOf(w, k)) {
        EvictTrail(w, k, j);
      }
    case Retire(k) => SendTrail(w, RetireReplica(k), j);
    case Upgrade(_, _) =>
    case Deliver =>
  }

  lemma StepProvenAt(x: Split, m: Move, j: Key)
    requires Known(x) && (forall k :: Fine(x.w, k)) && ProvenAt(x.w, j)
    ensures ProvenAt(Step1(x, m).w, j) <==> (Verifies(x, m, j) ==> GotHashOk in Trail(x.w.log, j))
  {
    match m
    case Atomic(step) =>
      if !step.Report? {
        AtomicProven(x.w, step, j);
      }
    case Read(_, _, _, _) => ReadProven(x, m, j);
    case Act(id) =>
      if id in x.flights {
        ActProvenIff(x, id, j);
      }
  }

  /** All replicas are proven at every point of the run. */
  ghost predicate ProvenThroughout(moves: seq<Move>) {
    moves == [] || (ProvenThroughout(moves[..|moves| - 1]) && forall k :: ProvenAt(Play(moves).w, k))
  }

  ghost predicate TimelyThroughout(moves: seq<Move>) {
    moves == [] ||
    (TimelyThroughout(moves[..|moves| - 1]) && Timely(Play(moves[..|moves| - 1]), moves[|moves| - 1]))
  }

  lemma StartProven(k: Key)
    ensures ProvenAt(Play([]).w, k)
  {
  }

  lemma StepProven(x: Split, m: Move)
    requires Known(x) && (forall k :: Fine(x.w, k)) && forall k :: ProvenAt(x.w, k)
    ensures (forall k :: ProvenAt(Step1(x, m).w, k)) <==> Timely(x, m)
  {
    forall k ensures ProvenAt(Step1(x, m).w, k) <==> (Verifies(x, m, k) ==> GotHashOk in Trail(x.w.log, k)) {
      StepProvenAt(x, m, k);
    }
    hide ProvenAt, Step1, Verifies, Trail;
  }

  /** Over every interleaving of reads, acts and controller steps: all verified replicas are vouched for at every
      point, if and only if every act that verifies one comes after a hash_ok read of the same copy. */
  lemma {:induction false} ProvenanceIff(moves: seq<Move>)
    ensures ProvenThroughout(moves) <==> TimelyThroughout(moves)
  {
    if moves != [] {
      var front, m := moves[..|moves| - 1], moves[|moves| - 1];
      ProvenanceIff(front);
      PlayFine(front);
      assert Play(moves) == Step1(Play(front), m);
      if ProvenThroughout(front) {
        LastProven(front);
        StepProven(Play(front), m);
        assert ProvenThroughout(moves) <==> forall k :: ProvenAt(Play(moves).w, k);
        assert TimelyThroughout(moves) <==> Timely(Play(front), m);
      }
    }
  }

  lemma LastProven(moves: seq<Move>)
    requires ProvenThroughout(moves)
    ensures forall k :: ProvenAt(Play(moves).w, k)
  {
    if moves == [] {
      forall k ensures ProvenAt(Play(moves).w, k) {
        StartProven(k);
      }
    }
  }

  // ----- No absence between read and act -----

  lemma AbsencesGrow(log: seq<Event>, e: Event, k: Key)
    ensures Absences(log + [e], k) == Absences(log, k) + if e == Entered(k, Absent) then 1 else 0
  {
    assert (log + [e])[..|log|] == log;
  }

  /** What was read is still in the trail unless the replica has been ABSENT since. */
  ghost predicate Remembered(w: World, f: Flight) {
    Vouches(f) ==> (
      && f.absences <= Absences(w.log, f.key)
      && (f.absences == Absences(w.log, f.key) ==> GotHashOk in Trail(w.log, f.key)))
  }

  lemma EventRemembered(w: World, e: Event, w': World, f: Flight)
    requires Remembered(w, f) && w'.log == w.log + [e]
    ensures Remembered(w', f)
  {
    AbsencesGrow(w.log, e, f.key);
    TrailGrows(w.log, e, f.key);
    hide Absences, Trail;
  }

  lemma {:induction false} EventsRemembered(w: World, es: seq<Event>, w': World, f: Flight)
    requires Remembered(w, f) && w'.log == w.log + es
    ensures Remembered(w', f)
  {
    hide Remembered;
    if es == [] {
      assert w'.log == w.log;
      SameLog(w, w', f);
    } else {
      var mid := w.(log := w.log + es[..|es| - 1]);
      EventsRemembered(w, es[..|es| - 1], mid, f);
      assert w'.log == mid.log + [es[|es| - 1]];
      EventRemembered(mid, es[|es| - 1], w', f);
    }
  }

  lemma SameLog(w: World, w': World, f: Flight)
    requires Remembered(w, f) && w'.log == w.log
    ensures Remembered(w', f)
  {
  }

  lemma ApplyAppends(w: World, step: Step)
    requires !step.Report?
    ensures w.log <= Apply(w, step).log
  {
  }

  lemma ActAppends(w: World, f: Flight)
    ensures w.log <= Acted(w, f).log
  {
  }

  lemma LogRemembers(w: World, w': World, f: Flight)
    requires Remembered(w, f) && w.log <= w'.log
    ensures Remembered(w', f)
  {
    EventsRemembered(w, w'.log[|w.log|..], w', f);
  }

  lemma ReadRemembered(x: Split, m: Move)
    requires m.Read? && m.id !in x.flights && m.key in x.w.replicas
    ensures Remembered(Step1(x, m).w, ReadNow(x, m.key, m.agent, m.hash))
  {
    TrailGrows(x.w.log, HashOk(m.key), m.key);
    AbsencesGrow(x.w.log, HashOk(m.key), m.key);
    hide Trail, Absences;
  }

  ghost predicate AllRemembered(x: Split) {
    forall id :: id in x.flights ==> Remembered(x.w, x.flights[id])
  }

  lemma StepRemembered(x: Split, m: Move)
    requires AllRemembered(x)
    ensures AllRemembered(Step1(x, m))
  {
    var x' := Step1(x, m);
    match m {
      case Atomic(step) =>
        if !step.Report? {
          ApplyAppends(x.w, step);
        }
      case Read(_, _, _, _) =>
        if m.id !in x.flights && m.key in x.w.replicas {
          ReadRemembered(x, m);
        }
      case Act(id) =>
        if id in x.flights {
          ActAppends(x.w, x.flights[id]);
        }
    }
    hide Remembered, Apply, Acted;
    forall id | id in x.flights ensures Remembered(x'.w, x.flights[id]) {
      LogRemembers(x.w, x'.w, x.flights[id]);
    }
    SeedRemembered(x'.w);
  }

  lemma SeedRemembered(w: World)
    ensures forall k :: Remembered(w, ToSeed(k))
  {
  }

  lemma {:induction false} PlayRemembered(moves: seq<Move>)
    ensures AllRemembered(Play(moves))
  {
    if moves != [] {
      hide AllRemembered, Step1;
      PlayRemembered(moves[..|moves| - 1]);
      StepRemembered(Play(moves[..|moves| - 1]), moves[|moves| - 1]);
    } else {
      assert Play([]).flights == map[];
    }
  }

  /** The act verifies a copy other than the one that was read. */
  predicate Stale(x: Split, m: Move) {
    m.Act? && m.id in x.flights && Vouches(x.flights[m.id])
    && x.flights[m.id].absences != Absences(x.w.log, x.flights[m.id].key)
  }

  predicate NoneStale(moves: seq<Move>) {
    moves == [] || (NoneStale(moves[..|moves| - 1]) && !Stale(Play(moves[..|moves| - 1]), moves[|moves| - 1]))
  }

  lemma {:induction false} FreshIsTimely(moves: seq<Move>)
    requires NoneStale(moves)
    ensures TimelyThroughout(moves)
  {
    if moves != [] {
      FreshIsTimely(moves[..|moves| - 1]);
      PlayRemembered(moves[..|moves| - 1]);
      var x, m := Play(moves[..|moves| - 1]), moves[|moves| - 1];
      hide Play, Absences, Trail;
      assert m.Act? && m.id in x.flights ==> Remembered(x.w, x.flights[m.id]);
    }
  }

  /** If no replica becomes ABSENT between the read of a hash_ok and its act, every verified replica is vouched
      for, whatever else interleaves. */
  lemma NoAbsenceBetween(moves: seq<Move>)
    requires NoneStale(moves)
    ensures ProvenThroughout(moves)
  {
    FreshIsTimely(moves);
    ProvenanceIff(moves);
  }

  // ----- A hash_ok that verifies the next copy -----

  /** State and trail of one replica, the reports in flight, and room in the queue. */
  ghost predicate Stage(x: Split, k: Key, s: State, t: seq<Mark>, fl: map<nat, Flight>) {
    StateOf(x.w, k) == s && Trail(x.w.log, k) == t && x.flights == fl && |x.w.queue| < 4
  }

  lemma EnsureStage(x: Split, k: Key, fl: map<nat, Flight>)
    requires Stage(x, k, Absent, [], fl) && |x.w.queue| < 3
    ensures var x' := Step1(x, Atomic(Ensure(k, Standard)));
      Stage(x', k, Requested, TO_HASH[..2], fl) && |x'.w.queue| == |x.w.queue| + 1
  {
    var w0 := Create(x.w, k, Standard);
    TransitionTrail(w0, k, Requested, k);
    SendTrail(Transition(w0, k, Requested), JoinSwarm(k), k);
    hide Trail;
  }

  /** A report read and acted on at once. */
  lemma ReportStage(x: Split, k: Key, agent: AgentState, s: State, next: State, n: nat, fl: map<nat, Flight>)
    requires n <= 4 && Stage(x, k, s, TO_HASH[..n], fl) && 0 !in fl && TO_HASH[n] == At(next)
    requires
      || (s == Requested && agent == SwarmingReport && next == Swarming)
      || (s == Swarming && agent == CompleteReport && next == BTComplete)
      || (s == BTComplete && agent == CompleteReport && next == HashVerify)
    ensures var x' := Step1(Step1(x, Read(0, k, agent, HashNone)), Act(0));
      Stage(x', k, next, TO_HASH[..n + 1], fl) && x'.w.queue == x.w.queue
  {
    TransitionTrail(x.w, k, next, k);
    hide Trail;
    assert TO_HASH[..n] + [At(next)] == TO_HASH[..n + 1];
    assert fl[0 := ReadNow(x, k, agent, HashNone)] - {0} == fl;
  }

  lemma ClimbStage(x: Split, k: Key, fl: map<nat, Flight>) returns (moves: seq<Move>)
    requires Stage(x, k, Requested, TO_HASH[..2], fl) && 0 !in fl
    ensures Stage(PlayFrom(x, moves), k, HashVerify, TO_HASH, fl) && PlayFrom(x, moves).w.queue == x.w.queue
  {
    assert TO_HASH[..5] == TO_HASH;
    var a, b := Read(0, k, SwarmingReport, HashNone), Read(0, k, CompleteReport, HashNone);
    hide Step1, Stage;
    ReportStage(x, k, SwarmingReport, Requested, Swarming, 2, fl);
    var x1 := Step1(Step1(x, a), Act(0));
    ReportStage(x1, k, CompleteReport, Swarming, BTComplete, 3, fl);
    var x2 := Step1(Step1(x1, b), Act(0));
    ReportStage(x2, k, CompleteReport, BTComplete, HashVerify, 4, fl);
    PlayTwo(x, a, Act(0));
    PlayTwo(x1, b, Act(0));
    PlayTwo(x2, b, Act(0));
    moves := [a, Act(0)] + [b, Act(0)] + [b, Act(0)];
    PlayAppend(x, [a, Act(0)], [b, Act(0)]);
    PlayAppend(x, [a, Act(0)] + [b, Act(0)], [b, Act(0)]);
  }

  lemma ReadOkStage(x: Split, k: Key, id: nat, t: seq<Mark>, fl: map<nat, Flight>)
    requires Stage(x, k, HashVerify, t, fl) && id !in fl
    ensures var x' := Step1(x, Read(id, k, SeedingReport, HashGood));
      var f := ReadNow(x, k, SeedingReport, HashGood);
      Stage(x', k, HashVerify, t + [GotHashOk], fl[id := f]) && Vouches(f) && x'.w.queue == x.w.queue
  {
    TrailGrows(x.w.log, HashOk(k), k);
    hide Trail;
  }

  lemma ActOkStage(x: Split, k: Key, id: nat, t: seq<Mark>, fl: map<nat, Flight>)
    requires Stage(x, k, HashVerify, t, fl) && id in fl && Vouches(fl[id]) && fl[id].key == k
    ensures var x' := Step1(x, Act(id));
      Stage(x', k, Verified, t + [At(Verified)], fl[id := ToSeed(k)]) && x'.w.queue == x.w.queue
  {
    TransitionTrail(x.w, k, Verified, k);
    hide Trail;
  }

  lemma SeedStage(x: Split, k: Key, id: nat, t: seq<Mark>, fl: map<nat, Flight>)
    requires Stage(x, k, Verified, t, fl) && id in fl && fl[id] == ToSeed(k)
    ensures var x' := Step1(x, Act(id)); Stage(x', k, Seeding, t + [At(Seeding)], fl - {id}) && x'.w.queue == x.w.queue
  {
    TransitionTrail(x.w, k, Seeding, k);
    hide Trail;
  }

  lemma EvictStage(x: Split, k: Key, t: seq<Mark>, fl: map<nat, Flight>)
    requires Stage(x, k, Seeding, t, fl) && |x.w.queue| < 2
    ensures var x' := Step1(x, Atomic(Evict(k))); Stage(x', k, Absent, [], fl) && |x'.w.queue| == |x.w.queue| + 1
  {
    EvictTrail(x.w, k, k);
    hide Trail;
  }

  function PlayFrom(x: Split, moves: seq<Move>): Split {
    if moves == [] then x else Step1(PlayFrom(x, moves[..|moves| - 1]), moves[|moves| - 1])
  }

  lemma PlayTwo(x: Split, a: Move, b: Move)
    ensures PlayFrom(x, [a, b]) == Step1(Step1(x, a), b)
  {
    assert [a, b][..1] == [a] && [a][..0] == [];
    assert PlayFrom(x, [a]) == Step1(x, a);
  }

  lemma PlayOne(x: Split, a: Move)
    ensures PlayFrom(x, [a]) == Step1(x, a)
  {
    assert [a][..0] == [];
  }

  lemma {:induction false} PlayAppend(x: Split, a: seq<Move>, b: seq<Move>)
    ensures PlayFrom(x, a + b) == PlayFrom(PlayFrom(x, a), b)
  {
    hide Step1;
    if b == [] {
      assert a + b == a;
    } else {
      PlayAppend(x, a, b[..|b| - 1]);
      assert (a + b)[..|a + b| - 1] == a + b[..|b| - 1];
    }
  }

  lemma {:induction false} PlayIsFrom(moves: seq<Move>)
    ensures Play(moves) == PlayFrom(Play([]), moves)
  {
    hide Step1;
    if moves != [] {
      PlayIsFrom(moves[..|moves| - 1]);
    }
  }

  /** Up to HASH_VERIFY, with nothing in flight. */
  lemma FirstCopy(k: Key) returns (moves: seq<Move>)
    ensures Stage(PlayFrom(Play([]), moves), k, HashVerify, TO_HASH, map[])
    ensures |PlayFrom(Play([]), moves).w.queue| == 1
  {
    var x := Play([]);
    assert Stage(x, k, Absent, [], map[]) && |x.w.queue| == 0;
    hide Step1, Stage, Play;
    EnsureStage(x, k, map[]);
    PlayOne(x, Atomic(Ensure(k, Standard)));
    var more := ClimbStage(Step1(x, Atomic(Ensure(k, Standard))), k, map[]);
    PlayAppend(x, [Atomic(Ensure(k, Standard))], more);
    moves := [Atomic(Ensure(k, Standard))] + more;
  }

  /** Two hash_ok reads of one copy, of which the first acts. */
  lemma TwoReads(x: Split, k: Key) returns (moves: seq<Move>, f: Flight, t: seq<Mark>)
    requires Stage(x, k, HashVerify, TO_HASH, map[]) && |x.w.queue| == 1
    ensures Stage(PlayFrom(x, moves), k, Seeding, t, map[2 := f]) && |PlayFrom(x, moves).w.queue| == 1
    ensures Vouches(f) && f.key == k
  {
    var r1, r2 := Read(1, k, SeedingReport, HashGood), Read(2, k, SeedingReport, HashGood);
    t := TO_HASH + [GotHashOk] + [GotHashOk];
    var f1 := ReadNow(x, k, SeedingReport, HashGood);
    hide Step1, Stage, Vouches;
    ReadOkStage(x, k, 1, TO_HASH, map[]);
    var x1 := Step1(x, r1);
    f := ReadNow(x1, k, SeedingReport, HashGood);
    ReadOkStage(x1, k, 2, TO_HASH + [GotHashOk], map[1 := f1]);
    var fl := map[1 := f1, 2 := f];
    assert map[][1 := f1] == map[1 := f1] && map[1 := f1][2 := f] == fl;
    var x2 := Step1(x1, r2);
    ActOkStage(x2, k, 1, t, fl);
    var x3 := Step1(x2, Act(1));
    SeedStage(x3, k, 1, t + [At(Verified)], fl[1 := ToSeed(k)]);
    assert fl[1 := ToSeed(k)] - {1} == map[2 := f];
    t := t + [At(Verified)] + [At(Seeding)];
    PlayTwo(x, r1, r2);
    PlayTwo(x2, Act(1), Act(1));
    PlayAppend(x, [r1, r2], [Act(1), Act(1)]);
    moves := [r1, r2] + [Act(1), Act(1)];
  }

  /** The copy is evicted and asked for again. */
  lemma Rejoin(x: Split, k: Key, t: seq<Mark>, fl: map<nat, Flight>) returns (moves: seq<Move>)
    requires Stage(x, k, Seeding, t, fl) && |x.w.queue| == 1 && 0 !in fl
    ensures Stage(PlayFrom(x, moves), k, HashVerify, TO_HASH, fl)
  {
    var e, j := Atomic(Evict(k)), Atomic(Ensure(k, Standard));
    hide Step1, Stage;
    EvictStage(x, k, t, fl);
    EnsureStage(Step1(x, e), k, fl);
    var more := ClimbStage(Step1(Step1(x, e), j), k, fl);
    PlayTwo(x, e, j);
    PlayAppend(x, [e, j], more);
    moves := [e, j] + more;
  }

  lemma NextCopy(x: Split, k: Key) returns (moves: seq<Move>, f: Flight)
    requires Stage(x, k, HashVerify, TO_HASH, map[]) && |x.w.queue| == 1
    ensures Stage(PlayFrom(x, moves), k, HashVerify, TO_HASH, map[2 := f])
    ensures Vouches(f) && f.key == k
  {
    hide *;
    var a, t;
    a, f, t := TwoReads(x, k);
    var b := Rejoin(PlayFrom(x, a), k, t, map[2 := f]);
    PlayAppend(x, a, b);
    moves := a + b;
  }

  /** Such a run: the second hash_ok, read before the eviction, verifies the next copy, which nobody vouched
      for. */
  lemma StaleReportVerifies(k: Key) returns (moves: seq<Move>)
    ensures var w := Play(moves).w; CountsAsVerified(StateOf(w, k)) && GotHashOk !in Trail(w.log, k)
    ensures !ProvenThroughout(moves)
  {
    var first := FirstCopy(k);
    var x := PlayFrom(Play([]), first);
    var next, f := NextCopy(x, k);
    PlayAppend(Play([]), first, next);
    var y := PlayFrom(x, next);
    ActOkStage(y, k, 2, TO_HASH, map[2 := f]);
    PlayAppend(Play([]), first + next, [Act(2)]);
    PlayOne(y, Act(2));
    moves := first + next + [Act(2)];
    PlayIsFrom(moves);
    hide Step1, Play, PlayFrom, Trail;
    NotVouched();
    LastIsProven(moves, k);
  }

  lemma NotVouched()
    ensures !Vouched(TO_HASH + [At(Verified)]) && GotHashOk !in TO_HASH + [At(Verified)]
  {
    assert (TO_HASH + [At(Verified)])[5] == At(Verified) && (TO_HASH + [GotHashOk])[5] == GotHashOk;
  }

  lemma LastIsProven(moves: seq<Move>, k: Key)
    ensures ProvenThroughout(moves) ==> ProvenAt(Play(moves).w, k)
  {
    if ProvenThroughout(moves) {
      LastProven(moves);
    }
  }
}
