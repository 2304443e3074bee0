/** Reachability of managed nodes: heartbeats, staleness passes, and the WAN budget. */
module NodeReach {
  import opened Options

  datatype Tier = Edge | Regional | Core
  datatype Reach = Reachable | Flapping | Unreachable

  const FLAP_THRESHOLD := 3
  const GRACE_TTL := 600_000_000_000  // ten minutes, in nanoseconds

  /** `lastReset` is a day number; None until the first use. */
  datatype WanBudget = WanBudget(limit: int, used: int, lastReset: Option<int>)

  datatype Node = Node(tier: Tier, reach: Reach, flapCount: int, lastSeen: int, lastFlap: Option<int>, wan: WanBudget)

  // ----- One locked region on one node -----

  function Registered(tier: Tier, now: int, wan: WanBudget): Node {
    Node(tier, Reachable, 0, now, None, wan)
  }

  function Beaten(n: Node, now: int): Node {
    n.(lastSeen := now, reach := Reachable, flapCount := 0)
  }

  /** The staleness pass on one node, with the threshold the pass was started with. */
  function Marked(n: Node, threshold: int, now: int): Node {
    if n.lastSeen >= threshold then n
    else match n.reach
      case Reachable => n.(reach := Flapping, flapCount := 1, lastFlap := Some(now))
      case Flapping =>
        n.(flapCount := n.flapCount + 1, reach := if n.flapCount + 1 >= FLAP_THRESHOLD then Unreachable else Flapping)
      case Unreachable => n
  }

  function HardDown(n: Node): Node {
    n.(reach := Unreachable)
  }

  // ----- Runs of one node -----

  datatype Step = Heartbeat(now: int) | Pass(threshold: int, now: int) | Down

  /** A pass looks back from the present. */
  predicate Sane(steps: seq<Step>) {
    forall i :: 0 <= i < |steps| && steps[i].Pass? ==> steps[i].threshold <= steps[i].now
  }

  function Apply(n: Node, step: Step): Node {
    match step
    case Heartbeat(now) => Beaten(n, now)
    case Pass(threshold, now) => Marked(n, threshold, now)
    case Down => HardDown(n)
  }

  function Run(n: Node, steps: seq<Step>): Node {
    if steps == [] then n else Apply(Run(n, steps[..|steps| - 1]), steps[|steps| - 1])
  }

  /** When the node was last heard of: its last heartbeat, or its registration. */
  function LastBeat(start: int, steps: seq<Step>): int {
    if steps == [] then start
    else match steps[|steps| - 1]
      case Heartbeat(now) => now
      case _ => LastBeat(start, steps[..|steps| - 1])
  }

  /** Passes since the last heartbeat that looked back further than it. */
  function Missed(start: int, steps: seq<Step>): nat {
    if steps == [] then 0
    else
      var front := steps[..|steps| - 1];
      match steps[|steps| - 1]
      case Heartbeat(_) => 0
      case Pass(threshold, _) => Missed(start, front) + if LastBeat(start, front) < threshold then 1 else 0
      case Down => Missed(start, front)
  }

  /** When the first of those passes was. */
  function FirstMiss(start: int, steps: seq<Step>): Option<int> {
    if steps == [] then None
    else
      var front := steps[..|steps| - 1];
      match steps[|steps| - 1]
      case Heartbeat(_) => None
      case Pass(threshold, now) =>
        if Missed(start, front) == 0 && LastBeat(start, front) < threshold then Some(now) else FirstMiss(start, front)
      case Down => FirstMiss(start, front)
  }

  /** Nobody called `MarkUnreachable`. */
  predicate NoDown(steps: seq<Step>) {
    forall i :: 0 <= i < |steps| ==> !steps[i].Down?
  }

  /** Once silent, the node was last seen strictly before it began to flap. */
  ghost predicate Inv(n: Node) {
    n.reach != Reachable ==> n.lastFlap.Some? && n.lastSeen < n.lastFlap.value
  }

  lemma {:induction false} LastSeenIsLastBeat(tier: Tier, start: int, wan: WanBudget, steps: seq<Step>)
    ensures
      var e := Run(Registered(tier, start, wan), steps);
      e.lastSeen == LastBeat(start, steps) && e.tier == tier && e.wan == wan
  {
    if steps != [] {
      LastSeenIsLastBeat(tier, start, wan, steps[..|steps| - 1]);
    }
  }

  /** The reach state is a function of the missed passes: UNREACHABLE after exactly FlapThreshold of them with no
      heartbeat between, FLAPPING after at least one, REACHABLE otherwise; and the flap time is that of the first. */
  lemma {:induction false} ReachCountsMissedPasses(tier: Tier, start: int, wan: WanBudget, steps: seq<Step>)
    requires Sane(steps) && NoDown(steps)
    ensures var e, missed := Run(Registered(tier, start, wan), steps), Missed(start, steps);
      && e.reach == (if missed == 0 then Reachable else if missed < 3 then Flapping else Unreachable)
      && (e.reach != Unreachable ==> e.flapCount == missed)
      && (missed > 0 ==> e.lastFlap == FirstMiss(start, steps) && e.lastFlap.Some?)
      && Inv(e)
  {
    if steps != [] {
      ReachCountsMissedPasses(tier, start, wan, steps[..|steps| - 1]);
      LastSeenIsLastBeat(tier, start, wan, steps[..|steps| - 1]);
    }
  }

  // ----- Grace -----

  /** The guard under which the controller force-evicts replicas of a node. */
  predicate GraceExpired(n: Node, now: int) {
    n.reach == Unreachable && n.lastFlap.Some? && now - n.lastFlap.value > GRACE_TTL
  }

  /** In runs of heartbeats and staleness passes, a node is past its grace period exactly when it has missed
      FlapThreshold passes and the first of them is longer ago than GraceTTL; so it has been silent for longer. */
  lemma GraceExpiredIff(tier: Tier, start: int, wan: WanBudget, steps: seq<Step>, now: int)
    requires Sane(steps) && NoDown(steps)
    ensures
      var first := FirstMiss(start, steps);
      GraceExpired(Run(Registered(tier, start, wan), steps), now) <==>
      Missed(start, steps) >= FLAP_THRESHOLD && first.Some? && now - first.value > GRACE_TTL
    ensures GraceExpired(Run(Registered(tier, start, wan), steps), now) ==> now - LastBeat(start, steps) > GRACE_TTL
  {
    ReachCountsMissedPasses(tier, start, wan, steps);
    LastSeenIsLastBeat(tier, start, wan, steps);
    hide Run, Missed, FirstMiss, LastBeat;
  }

  // ----- The explicit hard-down call -----

  predicate SeenSinceFlap(n: Node) {
    n.lastFlap.Some? && n.lastSeen > n.lastFlap.value
  }

  /** Since the last heartbeat, a hard-down hit a node that had been seen since its last flap. */
  predicate DownAfterRecovery(n: Node, steps: seq<Step>) {
    if steps == [] then false
    else
      var front := steps[..|steps| - 1];
      match steps[|steps| - 1]
      case Heartbeat(_) => false
      case Pass(_, _) => DownAfterRecovery(n, front)
      case Down => DownAfterRecovery(n, front) || SeenSinceFlap(Run(n, front))
  }

  lemma {:induction false} DownHistory(tier: Tier, start: int, wan: WanBudget, steps: seq<Step>)
    requires Sane(steps)
    ensures var n := Registered(tier, start, wan);
      && (Run(n, steps).reach == Unreachable && SeenSinceFlap(Run(n, steps)) <==> DownAfterRecovery(n, steps))
      && (Run(n, steps).reach == Flapping ==> !SeenSinceFlap(Run(n, steps)))
  {
    if steps != [] {
      DownHistory(tier, start, wan, steps[..|steps| - 1]);
    }
  }

  /** Over every run with hard-downs: being past the grace period means having been silent for longer, at all
      later times, if and only if no hard-down since the last heartbeat hit a node seen since its last flap. */
  lemma SilentIff(tier: Tier, start: int, wan: WanBudget, steps: seq<Step>)
    requires Sane(steps)
    ensures var n := Registered(tier, start, wan);
      (forall now :: GraceExpired(Run(n, steps), now) ==> now - LastBeat(start, steps) > GRACE_TTL)
      <==> !DownAfterRecovery(n, steps)
  {
    DownHistory(tier, start, wan, steps);
    LastSeenIsLastBeat(tier, start, wan, steps);
    var e := Run(Registered(tier, start, wan), steps);
    hide Run, DownAfterRecovery, Registered, LastBeat;
    if e.reach == Unreachable && SeenSinceFlap(e) {
      var now := e.lastFlap.value + GRACE_TTL + 1;
      assert GraceExpired(e, now) && now - e.lastSeen <= GRACE_TTL;
    }
  }

  /** Flap, recover, hard-down: past the grace period a nanosecond before having been silent for that long. */
  lemma HardDownBreaks(tier: Tier, wan: WanBudget)
    ensures
      var e := Run(Registered(tier, 0, wan), [Pass(1, 1), Heartbeat(2), Down]);
      var now := 2 + GRACE_TTL;
      GraceExpired(e, now) && now - e.lastSeen <= GRACE_TTL
  {
    var n := Registered(tier, 0, wan);
    var a, b, c := Pass(1, 1), Heartbeat(2), Down;
    assert [a, b, c][..2] == [a, b] && [a, b][..1] == [a] && [a][..0] == [];
    assert Run(n, [a]) == Marked(n, 1, 1);
    assert Run(n, [a, b]) == Beaten(Marked(n, 1, 1), 2);
  }

  // ----- WAN budget -----

  function ResetIfNewDay(b: WanBudget, today: int): WanBudget {
    if b.limit == 0 then b
    else if b.lastReset.None? then b.(lastReset := Some(today))
    else if b.lastReset.value != today then b.(used := 0, lastReset := Some(today))
    else b
  }

  function Uploaded(b: WanBudget, bytes: int, today: int): WanBudget {
    if bytes <= 0 then b
    else var b' := ResetIfNewDay(b, today); b'.(used := b'.used + bytes)
  }

  /** At least nine tenths of a positive daily limit are used. */
  predicate NearCap(b: WanBudget, today: int) {
    b.limit > 0 && ResetIfNewDay(b, today).used as real / b.limit as real >= 0.9
  }

  function UsedOn(day: int, uploads: seq<(int, int)>): int {
    if uploads == [] then 0
    else
      var (bytes, d) := uploads[|uploads| - 1];
      UsedOn(day, uploads[..|uploads| - 1]) + if d == day && bytes > 0 then bytes else 0
  }

  function AfterUploads(b: WanBudget, uploads: seq<(int, int)>): WanBudget {
    if uploads == [] then b
    else Uploaded(AfterUploads(b, uploads[..|uploads| - 1]), uploads[|uploads| - 1].0, uploads[|uploads| - 1].1)
  }

  /** Uploads reported in day order. */
  ghost predicate Ordered(uploads: seq<(int, int)>, from: int) {
    forall i :: 0 <= i < |uploads| ==>
      from <= uploads[i].1 && forall j :: 0 <= j < i ==> uploads[j].1 <= uploads[i].1
  }

  lemma {:induction false} NothingUsedYet(day: int, uploads: seq<(int, int)>)
    requires forall i :: 0 <= i < |uploads| ==> uploads[i].0 <= 0 || uploads[i].1 < day
    ensures UsedOn(day, uploads) == 0
  {
    if uploads != [] {
      NothingUsedYet(day, uploads[..|uploads| - 1]);
    }
  }

  /** A limited budget counts exactly the positive uploads of its current day. */
  lemma {:induction false} BudgetCountsToday(limit: int, from: int, uploads: seq<(int, int)>)
    requires limit != 0 && Ordered(uploads, from)
    ensures var b := AfterUploads(WanBudget(limit, 0, Some(from)), uploads);
      && b.limit == limit && b.lastReset.Some? && from <= b.lastReset.value
      && b.used == UsedOn(b.lastReset.value, uploads)
      && (forall i :: 0 <= i < |uploads| && uploads[i].0 > 0 ==> uploads[i].1 <= b.lastReset.value)
  {
    if uploads != [] {
      var n := |uploads| - 1;
      var front := uploads[..n];
      var (bytes, day) := uploads[n];
      BudgetCountsToday(limit, from, front);
      var b := AfterUploads(WanBudget(limit, 0, Some(from)), front);
      if bytes > 0 && day != b.lastReset.value {
        assert b.lastReset.value < day by {
          LastResetIsOld(limit, from, front, day);
        }
        NothingUsedYet(day, front);
      }
    }
  }

  lemma {:induction false} LastResetIsOld(limit: int, from: int, uploads: seq<(int, int)>, day: int)
    requires limit != 0 && from <= day && forall i :: 0 <= i < |uploads| ==> uploads[i].1 <= day
    ensures var b := AfterUploads(WanBudget(limit, 0, Some(from)), uploads);
      b.limit == limit && b.lastReset.Some? && b.lastReset.value <= day
  {
    if uploads != [] {
      LastResetIsOld(limit, from, uploads[..|uploads| - 1], day);
    }
  }

  /** A node is near its cap exactly when it has a limit and today's uploads reach nine tenths of it. */
  lemma NearCapIff(limit: int, from: int, uploads: seq<(int, int)>, today: int)
    requires limit != 0 && Ordered(uploads, from) && from <= today
    requires forall i :: 0 <= i < |uploads| ==> uploads[i].1 <= today
    ensures NearCap(AfterUploads(WanBudget(limit, 0, Some(from)), uploads), today)
            <==> limit > 0 && UsedOn(today, uploads) as real / limit as real >= 0.9
  {
    BudgetCountsToday(limit, from, uploads);
    LastResetIsOld(limit, from, uploads, today);
    var b := AfterUploads(WanBudget(limit, 0, Some(from)), uploads);
    if b.lastReset.value != today {
      NothingUsedYet(today, uploads);
    }
  }

  // ----- The registry -----

  class NodeRegistry {
    var nodes: map<nat, Node>

    constructor ()
      ensures nodes == map[]
    {
      nodes := map[];
    }

    method Register(id: nat, tier: Tier, wan: WanBudget, now: int)
      modifies this
      ensures nodes == old(nodes)[id := Registered(tier, now, wan)]
    {
      nodes := nodes[id := Node(tier, Reachable, 0, now, None, wan)];
    }

    method Heartbeat(id: nat, now: int)
      modifies this
      ensures nodes == if id in old(nodes) then old(nodes)[id := Beaten(old(nodes)[id], now)] else old(nodes)
    {
      if id in nodes {
        nodes := nodes[id := nodes[id].(lastSeen := now, reach := Reachable, flapCount := 0)];
      }
    }

    /** Collect the silent nodes, then advance each of them once. */
    method MarkStale(now: int, cutoff: int)
      modifies this
      ensures nodes == map id | id in old(nodes) :: Marked(old(nodes)[id], now - cutoff, now)
    {
      var threshold := now - cutoff;
      var stale := set id | id in nodes && nodes[id].lastSeen < threshold;
      var rest := stale;
      while rest != {}
        invariant rest <= stale && nodes.Keys == old(nodes).Keys
        invariant forall id :: id in nodes ==>
          nodes[id] == if id in stale - rest then Marked(old(nodes)[id], threshold, now) else old(nodes)[id]
        decreases rest
      {
        var id :| id in rest;
        rest := rest - {id};
        var n := nodes[id];
        if n.lastSeen < threshold {
          match n.reach {
            case Reachable =>
              n := n.(reach := Flapping, flapCount := 1, lastFlap := Some(now));
            case Flapping =>
              n := n.(flapCount := n.flapCount + 1);
              if n.flapCount >= FLAP_THRESHOLD {
                n := n.(reach := Unreachable);
              }
            case Unreachable =>
          }
          nodes := nodes[id := n];
        }
      }
    }
  }
}
