/** Nodes and replicas together: heartbeats, staleness passes, the grace-period part of reconcile passes, and
    every other controller and agent step, in any order. */
module Fleet {
  import opened Options
  import opened Replicas
  import NR = NodeReach

  /** How a node was registered and what it went through since. */
  datatype History = History(tier: NR.Tier, start: int, wan: NR.WanBudget, steps: seq<NR.Step>)

  datatype Fleet = Fleet(nodes: map<nat, NR.Node>, w: World, past: map<nat, History>)

  datatype Step =
    | Register(id: nat, tier: NR.Tier, now: int, wan: NR.WanBudget)
    | Beat(id: nat, now: int)
    | MarkStale(threshold: int, now: int)
    | Grace(key: Key, now: int)          // a reconcile pass looks at one replica
    | Control(step: Replicas.Step)       // anything but an eviction

  function Noted(past: map<nat, History>, id: nat, step: NR.Step): map<nat, History> {
    if id in past then past[id := past[id].(steps := past[id].steps + [step])] else past
  }

  function Apply(f: Fleet, step: Step): Fleet {
    match step
    case Register(id, tier, now, wan) =>
      f.(nodes := f.nodes[id := NR.Registered(tier, now, wan)], past := f.past[id := History(tier, now, wan, [])])
    case Beat(id, now) =>
      if id in f.nodes
      then f.(nodes := f.nodes[id := NR.Beaten(f.nodes[id], now)], past := Noted(f.past, id, NR.Heartbeat(now))) else f
    case MarkStale(threshold, now) =>
      f.(nodes := map id | id in f.nodes :: NR.Marked(f.nodes[id], threshold, now),
         past := map id | id in f.past :: f.past[id].(steps := f.past[id].steps + [NR.Pass(threshold, now)]))
    case Grace(k, now) =>
      if k.node in f.nodes && NR.GraceExpired(f.nodes[k.node], now) then f.(w := Replicas.Apply(f.w, Evict(k))) else f
    case Control(s) => if s.Evict? then f else f.(w := Replicas.Apply(f.w, s))
  }

  function Run(steps: seq<Step>): Fleet {
    if steps == [] then Fleet(map[], Replicas.START, map[]) else Apply(Run(steps[..|steps| - 1]), steps[|steps| - 1])
  }

  /** A staleness pass looks back from the present. */
  predicate Sane(steps: seq<Step>) {
    forall i :: 0 <= i < |steps| && steps[i].MarkStale? ==> steps[i].threshold <= steps[i].now
  }

  function Since(h: History): NR.Node {
    NR.Run(NR.Registered(h.tier, h.start, h.wan), h.steps)
  }

  ghost predicate Fits(n: NR.Node, h: History) {
    n == Since(h) && NR.Sane(h.steps) && NR.NoDown(h.steps)
  }

  /** Every node is what its history makes of it. */
  ghost predicate Accounted(f: Fleet) {
    f.past.Keys == f.nodes.Keys && forall id :: id in f.nodes ==> Fits(f.nodes[id], f.past[id])
  }

  lemma OneMore(h: History, step: NR.Step)
    ensures Since(h.(steps := h.steps + [step])) == NR.Apply(Since(h), step)
  {
    assert (h.steps + [step])[..|h.steps|] == h.steps;
  }

  lemma FitsMore(n: NR.Node, h: History, step: NR.Step)
    requires Fits(n, h) && !step.Down? && (step.Pass? ==> step.threshold <= step.now)
    ensures Fits(NR.Apply(n, step), h.(steps := h.steps + [step]))
  {
    OneMore(h, step);
    hide Since;
  }

  lemma BeatAccounted(f: Fleet, id: nat, now: int)
    requires Accounted(f)
    ensures Accounted(Apply(f, Beat(id, now)))
  {
    if id in f.nodes {
      FitsMore(f.nodes[id], f.past[id], NR.Heartbeat(now));
      hide Fits;
    }
  }

  lemma StaleAccounted(f: Fleet, threshold: int, now: int)
    requires Accounted(f) && threshold <= now
    ensures Accounted(Apply(f, MarkStale(threshold, now)))
  {
    forall id | id in f.nodes
      ensures Fits(NR.Marked(f.nodes[id], threshold, now),
                   f.past[id].(steps := f.past[id].steps + [NR.Pass(threshold, now)]))
    {
      FitsMore(f.nodes[id], f.past[id], NR.Pass(threshold, now));
    }
    hide Fits, NR.Marked;
  }

  lemma FitsAtFirst(tier: NR.Tier, now: int, wan: NR.WanBudget)
    ensures Fits(NR.Registered(tier, now, wan), History(tier, now, wan, []))
  {
  }

  lemma StepAccounted(f: Fleet, step: Step)
    requires Accounted(f) && (step.MarkStale? ==> step.threshold <= step.now)
    ensures Accounted(Apply(f, step))
  {
    hide Fits, NR.Registered, NR.Marked, NR.Beaten;
    match step
    case Register(id, tier, now, wan) => FitsAtFirst(tier, now, wan);
    case Beat(id, now) => BeatAccounted(f, id, now);
    case MarkStale(threshold, now) => StaleAccounted(f, threshold, now);
    case _ =>
  }

  lemma {:induction false} RunAccounted(steps: seq<Step>)
    requires Sane(steps)
    ensures Accounted(Run(steps))
  {
    if steps != [] {
      hide Apply, Accounted;
      RunAccounted(steps[..|steps| - 1]);
      StepAccounted(Run(steps[..|steps| - 1]), steps[|steps| - 1]);
    }
  }

  /** Only an eviction takes a verified replica to ABSENT. */
  lemma OnlyEvictionDrops(w: World, s: Replicas.Step, k: Key)
    requires CountsAsVerified(StateOf(w, k)) && s != Evict(k)
    ensures StateOf(Replicas.Apply(w, s), k) != Absent
  {
  }

  /** Over every run: a replica goes from verified to ABSENT only in a grace check of a pass, exactly when its node
      is past the grace period then, and such a node has missed FlapThreshold passes without a heartbeat and been
      silent for longer than GraceTTL. */
  lemma EvictionMeansSilence(steps: seq<Step>, step: Step, k: Key)
    requires Sane(steps) && CountsAsVerified(StateOf(Run(steps).w, k))
    ensures var f := Run(steps);
      && (StateOf(Apply(f, step).w, k) == Absent <==>
            step.Grace? && step.key == k && k.node in f.nodes && NR.GraceExpired(f.nodes[k.node], step.now))
      && (StateOf(Apply(f, step).w, k) == Absent ==>
            && k.node in f.past
            && var h := f.past[k.node];
               && NR.Missed(h.start, h.steps) >= NR.FLAP_THRESHOLD
               && step.now - NR.LastBeat(h.start, h.steps) > NR.GRACE_TTL)
  {
    var f := Run(steps);
    RunAccounted(steps);
    hide Run, NR.Run, NR.Missed;
    if step.Grace? && step.key == k {
      if k.node in f.nodes && NR.GraceExpired(f.nodes[k.node], step.now) {
        var h := f.past[k.node];
        NR.GraceExpiredIff(h.tier, h.start, h.wan, h.steps, step.now);
      }
    } else if step.Grace? {
      OnlyEvictionDrops(f.w, Evict(step.key), k);
    } else if step.Control? && !step.step.Evict? {
      OnlyEvictionDrops(f.w, step.step, k);
    }
  }
}
