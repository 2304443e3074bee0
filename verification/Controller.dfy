/** The swarm policy controller: one reconcile pass over an artifact, and the ensure request. */
module Controller {
  import opened Options
  import opened Replicas
  import opened Seqs
  import NR = NodeReach
  import P = Placement

  datatype EnsureReply =
    | NoSuchArtifact | NoSuchNode | AlreadyVerified(state: State) | InProgress(state: State) | Queued | ChannelFull

  // ----- What a pass may do -----

  ghost predicate IsCoreHolder(nodes: map<nat, NR.Node>, w: World, hash: string, id: nat) {
    id in nodes && nodes[id].tier == NR.Core && CountsAsVerified(StateOf(w, Key(id, hash)))
  }

  ghost predicate HasCore(nodes: map<nat, NR.Node>, w: World, hash: string) {
    exists id :: IsCoreHolder(nodes, w, hash, id)
  }

  /** The node may receive a JOIN for this artifact. */
  ghost predicate Eligible(nodes: map<nat, NR.Node>, w: World, hash: string, today: int, id: nat) {
    && id in nodes && nodes[id].reach == NR.Reachable
    && StateOf(w, Key(id, hash)) == Absent
    && !NR.NearCap(nodes[id].wan, today)
    && (nodes[id].tier == NR.Edge ==> HasCore(nodes, w, hash))
  }

  /** The replicas that count towards the target. */
  ghost function Verifieds(w: World, hash: string): set<Key> {
    set k | k in w.replicas && k.hash == hash && CountsAsVerified(w.replicas[k].state) && CountsTowardSLA(w.replicas[k].cls)
  }

  // ----- Heat -----

  const HEAT_PROMOTE := 3

  predicate Hot(share: real) { share > 0.3 }

  /** A verified EPHEMERAL replica of the artifact on an EDGE node whose network's share of the demand is known. */
  ghost predicate Considered(nodes: map<nat, NR.Node>, replicas: map<Key, Replica>, hash: string, shares: map<nat, real>, k: Key) {
    && k in replicas && k.hash == hash && CountsAsVerified(replicas[k].state) && replicas[k].cls == Ephemeral
    && k.node in nodes && nodes[k.node].tier == NR.Edge && k.node in shares
  }

  function HeatOf(heat: map<Key, nat>, k: Key): nat {
    if k in heat then heat[k] else 0
  }

  function Heated(heat: nat, share: real): nat {
    if Hot(share) then heat + 1 else 0
  }

  function Promoted(heat: nat, share: real): Class {
    if Hot(share) && heat + 1 >= HEAT_PROMOTE then Cache else Ephemeral
  }

  ghost function ReplicaAfter(nodes: map<nat, NR.Node>, replicas: map<Key, Replica>, heat: map<Key, nat>, hash: string,
                              shares: map<nat, real>, k: Key): Replica
    requires k in replicas
  {
    if Considered(nodes, replicas, hash, shares, k)
    then replicas[k].(cls := Promoted(HeatOf(heat, k), shares[k.node])) else replicas[k]
  }

  ghost function HeatAfter(nodes: map<nat, NR.Node>, replicas: map<Key, Replica>, heat: map<Key, nat>, hash: string,
                           shares: map<nat, real>, k: Key): nat
  {
    if Considered(nodes, replicas, hash, shares, k) then Heated(HeatOf(heat, k), shares[k.node]) else HeatOf(heat, k)
  }

  /** Heat and class of every replica after the classification. */
  ghost predicate Classified(nodes: map<nat, NR.Node>, replicas: map<Key, Replica>, heat: map<Key, nat>, hash: string,
                             shares: map<nat, real>, replicas': map<Key, Replica>, heat': map<Key, nat>)
  {
    && replicas'.Keys == replicas.Keys
    && (forall k :: k in replicas ==> replicas'[k] == ReplicaAfter(nodes, replicas, heat, hash, shares, k))
    && (forall k :: HeatOf(heat', k) == HeatAfter(nodes, replicas, heat, hash, shares, k))
  }

  lemma ClassifiedKeeps(nodes: map<nat, NR.Node>, w: World, heat: map<Key, nat>, hash: string,
                        shares: map<nat, real>, w': World, heat': map<Key, nat>)
    requires Classified(nodes, w.replicas, heat, hash, shares, w'.replicas, heat')
    ensures forall k :: StateOf(w', k) == StateOf(w, k)
    ensures Verifieds(w', hash) == Verifieds(w, hash)
  {
  }

  /** One classification: the controller's view before it, and what it leaves. */
  datatype Pass = Pass(hash: string, nodes: map<nat, NR.Node>, shares: map<nat, real>,
                       replicas: map<Key, Replica>, heat: map<Key, nat>,
                       replicas': map<Key, Replica>, heat': map<Key, nat>)

  ghost predicate Classifies(p: Pass) {
    Classified(p.nodes, p.replicas, p.heat, p.hash, p.shares, p.replicas', p.heat')
  }

  ghost predicate Sees(p: Pass, k: Key) {
    Considered(p.nodes, p.replicas, p.hash, p.shares, k)
  }

  ghost predicate Follows(p: Pass, next: Pass, k: Key) {
    && k in p.replicas' && k in next.replicas && next.replicas[k].cls == p.replicas'[k].cls
    && HeatOf(next.heat, k) == HeatOf(p.heat', k)
  }

  /** Passes in a row, of any artifacts, with nodes, shares and states changing freely in between: heat carries over, and
      only the passes change the class of `k`, which starts EPHEMERAL and without heat. */
  ghost predicate PassRun(ps: seq<Pass>, k: Key) {
    && (forall i :: 0 <= i < |ps| ==> Classifies(ps[i]) && k in ps[i].replicas)
    && (forall i :: 0 < i < |ps| ==> Follows(ps[i - 1], ps[i], k))
    && (ps != [] ==> ps[0].replicas[k].cls == Ephemeral && HeatOf(ps[0].heat, k) == 0)
  }

  /** The shares in the passes that consider `k`. */
  ghost function SharesSeen(ps: seq<Pass>, k: Key): seq<real> {
    if ps == [] then []
    else
      var front, p := SharesSeen(ps[..|ps| - 1], k), ps[|ps| - 1];
      if Sees(p, k) then front + [p.shares[k.node]] else front
  }

  /** Heat and class of a replica over the shares seen. */
  function HeatRun(shares: seq<real>): (nat, Class) {
    if shares == [] then (0, Ephemeral)
    else
      var (heat, cls) := HeatRun(shares[..|shares| - 1]);
      if cls == Ephemeral then (Heated(heat, shares[|shares| - 1]), Promoted(heat, shares[|shares| - 1])) else (heat, cls)
  }

  lemma HeatRunMore(shares: seq<real>, share: real)
    ensures var (heat, cls) := HeatRun(shares);
      HeatRun(shares + [share]) == if cls == Ephemeral then (Heated(heat, share), Promoted(heat, share)) else (heat, cls)
  {
    assert (shares + [share])[..|shares|] == shares;
  }

  lemma FrontRun(ps: seq<Pass>, k: Key)
    requires PassRun(ps, k) && ps != []
    ensures PassRun(ps[..|ps| - 1], k)
  {
    var front := ps[..|ps| - 1];
    assert forall i :: 0 <= i < |front| ==> front[i] == ps[i];
  }

  lemma OnePass(p: Pass, k: Key)
    requires Classifies(p) && k in p.replicas
    ensures k in p.replicas'
    ensures var h := HeatOf(p.heat, k);
      if Sees(p, k)
      then HeatOf(p.heat', k) == Heated(h, p.shares[k.node]) && p.replicas'[k].cls == Promoted(h, p.shares[k.node])
           && p.replicas[k].cls == Ephemeral
      else HeatOf(p.heat', k) == h && p.replicas'[k].cls == p.replicas[k].cls
  {
  }

  /** What the passes leave of the replica's heat and class is the run over the shares seen. */
  lemma {:induction false} PassesFollowHeat(ps: seq<Pass>, k: Key)
    requires PassRun(ps, k) && ps != []
    ensures var last := ps[|ps| - 1];
      k in last.replicas' && (HeatOf(last.heat', k), last.replicas'[k].cls) == HeatRun(SharesSeen(ps, k))
  {
    var front, last := ps[..|ps| - 1], ps[|ps| - 1];
    OnePass(last, k);
    if front == [] {
      assert SharesSeen(front, k) == [];
    } else {
      FrontRun(ps, k);
      PassesFollowHeat(front, k);
      assert front[|front| - 1] == ps[|ps| - 2];
    }
    hide Classified, Considered, PassRun;
    if Sees(last, k) {
      HeatRunMore(SharesSeen(front, k), last.shares[k.node]);
    }
  }

  /** The passes in a row, counted back from the last, that found the network hot. */
  function Streak(shares: seq<real>): nat {
    if shares == [] || !Hot(shares[|shares| - 1]) then 0 else 1 + Streak(shares[..|shares| - 1])
  }

  ghost predicate ThreeInARow(shares: seq<real>) {
    exists n :: 0 <= n <= |shares| && Streak(shares[..n]) >= HEAT_PROMOTE
  }

  lemma ThreeGrows(front: seq<real>, share: real)
    ensures ThreeInARow(front + [share]) <==> ThreeInARow(front) || Streak(front + [share]) >= HEAT_PROMOTE
  {
    var all := front + [share];
    assert all[..|all|] == all;
    forall n | 0 <= n <= |front| ensures all[..n] == front[..n] {
    }
    if ThreeInARow(front) {
      var n :| 0 <= n <= |front| && Streak(front[..n]) >= HEAT_PROMOTE;
      assert Streak(all[..n]) >= HEAT_PROMOTE;
    }
  }

  lemma {:induction false} HeatRunIs(shares: seq<real>)
    ensures HeatRun(shares).1 == Ephemeral || HeatRun(shares).1 == Cache
    ensures HeatRun(shares).1 == Cache <==> ThreeInARow(shares)
    ensures HeatRun(shares).1 == Ephemeral ==> HeatRun(shares).0 == Streak(shares)
  {
    if shares == [] {
      assert forall n :: 0 <= n <= |shares| ==> shares[..n] == [];
    } else {
      var front, share := shares[..|shares| - 1], shares[|shares| - 1];
      assert shares == front + [share];
      HeatRunIs(front);
      ThreeGrows(front, share);
      hide ThreeInARow;
    }
  }

  /** Over every run of passes, a replica is promoted to CACHE exactly when three of the passes that consider it, in a
      row, find its network above the threshold. Passes that do not consider it neither count nor break the row. */
  lemma PromotedIff(ps: seq<Pass>, k: Key)
    requires PassRun(ps, k) && ps != []
    ensures var last := ps[|ps| - 1];
      k in last.replicas' && (last.replicas'[k].cls == Cache <==> ThreeInARow(SharesSeen(ps, k)))
  {
    hide PassRun, ThreeInARow, SharesSeen;
    PassesFollowHeat(ps, k);
    HeatRunIs(SharesSeen(ps, k));
  }

  ghost predicate HotAt(ps: seq<Pass>, k: Key, i: int) {
    0 <= i < |ps| && Sees(ps[i], k) && Hot(ps[i].shares[k.node])
  }

  /** Three passes directly after one another that all consider the replica and find it hot, as documented. */
  ghost predicate Consecutive(ps: seq<Pass>, k: Key) {
    exists n :: HotAt(ps, k, n) && HotAt(ps, k, n + 1) && HotAt(ps, k, n + 2)
  }

  lemma SeenMore(ps: seq<Pass>, k: Key, n: nat)
    requires n < |ps|
    ensures SharesSeen(ps[..n + 1], k) ==
            if Sees(ps[n], k) then SharesSeen(ps[..n], k) + [ps[n].shares[k.node]] else SharesSeen(ps[..n], k)
  {
    assert ps[..n + 1][..n] == ps[..n];
  }

  lemma {:induction false} SeenPrefix(ps: seq<Pass>, k: Key, n: nat)
    requires n <= |ps|
    ensures SharesSeen(ps[..n], k) <= SharesSeen(ps, k)
    decreases |ps| - n
  {
    if n == |ps| {
      assert ps[..n] == ps;
    } else {
      SeenPrefix(ps, k, n + 1);
      SeenMore(ps, k, n);
    }
  }

  lemma StreakMore(shares: seq<real>, share: real)
    ensures Streak(shares + [share]) == if Hot(share) then 1 + Streak(shares) else 0
  {
    assert (shares + [share])[..|shares|] == shares;
  }

  lemma ThreeHot(x: seq<real>, a: real, b: real, c: real, all: seq<real>)
    requires Hot(a) && Hot(b) && Hot(c) && x + [a] + [b] + [c] <= all
    ensures ThreeInARow(all)
  {
    StreakMore(x, a);
    StreakMore(x + [a], b);
    StreakMore(x + [a] + [b], c);
    assert all[..|x| + 3] == x + [a] + [b] + [c];
    hide Streak;
  }

  function ShareAt(ps: seq<Pass>, k: Key, i: nat): real {
    if i < |ps| && k.node in ps[i].shares then ps[i].shares[k.node] else 0.0
  }

  lemma HotSeen(ps: seq<Pass>, k: Key, i: int)
    requires HotAt(ps, k, i)
    ensures 0 <= i < |ps| && Hot(ShareAt(ps, k, i))
    ensures SharesSeen(ps[..i + 1], k) == SharesSeen(ps[..i], k) + [ShareAt(ps, k, i)]
  {
    SeenMore(ps, k, i);
    hide SharesSeen;
  }

  /** The documented condition is enough: three such passes directly after one another always promote. */
  lemma ConsecutivePromotes(ps: seq<Pass>, k: Key)
    requires PassRun(ps, k) && Consecutive(ps, k)
    ensures ps != [] && k in ps[|ps| - 1].replicas' && ps[|ps| - 1].replicas'[k].cls == Cache
  {
    hide PassRun, HotAt, ThreeInARow, SharesSeen, ShareAt, Hot;
    var n :| HotAt(ps, k, n) && HotAt(ps, k, n + 1) && HotAt(ps, k, n + 2);
    HotSeen(ps, k, n);
    HotSeen(ps, k, n + 1);
    HotSeen(ps, k, n + 2);
    SeenPrefix(ps, k, n + 3);
    ThreeHot(SharesSeen(ps[..n], k), ShareAt(ps, k, n), ShareAt(ps, k, n + 1), ShareAt(ps, k, n + 2), SharesSeen(ps, k));
    PromotedIff(ps, k);
  }

  /** A hot pass of the artifact in which `k` is SEEDING, or not verified at all. */
  function SamplePass(k: Key, seen: bool, heat: nat): Pass {
    var now := if seen then Seeding else Swarming;
    Pass(k.hash, map[k.node := NR.Node(NR.Edge, NR.Reachable, 0, 0, None, NR.WanBudget(0, 0, None))], map[k.node := 0.5],
         map[k := Replica(Ephemeral, now)], map[k := heat],
         map[k := Replica(if seen then Promoted(heat, 0.5) else Ephemeral, now)], map[k := if seen then heat + 1 else heat])
  }

  lemma SampleClassifies(k: Key, seen: bool, heat: nat)
    ensures var p := SamplePass(k, seen, heat); Classifies(p) && k in p.replicas && (Sees(p, k) <==> seen)
  {
  }

  lemma SampleFollows(k: Key, seen: bool, heat: nat)
    requires heat < 2
    ensures Follows(SamplePass(k, seen, heat), SamplePass(k, !seen, if seen then heat + 1 else heat), k)
  {
  }

  lemma SampleEnds(k: Key)
    ensures SamplePass(k, true, 0).replicas[k].cls == Ephemeral && HeatOf(SamplePass(k, true, 0).heat, k) == 0
    ensures SamplePass(k, true, 2).replicas'[k].cls == Cache
  {
  }

  /** Hot, not verified, hot, not verified, hot: promoted, though no two hot passes follow one another. */
  lemma PromotedWithGaps(k: Key) returns (ps: seq<Pass>)
    ensures PassRun(ps, k) && |ps| == 5 && k in ps[4].replicas' && ps[4].replicas'[k].cls == Cache && !Consecutive(ps, k)
  {
    ps := [SamplePass(k, true, 0), SamplePass(k, false, 1), SamplePass(k, true, 1), SamplePass(k, false, 2), SamplePass(k, true, 2)];
    SampleEnds(k);
    SampleClassifies(k, true, 0);
    SampleClassifies(k, false, 1);
    SampleClassifies(k, true, 1);
    SampleClassifies(k, false, 2);
    SampleClassifies(k, true, 2);
    SampleFollows(k, true, 0);
    SampleFollows(k, false, 1);
    SampleFollows(k, true, 1);
    SampleLast(k);
    hide Classifies, Sees, Follows, SamplePass, HeatOf;
  }

  lemma SampleLast(k: Key)
    ensures Follows(SamplePass(k, false, 2), SamplePass(k, true, 2), k) && k in SamplePass(k, true, 2).replicas'
  {
  }

  /** The state of `k` after the grace-period pass. */
  ghost function AfterGrace(nodes: map<nat, NR.Node>, w: World, hash: string, now: int, k: Key): State {
    if Doomed(nodes, w, hash, now, k) then Absent else StateOf(w, k)
  }

  /** A verified replica of the artifact on a registered node past its grace period. */
  ghost predicate Doomed(nodes: map<nat, NR.Node>, w: World, hash: string, now: int, k: Key) {
    k.hash == hash && CountsAsVerified(StateOf(w, k)) && k.node in nodes && NR.GraceExpired(nodes[k.node], now)
  }

  /** The RETIREs of these replicas, as many as fit. */
  function FirstRetires(keys: seq<Key>, room: int): seq<Directive>
    requires room >= 0
  {
    RetiresFor(keys[..Min(|keys|, room)])
  }

  /** The doomed replicas in some order, and the queue with their RETIREs. */
  ghost predicate Evicts(nodes: map<nat, NR.Node>, w: World, hash: string, now: int, evicted: seq<Key>, queue: seq<Directive>) {
    && Distinct(evicted) && (forall k :: k in evicted <==> Doomed(nodes, w, hash, now, k))
    && |w.queue| <= QUEUE_CAP && queue == w.queue + FirstRetires(evicted, QUEUE_CAP - |w.queue|)
  }

  ghost predicate SameClasses(before: map<Key, Replica>, after: map<Key, Replica>) {
    before.Keys == after.Keys && forall k :: k in before ==> after[k].cls == before[k].cls
  }

  function CandidateOf(scores: map<nat, real>, id: nat): P.Candidate {
    P.Candidate(id, "", if id in scores then scores[id] else 0.0)
  }

  function ReplyFor(w: World, k: Key): EnsureReply {
    var s := StateOf(w, k);
    if CountsAsVerified(s) then AlreadyVerified(s)
    else if s != Absent then InProgress(s)
    else if |w.queue| < QUEUE_CAP then Queued
    else ChannelFull
  }

  /** JOINs for these nodes, in order. */
  function JoinsFor(ids: seq<nat>, hash: string): seq<Directive> {
    if ids == [] then [] else JoinsFor(ids[..|ids| - 1], hash) + [JoinSwarm(Key(ids[|ids| - 1], hash))]
  }

  function RetiresFor(keys: seq<Key>): seq<Directive> {
    if keys == [] then [] else RetiresFor(keys[..|keys| - 1]) + [RetireReplica(keys[|keys| - 1])]
  }

  function Ids(s: seq<P.Candidate>): seq<nat> {
    seq(|s|, i requires 0 <= i < |s| => s[i].node)
  }

  function Min3(a: int, b: int, c: int): int {
    Min(a, Min(b, c))
  }

  ghost function EligibleSet(nodes: map<nat, NR.Node>, w: World, hash: string, today: int): set<nat> {
    set id | id in nodes && Eligible(nodes, w, hash, today, id)
  }

  /** Replicas that were there keep their class; new ones are STANDARD. */
  ghost predicate NewAreStandard(before: map<Key, Replica>, after: map<Key, Replica>) {
    && before.Keys <= after.Keys
    && forall k :: k in after ==> after[k].cls == if k in before then before[k].cls else Standard
  }

  /** The joined nodes of this artifact are REQUESTED, as STANDARD replicas where they are new; nothing else has changed
      state or class. */
  ghost predicate Requests(w: World, hash: string, joined: seq<nat>, w': World) {
    && (forall k :: StateOf(w', k) == if k.hash == hash && k.node in joined then Requested else StateOf(w, k))
    && NewAreStandard(w.replicas, w'.replicas)
  }

  /** A pass with a deficit: as many JOINs as the deficit, the eligible nodes and the queue allow, to
      distinct eligible nodes, best scores first, each matched by its departure from ABSENT. */
  ghost predicate JoinPass(nodes: map<nat, NR.Node>, w: World, hash: string, today: int, scores: map<nat, real>,
                           deficit: nat, joined: seq<nat>, w': World)
  {
    var all := EligibleSet(nodes, w, hash, today);
    && Distinct(joined) && (forall id :: id in joined ==> id in all)
    && |joined| == Min3(deficit, |all|, QUEUE_CAP - |w.queue|)
    && (forall a, b :: a in joined && b in all && b !in joined ==> CandidateOf(scores, a).score >= CandidateOf(scores, b).score)
    && w'.queue == w.queue + JoinsFor(joined, hash)
    && Requests(w, hash, joined, w')
  }

  /** Verified replicas of EPHEMERAL or CACHE class. */
  ghost function LowClass(w: World, hash: string): set<Key> {
    set k | k in w.replicas && k.hash == hash && CountsAsVerified(w.replicas[k].state) && Rank(w.replicas[k].cls) <= Rank(Cache)
  }

  ghost function StandardClass(w: World, hash: string): set<Key> {
    set k | k in w.replicas && k.hash == hash && CountsAsVerified(w.replicas[k].state) && w.replicas[k].cls == Standard
  }

  ghost function Retirable(w: World, hash: string, surplus: nat): set<Key> {
    if |LowClass(w, hash)| >= surplus then LowClass(w, hash) else LowClass(w, hash) + StandardClass(w, hash)
  }

  /** A pass with a surplus: RETIREs to distinct verified replicas, never PINNED or ARCHIVAL ones, and to
      STANDARD ones only after every lower one. No state changes. */
  ghost predicate RetirePass(w: World, hash: string, surplus: nat, retired: seq<Key>, w': World) {
    var all := Retirable(w, hash, surplus);
    && Distinct(retired) && (forall k :: k in retired ==> k in all)
    && |retired| == Min3(surplus, |all|, QUEUE_CAP - |w.queue|)
    && (forall k, low :: k in retired && k in StandardClass(w, hash) && low in LowClass(w, hash) ==> low in retired)
    && w'.queue == w.queue + RetiresFor(retired)
    && w'.replicas == w.replicas
  }

  ghost predicate AllGood(w: World) {
    |w.queue| <= QUEUE_CAP && forall k :: Good(w, k)
  }

  /** What happens to a replica depends on its own record and heat only. */
  lemma SameThere(nodes: map<nat, NR.Node>, r0: map<Key, Replica>, h0: map<Key, nat>, r1: map<Key, Replica>,
                  h1: map<Key, nat>, hash: string, shares: map<nat, real>, k: Key)
    requires k in r0 && k in r1 && r0[k] == r1[k] && HeatOf(h0, k) == HeatOf(h1, k)
    ensures ReplicaAfter(nodes, r0, h0, hash, shares, k) == ReplicaAfter(nodes, r1, h1, hash, shares, k)
    ensures HeatAfter(nodes, r0, h0, hash, shares, k) == HeatAfter(nodes, r1, h1, hash, shares, k)
  {
  }

  lemma SameClassesTwice(a: map<Key, Replica>, b: map<Key, Replica>, c: map<Key, Replica>)
    ensures SameClasses(a, b) && SameClasses(b, c) ==> SameClasses(a, c)
    ensures SameClasses(a, a)
    ensures SameClasses(b, c) ==> b.Keys == c.Keys
  {
  }

  lemma SameStates(w: World, w': World)
    requires AllGood(w) && w'.queue == w.queue && w'.log == w.log && forall k :: StateOf(w', k) == StateOf(w, k)
    ensures AllGood(w')
  {
    hide Fits;
    assert forall k :: Good(w, k) ==> Good(w', k);
  }

  lemma StepAllGood(w: World, step: Step)
    requires AllGood(w)
    ensures AllGood(Apply(w, step))
  {
    forall k ensures Good(Apply(w, step), k) {
      StepGood(w, step, k);
    }
    hide Good;
  }

  /** The effect of one join attempt on states and queue. */
  lemma EnsureEffect(w: World, k: Key, cls: Class, j: Key)
    requires StateOf(w, k) == Absent
    ensures var w' := Apply(w, Ensure(k, cls));
      var room := |w.queue| < QUEUE_CAP;
      && StateOf(w', j) == (if j == k && room then Requested else StateOf(w, j))
      && w'.queue == (if room then w.queue + [JoinSwarm(k)] else w.queue)
  {
  }

  lemma CountedIs(w: World, hash: string, k: Key)
    requires k in w.replicas
    ensures k in Verifieds(w, hash) <==>
            k.hash == hash && CountsAsVerified(w.replicas[k].state) && CountsTowardSLA(w.replicas[k].cls)
  {
  }

  lemma CountOne<T>(seen: set<T>, k: T, all: set<T>)
    requires k !in seen
    ensures |(seen + {k}) * all| == |seen * all| + if k in all then 1 else 0
  {
    if k in all {
      assert (seen + {k}) * all == seen * all + {k};
    } else {
      assert (seen + {k}) * all == seen * all;
    }
  }

  lemma SameNodes(s: seq<P.Candidate>, t: seq<P.Candidate>)
    requires multiset(s) == multiset(t)
    ensures forall c :: c in s <==> c in t
    ensures P.Nodes(s) == P.Nodes(t)
  {
    forall c ensures c in s <==> c in t {
      assert c in multiset(s) <==> c in multiset(t);
    }
  }

  lemma IdsGrow(s: seq<P.Candidate>, i: nat)
    requires i < |s|
    ensures Ids(s[..i + 1]) == Ids(s[..i]) + [s[i].node]
  {
  }

  lemma NotYet(s: seq<P.Candidate>, n: nat, i: nat)
    requires n <= i < |s| && P.DistinctNodes(s)
    ensures s[i].node !in Ids(s[..n])
  {
  }

  lemma StillAbsent(w: World, hash: string, joined: seq<nat>, w': World, id: nat)
    requires Requests(w, hash, joined, w') && id !in joined && StateOf(w, Key(id, hash)) == Absent
    ensures StateOf(w', Key(id, hash)) == Absent
  {
  }

  lemma JoinsGrow(ids: seq<nat>, id: nat, hash: string)
    ensures JoinsFor(ids + [id], hash) == JoinsFor(ids, hash) + [JoinSwarm(Key(id, hash))]
  {
    assert (ids + [id])[..|ids|] == ids;
  }

  lemma RetiresGrow(keys: seq<Key>, k: Key)
    ensures RetiresFor(keys + [k]) == RetiresFor(keys) + [RetireReplica(k)]
  {
    assert (keys + [k])[..|keys|] == keys;
  }

  lemma {:induction false} RetiresLength(keys: seq<Key>)
    ensures |RetiresFor(keys)| == |keys|
  {
    if keys != [] {
      RetiresLength(keys[..|keys| - 1]);
    }
  }

  lemma RetiresCut(keys: seq<Key>, k: Key, room: int)
    requires room >= 0
    ensures |FirstRetires(keys, room)| == Min(|keys|, room)
    ensures FirstRetires(keys + [k], room) == FirstRetires(keys, room) + if |keys| < room then [RetireReplica(k)] else []
  {
    RetiresLength(keys[..Min(|keys|, room)]);
    if |keys| < room {
      assert (keys + [k])[..Min(|keys| + 1, room)] == keys + [k] && keys[..Min(|keys|, room)] == keys;
      RetiresGrow(keys, k);
    } else {
      assert (keys + [k])[..room] == keys[..room];
    }
  }

  /** One more node of the artifact requested. */
  lemma RequestsGrow(w: World, hash: string, joined: seq<nat>, w': World, id: nat)
    requires Requests(w, hash, joined, w') && StateOf(w', Key(id, hash)) == Absent
    ensures var w'' := Apply(w', Ensure(Key(id, hash), Standard));
      var room := |w'.queue| < QUEUE_CAP;
      && Requests(w, hash, if room then joined + [id] else joined, w'')
      && w''.queue == if room then w'.queue + [JoinSwarm(Key(id, hash))] else w'.queue
  {
    var w'' := Apply(w', Ensure(Key(id, hash), Standard));
    var joined' := if |w'.queue| < QUEUE_CAP then joined + [id] else joined;
    forall k ensures StateOf(w'', k) == if k.hash == hash && k.node in joined' then Requested else StateOf(w, k) {
      EnsureEffect(w', Key(id, hash), Standard, k);
      hide Apply;
    }
    EnsureEffect(w', Key(id, hash), Standard, Key(id, hash));
    EnsureClasses(w.replicas, w', Key(id, hash));
    hide Apply, StateOf, NewAreStandard;
  }

  lemma EnsureClasses(before: map<Key, Replica>, w: World, k: Key)
    requires NewAreStandard(before, w.replicas)
    ensures NewAreStandard(before, Apply(w, Ensure(k, Standard)).replicas)
  {
  }

  lemma {:induction false} DistinctCount<T>(s: seq<T>, all: set<T>)
    requires Distinct(s) && forall x :: x in s <==> x in all
    ensures |s| == |all|
  {
    if s != [] {
      var f, x := s[..|s| - 1], s[|s| - 1];
      assert forall i :: 0 <= i < |f| ==> f[i] == s[i];
      forall y ensures y in f <==> y in all - {x} {
        assert y in s <==> y in f || y == x;
      }
      DistinctCount(f, all - {x});
    } else {
      assert all == {};
    }
  }

  lemma Joint<T>(a: seq<T>, b: seq<T>)
    requires Distinct(a) && Distinct(b) && forall x :: x in a ==> x !in b
    ensures Distinct(a + b)
  {
    var c := a + b;
    forall i, j | 0 <= i < j < |c| ensures c[i] != c[j] {
      if i < |a| <= j {
        assert c[i] in a && c[j] == b[j - |a|];
      }
    }
  }

  /** The candidates of a pass are exactly the eligible nodes. */
  lemma CandidatesCount(nodes: map<nat, NR.Node>, w: World, hash: string, today: int, cands: seq<P.Candidate>)
    requires P.DistinctNodes(cands)
    requires forall id :: id in P.Nodes(cands) <==> Eligible(nodes, w, hash, today, id)
    ensures P.Nodes(cands) == EligibleSet(nodes, w, hash, today) && |cands| == |EligibleSet(nodes, w, hash, today)|
  {
    P.NodesCount(cands);
    hide P.Nodes, NR.NearCap, HasCore;
    assert P.Nodes(cands) == EligibleSet(nodes, w, hash, today);
  }

  /** A prefix of the ranking is a best-first choice. */
  lemma PrefixIsBest(scores: map<nat, real>, cands: seq<P.Candidate>, n: nat)
    requires n <= |cands| && P.Descending(cands) && P.DistinctNodes(cands)
    requires forall c :: c in cands ==> c == CandidateOf(scores, c.node)
    ensures var joined := Ids(cands[..n]);
      && Distinct(joined) && (forall id :: id in joined ==> id in P.Nodes(cands))
      && forall a, b :: a in joined && b in P.Nodes(cands) && b !in joined
                        ==> CandidateOf(scores, a).score >= CandidateOf(scores, b).score
  {
    var joined := Ids(cands[..n]);
    assert forall i :: 0 <= i < n ==> joined[i] == cands[i].node && cands[i] in cands;
    forall a, b | a in joined && b in P.Nodes(cands) && b !in joined
      ensures CandidateOf(scores, a).score >= CandidateOf(scores, b).score
    {
      var i :| 0 <= i < n && joined[i] == a;
      var c :| c in cands && c.node == b;
      var j :| 0 <= j < |cands| && cands[j] == c;
      assert forall p :: 0 <= p < n ==> cands[p].node in joined by {
        assert forall p :: 0 <= p < n ==> joined[p] in joined;
      }
      assert j >= n;
    }
  }

  lemma NoSurplus(w: World, hash: string)
    requires AllGood(w)
    ensures RetirePass(w, hash, 0, [], w)
  {
    hide Good, LowClass, StandardClass;
  }

  lemma AllAbsent(nodes: map<nat, NR.Node>, w: World, hash: string, today: int, cands: seq<P.Candidate>)
    requires forall id :: id in P.Nodes(cands) <==> Eligible(nodes, w, hash, today, id)
    ensures forall i :: 0 <= i < |cands| ==> StateOf(w, Key(cands[i].node, hash)) == Absent
  {
    forall i | 0 <= i < |cands| ensures StateOf(w, Key(cands[i].node, hash)) == Absent {
      assert cands[i] in cands && cands[i].node in P.Nodes(cands);
    }
  }

  /** Every low-class replica is listed before every STANDARD one. */
  ghost predicate LowFirst(w: World, hash: string, s: seq<Key>) {
    forall i, j :: 0 <= i < |s| && 0 <= j < |s| && s[i] in StandardClass(w, hash) && s[j] in LowClass(w, hash) ==> j < i
  }

  lemma LowThenStandard(w: World, hash: string, low: seq<Key>, standard: seq<Key>)
    requires forall k :: k in low <==> k in LowClass(w, hash)
    requires forall k :: k in standard <==> k in StandardClass(w, hash)
    ensures LowFirst(w, hash, low) && LowFirst(w, hash, low + standard)
    ensures forall k :: k in low ==> k !in standard
  {
    var s := low + standard;
    assert LowClass(w, hash) !! StandardClass(w, hash);
    assert forall i :: 0 <= i < |low| ==> s[i] in low;
    assert forall i :: |low| <= i < |s| ==> s[i] in standard;
  }

  /** A prefix of such a list reaches a STANDARD replica only after all the low ones. */
  lemma PrefixLowFirst(w: World, hash: string, s: seq<Key>, n: nat)
    requires n <= |s| && Distinct(s) && LowFirst(w, hash, s) && forall k :: k in LowClass(w, hash) ==> k in s
    ensures Distinct(s[..n])
    ensures forall k, l :: k in s[..n] && k in StandardClass(w, hash) && l in LowClass(w, hash) ==> l in s[..n]
  {
    hide StandardClass, LowClass;
    forall k, l | k in s[..n] && k in StandardClass(w, hash) && l in LowClass(w, hash) ensures l in s[..n] {
      var i :| 0 <= i < n && s[i] == k;
      var j :| 0 <= j < |s| && s[j] == l;
      assert s[..n][j] == l;
    }
  }

  /** The first `i` candidates have been asked: the first ones are joined, as far as there was room. */
  ghost predicate Joining(start: World, hash: string, cands: seq<P.Candidate>, i: nat, joined: seq<nat>, w: World) {
    && i <= |cands| && |start.queue| <= QUEUE_CAP
    && |joined| == Min(i, QUEUE_CAP - |start.queue|) && joined == Ids(cands[..|joined|])
    && w.queue == start.queue + JoinsFor(joined, hash) && |w.queue| == |start.queue| + |joined|
    && Requests(start, hash, joined, w)
  }

  lemma JoiningStarts(start: World, hash: string, cands: seq<P.Candidate>)
    requires |start.queue| <= QUEUE_CAP
    ensures Joining(start, hash, cands, 0, [], start)
  {
    assert Ids(cands[..0]) == [];
  }

  /** The next candidate is still ABSENT, and is asked successfully exactly if there is room. */
  lemma JoiningNext(start: World, hash: string, cands: seq<P.Candidate>, i: nat, joined: seq<nat>, w: World)
    requires Joining(start, hash, cands, i, joined, w) && i < |cands| && P.DistinctNodes(cands)
    requires StateOf(start, Key(cands[i].node, hash)) == Absent
    ensures StateOf(w, Key(cands[i].node, hash)) == Absent && Requests(start, hash, joined, w)
  {
    hide Requests, StateOf, JoinsFor, Ids;
    NotYet(cands, |joined|, i);
    StillAbsent(start, hash, joined, w, cands[i].node);
  }

  lemma JoiningGrows(start: World, hash: string, cands: seq<P.Candidate>, i: nat, joined: seq<nat>, w: World,
                     sent: bool, w': World)
    requires Joining(start, hash, cands, i, joined, w) && i < |cands|
    requires sent <==> |w.queue| < QUEUE_CAP
    requires w'.queue == if sent then w.queue + [JoinSwarm(Key(cands[i].node, hash))] else w.queue
    requires Requests(start, hash, if sent then joined + [cands[i].node] else joined, w')
    ensures Joining(start, hash, cands, i + 1, if sent then joined + [cands[i].node] else joined, w')
  {
    hide Requests;
    if sent {
      IdsGrow(cands, i);
      JoinsGrow(joined, cands[i].node, hash);
      hide Ids, JoinsFor;
    }
  }

  lemma JoiningEnds(start: World, hash: string, cands: seq<P.Candidate>, i: nat, joined: seq<nat>, w: World, deficit: nat)
    requires Joining(start, hash, cands, i, joined, w) && |joined| <= deficit && (i == |cands| || |joined| == deficit)
    ensures |joined| == Min3(deficit, |cands|, QUEUE_CAP - |start.queue|) && joined == Ids(cands[..|joined|])
    ensures w.queue == start.queue + JoinsFor(joined, hash) && Requests(start, hash, joined, w)
  {
    hide Requests, Ids, JoinsFor;
  }

  /** All but `rest` of the artifact's replicas have been looked at, and the doomed ones among them evicted. */
  ghost predicate Evicting(nodes: map<nat, NR.Node>, start: World, hash: string, now: int, rest: set<Key>,
                           evicted: seq<Key>, w: World)
  {
    && SameClasses(start.replicas, w.replicas)
    && rest <= (set k | k in start.replicas && k.hash == hash)
    && (forall k :: StateOf(w, k) == if k in evicted then Absent else StateOf(start, k))
    && Distinct(evicted) && (forall k :: k in evicted <==> k !in rest && Doomed(nodes, start, hash, now, k))
    && |start.queue| <= QUEUE_CAP && w.queue == start.queue + FirstRetires(evicted, QUEUE_CAP - |start.queue|)
  }

  lemma EvictingStarts(nodes: map<nat, NR.Node>, start: World, hash: string, now: int, rest: set<Key>)
    requires |start.queue| <= QUEUE_CAP && rest == (set k | k in start.replicas && k.hash == hash)
    ensures Evicting(nodes, start, hash, now, rest, [], start)
  {
    assert FirstRetires([], QUEUE_CAP - |start.queue|) == [];
  }

  lemma EvictingNext(nodes: map<nat, NR.Node>, start: World, hash: string, now: int, rest: set<Key>,
                     evicted: seq<Key>, w: World, k: Key)
    requires Evicting(nodes, start, hash, now, rest, evicted, w) && k in rest
    ensures k in w.replicas && k !in evicted && w.replicas[k].state == StateOf(start, k)
    ensures var doomed := CountsAsVerified(w.replicas[k].state) && k.node in nodes && NR.GraceExpired(nodes[k.node], now);
      && (doomed <==> Doomed(nodes, start, hash, now, k))
      && (!doomed ==> Evicting(nodes, start, hash, now, rest - {k}, evicted, w))
  {
    hide FirstRetires, NR.GraceExpired;
    assert StateOf(w, k) == StateOf(start, k);
  }

  lemma EvictingGrows(nodes: map<nat, NR.Node>, start: World, hash: string, now: int, rest: set<Key>,
                      evicted: seq<Key>, w: World, k: Key, w': World)
    requires Evicting(nodes, start, hash, now, rest, evicted, w)
    requires k in rest && k !in evicted && Doomed(nodes, start, hash, now, k)
    requires SameClasses(w.replicas, w'.replicas)
    requires forall j :: StateOf(w', j) == if j == k then Absent else StateOf(w, j)
    requires w'.queue == if |w.queue| < QUEUE_CAP then w.queue + [RetireReplica(k)] else w.queue
    ensures Evicting(nodes, start, hash, now, rest - {k}, evicted + [k], w')
  {
    SameClassesTwice(start.replicas, w.replicas, w'.replicas);
    RetiresCut(evicted, k, QUEUE_CAP - |start.queue|);
    Joint(evicted, [k]);
    hide FirstRetires, SameClasses, StateOf, Doomed, Distinct;
  }

  lemma EvictingEnds(nodes: map<nat, NR.Node>, start: World, hash: string, now: int, evicted: seq<Key>, w: World)
    requires Evicting(nodes, start, hash, now, {}, evicted, w)
    ensures forall k :: StateOf(w, k) == AfterGrace(nodes, start, hash, now, k)
    ensures SameClasses(start.replicas, w.replicas) && Evicts(nodes, start, hash, now, evicted, w.queue)
  {
    hide FirstRetires, StateOf, Doomed, SameClasses;
  }

  class Controller {
    var replicas: map<Key, Replica>
    var queue: seq<Directive>
    ghost var log: seq<Event>
    var nodes: map<nat, NR.Node>
    var artifacts: set<string>
    var heat: map<Key, nat>

    ghost function View(): (w: World)
      reads this
    {
      World(replicas, queue, log)
    }

    /** Histories match states, and the queue is within its capacity. */
    ghost predicate Valid()
      reads this
    {
      AllGood(View())
    }

    constructor ()
      ensures Valid() && replicas == map[] && queue == [] && nodes == map[] && artifacts == {} && heat == map[]
    {
      replicas, queue, log, nodes, artifacts, heat := map[], [], [], map[], {}, map[];
    }

    /** A non-blocking send. */
    method TrySend(d: Directive) returns (sent: bool)
      modifies this`queue, this`log
      ensures View() == Send(old(View()), d)
      ensures sent <==> |old(queue)| < QUEUE_CAP
    {
      sent := |queue| < QUEUE_CAP;
      if sent {
        queue := queue + [d];
        log := log + [if d.JoinSwarm? then Joined(d.key) else Retired(d.key)];
      }
    }

    method GetOrCreate(k: Key, cls: Class) returns (r: Replica)
      modifies this`replicas
      ensures View() == Create(old(View()), k, cls) && k in replicas && r == replicas[k]
    {
      if k !in replicas {
        replicas := replicas[k := Replica(cls, Absent)];
      }
      r := replicas[k];
    }

    method Move(k: Key, next: State) returns (ok: bool)
      requires k in replicas
      modifies this`replicas, this`log
      ensures View() == Transition(old(View()), k, next)
      ensures ok <==> replicas[k].state == next
    {
      var s := replicas[k].state;
      if s == next {
        return true;
      }
      if !Permitted(s, next) {
        return false;
      }
      replicas := replicas[k := replicas[k].(state := next)];
      log := log + [Entered(k, next)];
      return true;
    }

    /** Request an ABSENT replica and queue its JOIN, or take the request back. */
    method TryJoin(k: Key, cls: Class) returns (sent: bool)
      requires Valid()
      modifies this`replicas, this`queue, this`log
      ensures Valid()
      ensures View() == Apply(old(View()), Ensure(k, cls))
      ensures sent <==> StateOf(old(View()), k) == Absent && |old(queue)| < QUEUE_CAP
    {
      StepAllGood(View(), Ensure(k, cls));
      var r := GetOrCreate(k, cls);
      if r.state != Absent {
        return false;
      }
      var ok := Move(k, Requested);
      sent := TrySend(JoinSwarm(k));
      if !sent {
        ok := Move(k, Absent);
      }
    }

    method EnsureArtifact(hash: string, node: nat, cls: Class) returns (reply: EnsureReply)
      requires Valid()
      modifies this`replicas, this`queue, this`log
      ensures Valid()
      ensures hash !in artifacts ==> reply == NoSuchArtifact && View() == old(View())
      ensures hash in artifacts && node !in nodes ==> reply == NoSuchNode && View() == old(View())
      ensures hash in artifacts && node in nodes ==> reply == ReplyFor(old(View()), Key(node, hash))
      ensures hash in artifacts && node in nodes ==> View() == Apply(old(View()), Ensure(Key(node, hash), cls))
    {
      if hash !in artifacts {
        return NoSuchArtifact;
      }
      if node !in nodes {
        return NoSuchNode;
      }
      var k := Key(node, hash);
      if k in replicas {
        var state := replicas[k].state;
        if CountsAsVerified(state) {
          return AlreadyVerified(state);
        }
        if state != Absent {
          return InProgress(state);
        }
      }
      var sent := TryJoin(k, cls);
      return if sent then Queued else ChannelFull;
    }

    /** Advance one replica by what its node's agent reports. */
    method ReconcileInventory(node: nat, hash: string, agent: AgentState, verify: HashResult)
      requires Valid()
      modifies this`replicas, this`log
      ensures Valid() && View() == Apply(old(View()), Report(Key(node, hash), agent, verify))
    {
      var k := Key(node, hash);
      StepAllGood(View(), Report(k, agent, verify));
      if k !in replicas {
        return;
      }
      var current := replicas[k].state;
      var ok;
      match agent {
        case SwarmingReport =>
          if current == Requested {
            ok := Move(k, Swarming);
          }
        case CompleteReport =>
          if current == Swarming {
            ok := Move(k, BTComplete);
          }
          if current == BTComplete {
            ok := Move(k, HashVerify);
          }
        case SeedingReport =>
          if current == HashVerify {
            match verify {
              case HashGood =>
                log := log + [HashOk(k)];
                ok := Move(k, Verified);
                ok := Move(k, Seeding);
              case HashBad =>
                ok := Move(k, Invalid);
              case HashNone =>
            }
          } else if current == Verified {
            ok := Move(k, Seeding);
          }
        case InvalidReport =>
          if current != Absent && current != Purge {
            ok := Move(k, Invalid);
          }
        case OtherReport =>
      }
    }

    /** Force-evict one replica and queue its RETIRE if there is room. */
    method EvictOne(k: Key)
      requires Valid() && k in replicas && CountsAsVerified(replicas[k].state)
      modifies this`replicas, this`queue, this`log
      ensures Valid() && View() == Apply(old(View()), Evict(k))
      ensures queue == if |old(queue)| < QUEUE_CAP then old(queue) + [RetireReplica(k)] else old(queue)
      ensures forall j :: StateOf(View(), j) == if j == k then Absent else StateOf(old(View()), j)
      ensures SameClasses(old(replicas), replicas)
    {
      StepAllGood(View(), Evict(k));
      replicas := replicas[k := replicas[k].(state := Absent)];
      log := log + [Entered(k, Absent)];
      var sent := TrySend(RetireReplica(k));
    }

    method ClassifyOne(k: Key, hash: string, shares: map<nat, real>)
      requires k in replicas && k.hash == hash
      modifies this`replicas, this`heat
      ensures replicas == old(replicas)[k := ReplicaAfter(nodes, old(replicas), old(heat), hash, shares, k)]
      ensures forall j :: HeatOf(heat, j) ==
                          if j == k then HeatAfter(nodes, old(replicas), old(heat), hash, shares, k) else HeatOf(old(heat), j)
    {
      var r := replicas[k];
      if CountsAsVerified(r.state) && r.cls == Ephemeral && k.node in nodes && nodes[k.node].tier == NR.Edge && k.node in shares {
        var h := if k in heat then heat[k] else 0;
        if shares[k.node] > 0.3 {
          heat := heat[k := h + 1];
          if h + 1 >= HEAT_PROMOTE {
            replicas := replicas[k := r.(cls := Cache)];
          }
        } else {
          heat := heat[k := 0];
        }
      }
    }

    /** Count the passes in which a replica's network was hot, and promote it from EPHEMERAL to CACHE at the third. */
    method ClassifyEdgeReplicas(hash: string, shares: map<nat, real>)
      requires Valid()
      modifies this`replicas, this`heat
      ensures Valid()
      ensures Classified(nodes, old(replicas), old(heat), hash, shares, replicas, heat)
      ensures forall k :: StateOf(View(), k) == StateOf(old(View()), k)
      ensures Verifieds(View(), hash) == Verifieds(old(View()), hash)
    {
      ghost var all := set k | k in replicas && k.hash == hash;
      var rest := set k | k in replicas && k.hash == hash;
      while rest != {}
        invariant replicas.Keys == old(replicas).Keys && rest <= all
        invariant forall k :: k in replicas ==>
          (replicas[k] == if k in all - rest then ReplicaAfter(nodes, old(replicas), old(heat), hash, shares, k) else old(replicas)[k])
        invariant forall k :: HeatOf(heat, k) ==
                              if k in all - rest then HeatAfter(nodes, old(replicas), old(heat), hash, shares, k) else HeatOf(old(heat), k)
        decreases rest
      {
        var k :| k in rest;
        SameThere(nodes, old(replicas), old(heat), replicas, heat, hash, shares, k);
        hide ReplicaAfter, HeatAfter, HeatOf;
        ClassifyOne(k, hash, shares);
        rest := rest - {k};
      }
      ghost var w := old(View());
      ClassifiedKeeps(nodes, w, old(heat), hash, shares, View(), heat);
      SameStates(w, View());
    }

    /** Evict the verified replicas of nodes whose grace period is over, and no others; each gets its RETIRE
        as long as there is room. */
    method RetireGraceExpired(hash: string, now: int) returns (ghost evicted: seq<Key>)
      requires Valid()
      modifies this`replicas, this`queue, this`log
      ensures Valid()
      ensures forall k :: StateOf(View(), k) == AfterGrace(nodes, old(View()), hash, now, k)
      ensures SameClasses(old(replicas), replicas)
      ensures Evicts(nodes, old(View()), hash, now, evicted, queue)
    {
      evicted := [];
      var rest := set k | k in replicas && k.hash == hash;
      ghost var start := View();
      EvictingStarts(nodes, start, hash, now, rest);
      hide AllGood, Evicting, Apply, StateOf, SameClasses, NR.GraceExpired;
      while rest != {}
        invariant Valid() && Evicting(nodes, start, hash, now, rest, evicted, View())
        decreases rest
      {
        var k :| k in rest;
        EvictingNext(nodes, start, hash, now, rest, evicted, View(), k);
        ghost var before := View();
        if CountsAsVerified(replicas[k].state) && k.node in nodes && NR.GraceExpired(nodes[k.node], now) {
          EvictOne(k);
          EvictingGrows(nodes, start, hash, now, rest, evicted, before, k, View());
          evicted := evicted + [k];
        }
        rest := rest - {k};
      }
      EvictingEnds(nodes, start, hash, now, evicted, View());
    }

    /** The verified replicas whose class counts. */
    method VerifiedCount(hash: string) returns (count: nat)
      ensures count == |Verifieds(View(), hash)|
    {
      count := 0;
      var rest := replicas.Keys;
      ghost var all, seen: set<Key> := Verifieds(View(), hash), {};
      assert all <= replicas.Keys;
      hide Verifieds;
      while rest != {}
        invariant rest <= replicas.Keys && seen == replicas.Keys - rest
        invariant count == |seen * all|
        decreases rest
      {
        var k :| k in rest;
        rest := rest - {k};
        CountOne(seen, k, all);
        CountedIs(View(), hash, k);
        seen := seen + {k};
        if k.hash == hash && CountsAsVerified(replicas[k].state) && CountsTowardSLA(replicas[k].cls) {
          count := count + 1;
        }
      }
      assert seen * all == all;
    }

    method HasVerifiedCoreReplica(hash: string) returns (found: bool)
      ensures found <==> HasCore(nodes, View(), hash)
    {
      var rest := nodes.Keys;
      while rest != {}
        invariant rest <= nodes.Keys
        invariant forall id :: id in nodes && id !in rest ==> !IsCoreHolder(nodes, View(), hash, id)
        decreases rest
      {
        var id :| id in rest;
        rest := rest - {id};
        if nodes[id].tier == NR.Core {
          var k := Key(id, hash);
          if k in replicas && CountsAsVerified(replicas[k].state) {
            assert IsCoreHolder(nodes, View(), hash, id);
            return true;
          }
        }
      }
      return false;
    }

    /** Nodes holding the artifact in any state but ABSENT. */
    method ExistingNodeSet(hash: string) returns (existing: set<nat>)
      ensures forall id :: id in existing <==> StateOf(View(), Key(id, hash)) != Absent
    {
      existing := {};
      var rest := set k | k in replicas && k.hash == hash;
      while rest != {}
        invariant rest <= (set k | k in replicas && k.hash == hash)
        invariant forall id :: id in existing <==> Key(id, hash) !in rest && StateOf(View(), Key(id, hash)) != Absent
        decreases rest
      {
        var k :| k in rest;
        assert k == Key(k.node, hash);
        rest := rest - {k};
        if replicas[k].state != Absent {
          existing := existing + {k.node};
        }
      }
    }

    /** One candidate per eligible node, in no particular order. */
    method CollectCandidates(hash: string, today: int, scores: map<nat, real>) returns (out: seq<P.Candidate>)
      ensures P.DistinctNodes(out)
      ensures forall id :: id in P.Nodes(out) <==> Eligible(nodes, View(), hash, today, id)
      ensures forall c :: c in out ==> c == CandidateOf(scores, c.node)
    {
      var hasCore := HasVerifiedCoreReplica(hash);
      var existing := ExistingNodeSet(hash);
      out := [];
      var rest := nodes.Keys;
      while rest != {}
        invariant rest <= nodes.Keys && P.DistinctNodes(out)
        invariant forall id :: id in P.Nodes(out) <==> id !in rest && Eligible(nodes, View(), hash, today, id)
        invariant forall c :: c in out ==> c == CandidateOf(scores, c.node)
        decreases rest
      {
        hide HasCore, NR.NearCap;
        var id :| id in rest;
        rest := rest - {id};
        var n := nodes[id];
        if n.reach == NR.Reachable && id !in existing && !NR.NearCap(n.wan, today) && (n.tier == NR.Edge ==> hasCore) {
          assert Eligible(nodes, View(), hash, today, id);
          P.DomainsAppend(out, CandidateOf(scores, id));
          P.DistinctAppend(out, CandidateOf(scores, id));
          hide P.Nodes;
          out := out + [CandidateOf(scores, id)];
        }
      }
    }

    /** Eligible nodes, best score first. */
    method ScoreCandidates(hash: string, today: int, scores: map<nat, real>) returns (ranked: seq<P.Candidate>)
      ensures P.Descending(ranked) && P.DistinctNodes(ranked)
      ensures forall id :: id in P.Nodes(ranked) <==> Eligible(nodes, View(), hash, today, id)
      ensures forall c :: c in ranked ==> c == CandidateOf(scores, c.node)
    {
      var out := CollectCandidates(hash, today, scores);
      hide Eligible;
      var a := new P.Candidate[|out|](i requires 0 <= i < |out| => out[i]);
      assert a[..] == out;
      P.SortDescending(a);
      ranked := a[..];
      P.SortedDistinct(out, ranked);
      SameNodes(out, ranked);
    }

    /** One candidate of a pass that began in `base` and has joined `joined` so far. */
    method AskOne(hash: string, id: nat, ghost base: World, ghost joined: seq<nat>) returns (sent: bool)
      requires Valid() && Requests(base, hash, joined, View()) && StateOf(View(), Key(id, hash)) == Absent
      modifies this`replicas, this`queue, this`log
      ensures Valid()
      ensures sent <==> |old(queue)| < QUEUE_CAP
      ensures queue == if sent then old(queue) + [JoinSwarm(Key(id, hash))] else old(queue)
      ensures Requests(base, hash, if sent then joined + [id] else joined, View())
    {
      RequestsGrow(base, hash, joined, View(), id);
      hide AllGood, Apply, StateOf, Requests;
      sent := TryJoin(Key(id, hash), Standard);
    }

    /** Ask the candidates in order until the deficit is met; a full queue skips one. */
    method JoinLoop(hash: string, cands: seq<P.Candidate>, deficit: nat) returns (joined: seq<nat>)
      requires Valid() && P.DistinctNodes(cands)
      requires forall i :: 0 <= i < |cands| ==> StateOf(View(), Key(cands[i].node, hash)) == Absent
      modifies this`replicas, this`queue, this`log
      ensures Valid()
      ensures |joined| == Min3(deficit, |cands|, QUEUE_CAP - |old(queue)|) && joined == Ids(cands[..|joined|])
      ensures queue == old(queue) + JoinsFor(joined, hash)
      ensures Requests(old(View()), hash, joined, View())
    {
      joined := [];
      var emitted, i := 0, 0;
      ghost var start := View();
      JoiningStarts(start, hash, cands);
      hide AllGood, Joining, Requests, StateOf;
      while i < |cands| && emitted < deficit
        invariant 0 <= i <= |cands| && emitted == |joined| <= deficit
        invariant Valid() && Joining(start, hash, cands, i, joined, View())
      {
        var id := cands[i].node;
        ghost var before := View();
        JoiningNext(start, hash, cands, i, joined, before);
        var sent := AskOne(hash, id, start, joined);
        JoiningGrows(start, hash, cands, i, joined, before, sent, View());
        if sent {
          emitted := emitted + 1;
          joined := joined + [id];
        }
        i := i + 1;
      }
      JoiningEnds(start, hash, cands, i, joined, View(), deficit);
    }

    /** Verified replicas of the artifact, either those up to CACHE or the STANDARD ones. */
    method ListVerified(hash: string, standard: bool) returns (out: seq<Key>)
      ensures Distinct(out)
      ensures forall k :: k in out <==> k in if standard then StandardClass(View(), hash) else LowClass(View(), hash)
    {
      out := [];
      var rest := replicas.Keys;
      while rest != {}
        invariant rest <= replicas.Keys && Distinct(out)
        invariant forall k :: k in out <==>
                              k !in rest && k in if standard then StandardClass(View(), hash) else LowClass(View(), hash)
        decreases rest
      {
        var k :| k in rest;
        assert k !in out;
        rest := rest - {k};
        var r := replicas[k];
        if k.hash == hash && CountsAsVerified(r.state)
           && if standard then r.cls == Standard else Rank(r.cls) <= Rank(Cache) {
          Joint(out, [k]);
          out := out + [k];
        }
      }
    }

    method TryRetire(k: Key) returns (sent: bool)
      requires Valid()
      modifies this`queue, this`log
      ensures Valid() && View() == Apply(old(View()), Retire(k))
      ensures sent <==> |old(queue)| < QUEUE_CAP
      ensures queue == if sent then old(queue) + [RetireReplica(k)] else old(queue)
    {
      StepAllGood(View(), Retire(k));
      sent := TrySend(RetireReplica(k));
    }

    /** Send RETIREs in order until the surplus is met or the queue is full. */
    method RetireLoop(cands: seq<Key>, surplus: nat) returns (retired: seq<Key>)
      requires Valid()
      modifies this`queue, this`log
      ensures Valid()
      ensures |retired| == Min3(surplus, |cands|, QUEUE_CAP - |old(queue)|) && retired == cands[..|retired|]
      ensures queue == old(queue) + RetiresFor(retired)
    {
      retired := [];
      assert queue == old(queue) + RetiresFor([]) && |queue| <= QUEUE_CAP;
      hide AllGood, RetiresFor, Apply;
      var i := 0;
      while i < |cands| && |retired| < surplus
        invariant 0 <= i <= |cands| && |retired| == i <= surplus && retired == cands[..i]
        invariant Valid() && queue == old(queue) + RetiresFor(retired) && |queue| == |old(queue)| + i <= QUEUE_CAP
      {
        assert cands[..i + 1] == cands[..i] + [cands[i]];
        RetiresGrow(retired, cands[i]);
        var sent := TryRetire(cands[i]);
        if !sent {
          return;
        }
        retired := retired + [cands[i]];
        i := i + 1;
      }
    }

    /** EPHEMERAL and CACHE replicas first; STANDARD ones when those are too few. */
    method ListRetirable(hash: string, surplus: nat) returns (cands: seq<Key>)
      ensures Distinct(cands) && LowFirst(View(), hash, cands)
      ensures forall k :: k in cands <==> k in Retirable(View(), hash, surplus)
    {
      cands := ListVerified(hash, false);
      DistinctCount(cands, LowClass(View(), hash));
      assert forall i :: 0 <= i < |cands| ==> cands[i] in LowClass(View(), hash);
      if |cands| < surplus {
        var standard := ListVerified(hash, true);
        LowThenStandard(View(), hash, cands, standard);
        hide StandardClass, LowClass;
        Joint(cands, standard);
        cands := cands + standard;
      }
    }

    method SelectRetirements(hash: string, surplus: nat) returns (retired: seq<Key>)
      requires Valid()
      modifies this`queue, this`log
      ensures Valid() && RetirePass(old(View()), hash, surplus, retired, View())
    {
      var cands := ListRetirable(hash, surplus);
      assert forall k :: k in LowClass(View(), hash) ==> k in Retirable(View(), hash, surplus);
      hide AllGood, StandardClass, LowClass, Retirable, LowFirst;
      DistinctCount(cands, Retirable(View(), hash, surplus));
      retired := RetireLoop(cands, surplus);
      PrefixLowFirst(old(View()), hash, cands, |retired|);
    }

    /** The joining half of a pass. */
    method JoinDeficit(hash: string, deficit: nat, scores: map<nat, real>, today: int) returns (joined: seq<nat>)
      requires Valid()
      modifies this`replicas, this`queue, this`log
      ensures Valid() && JoinPass(nodes, old(View()), hash, today, scores, deficit, joined, View())
    {
      var cands := ScoreCandidates(hash, today, scores);
      CandidatesCount(nodes, View(), hash, today, cands);
      AllAbsent(nodes, View(), hash, today, cands);
      hide AllGood, Eligible, EligibleSet, P.Nodes, StateOf, Requests;
      joined := JoinLoop(hash, cands, deficit);
      PrefixIsBest(scores, cands, |joined|);
    }

    /** One pass over one artifact. `start` is the world after the heat classification, `mid` the one after the
        grace-period evictions, which the verified count and the choice of nodes are taken from. */
    method ReconcileArtifact(hash: string, desired: int, shares: map<nat, real>, scores: map<nat, real>, now: int, today: int)
      returns (joined: seq<nat>, retired: seq<Key>, ghost start: World, ghost evicted: seq<Key>, ghost mid: World)
      requires Valid()
      modifies this`replicas, this`queue, this`log, this`heat
      ensures Valid() && AllGood(mid)
      ensures Classified(nodes, old(replicas), old(heat), hash, shares, start.replicas, heat)
      ensures start.queue == old(queue) && start.log == old(log)
      ensures forall k :: StateOf(mid, k) == AfterGrace(nodes, start, hash, now, k)
      ensures SameClasses(start.replicas, mid.replicas)
      ensures Evicts(nodes, start, hash, now, evicted, mid.queue)
      ensures var deficit := desired - |Verifieds(mid, hash)|;
        if deficit > 0 then JoinPass(nodes, mid, hash, today, scores, deficit, joined, View()) && retired == []
        else RetirePass(mid, hash, -deficit, retired, View()) && joined == []
    {
      hide AllGood, AfterGrace, Evicts, StateOf, SameClasses, Classified, Verifieds, JoinPass, RetirePass;
      joined, retired := [], [];
      ClassifyEdgeReplicas(hash, shares);
      start := View();
      evicted := RetireGraceExpired(hash, now);
      mid := View();
      var verified := VerifiedCount(hash);
      if desired <= verified {
        if verified > desired {
          retired := SelectRetirements(hash, verified - desired);
        } else {
          NoSurplus(mid, hash);
        }
      } else {
        joined := JoinDeficit(hash, desired - verified, scores, today);
      }
    }
  }

  // ----- What passes do to the replica count -----

  /** Replicas of the artifact on their way to being verified. */
  ghost predicate IsInFlight(s: State) {
    s == Requested || s == Swarming || s == BTComplete || s == HashVerify
  }

  ghost function InFlight(w: World, hash: string): set<Key> {
    set k | k in w.replicas && k.hash == hash && IsInFlight(w.replicas[k].state)
  }

  lemma InFlightIs(w: World, hash: string, k: Key)
    ensures k in InFlight(w, hash) <==> k.hash == hash && IsInFlight(StateOf(w, k))
  {
  }

  ghost function KeysOf(ids: seq<nat>, hash: string): set<Key> {
    set id | id in ids :: Key(id, hash)
  }

  lemma {:induction false} KeysCount(ids: seq<nat>, hash: string)
    requires Distinct(ids)
    ensures |KeysOf(ids, hash)| == |ids|
  {
    if ids == [] {
      assert KeysOf(ids, hash) == {};
    } else {
      var f, id := ids[..|ids| - 1], ids[|ids| - 1];
      assert forall i :: 0 <= i < |f| ==> f[i] == ids[i];
      KeysCount(f, hash);
      assert forall x :: x in ids <==> x in f || x == id;
      assert KeysOf(ids, hash) == KeysOf(f, hash) + {Key(id, hash)};
      assert Key(id, hash) !in KeysOf(f, hash);
    }
  }

  lemma RequestsInFlight(w: World, hash: string, joined: seq<nat>, w': World, k: Key)
    requires Requests(w, hash, joined, w')
    ensures k in InFlight(w', hash) <==> k in InFlight(w, hash) || k in KeysOf(joined, hash)
  {
    InFlightIs(w, hash, k);
    InFlightIs(w', hash, k);
    assert k == Key(k.node, k.hash);
    hide InFlight;
  }

  lemma NotInFlightBefore(w: World, hash: string, joined: seq<nat>)
    requires forall id :: id in joined ==> StateOf(w, Key(id, hash)) == Absent
    ensures InFlight(w, hash) !! KeysOf(joined, hash)
  {
  }

  lemma UnionCount<T>(a: set<T>, b: set<T>, c: set<T>)
    requires a !! b && forall x :: x in c <==> x in a || x in b
    ensures |c| == |a| + |b|
  {
    assert c == a + b;
  }

  lemma JoinPassFacts(nodes: map<nat, NR.Node>, w: World, hash: string, today: int, scores: map<nat, real>,
                      deficit: nat, joined: seq<nat>, w': World)
    requires JoinPass(nodes, w, hash, today, scores, deficit, joined, w')
    ensures Distinct(joined) && Requests(w, hash, joined, w')
    ensures forall id :: id in joined ==> StateOf(w, Key(id, hash)) == Absent
  {
    hide NR.NearCap, HasCore, CandidateOf, Requests;
  }

  /** A joining pass puts exactly the joined replicas in flight. */
  lemma JoinedAreInFlight(nodes: map<nat, NR.Node>, w: World, hash: string, today: int, scores: map<nat, real>,
                          deficit: nat, joined: seq<nat>, w': World)
    requires JoinPass(nodes, w, hash, today, scores, deficit, joined, w')
    ensures |InFlight(w', hash)| == |InFlight(w, hash)| + |joined|
  {
    JoinPassFacts(nodes, w, hash, today, scores, deficit, joined, w');
    hide JoinPass, Requests, InFlight, KeysOf, StateOf;
    NotInFlightBefore(w, hash, joined);
    forall k ensures k in InFlight(w', hash) <==> k in InFlight(w, hash) || k in KeysOf(joined, hash) {
      RequestsInFlight(w, hash, joined, w', k);
    }
    KeysCount(joined, hash);
    hide Distinct;
    UnionCount(InFlight(w, hash), KeysOf(joined, hash), InFlight(w', hash));
  }

  /** The deficit leaves out replicas in flight, so a pass can ask for more than the target. It keeps
      verified plus in-flight replicas within the target exactly when those already in flight, with the
      new JOINs, fit into the deficit. */
  lemma WithinTargetIff(nodes: map<nat, NR.Node>, w: World, hash: string, today: int, scores: map<nat, real>,
                        desired: int, joined: seq<nat>, w': World)
    requires |w.queue| <= QUEUE_CAP && desired > |Verifieds(w, hash)|
    requires JoinPass(nodes, w, hash, today, scores, desired - |Verifieds(w, hash)|, joined, w')
    ensures |Verifieds(w, hash)| + |InFlight(w', hash)| <= desired <==>
            var deficit := desired - |Verifieds(w, hash)|;
            |InFlight(w, hash)| + Min3(deficit, |EligibleSet(nodes, w, hash, today)|, QUEUE_CAP - |w.queue|) <= deficit
  {
    var deficit := desired - |Verifieds(w, hash)|;
    JoinedAreInFlight(nodes, w, hash, today, scores, deficit, joined, w');
    hide Verifieds, InFlight, EligibleSet;
  }

  const TWO_NODES: map<nat, NR.Node> :=
    map[1 := NR.Node(NR.Core, NR.Reachable, 0, 0, None, NR.WanBudget(0, 0, None)),
        2 := NR.Node(NR.Core, NR.Reachable, 0, 0, None, NR.WanBudget(0, 0, None))]

  /** A pass over two free nodes that asks one of them. */
  lemma AskOneOfTwo(w: World, hash: string, today: int, id: nat)
    requires id == 1 || id == 2
    requires StateOf(w, Key(id, hash)) == Absent && |w.queue| < QUEUE_CAP
    ensures JoinPass(TWO_NODES, w, hash, today, map[], 1, [id], Apply(w, Ensure(Key(id, hash), Standard)))
  {
    var all, w' := EligibleSet(TWO_NODES, w, hash, today), Apply(w, Ensure(Key(id, hash), Standard));
    OneOfTwo(w, hash, today, id);
    assert Requests(w, hash, [], w);
    assert JoinsFor([], hash) == [] && [] + [id] == [id];
    hide Apply, EligibleSet, Requests, JoinsFor, StateOf, CandidateOf;
    RequestsGrow(w, hash, [], w, id);
    JoinsGrow([], id, hash);
    SameScore();
  }

  lemma SameScore()
    ensures forall a: nat, b: nat :: CandidateOf(map[], a).score >= CandidateOf(map[], b).score
  {
  }

  lemma OneOfTwo(w: World, hash: string, today: int, id: nat)
    requires (id == 1 || id == 2) && StateOf(w, Key(id, hash)) == Absent
    ensures var all := EligibleSet(TWO_NODES, w, hash, today); id in all && 1 <= |all| <= 2
  {
    var all := EligibleSet(TWO_NODES, w, hash, today);
    assert all <= {1, 2};
    P.SubsetCount({id}, all);
    P.SubsetCount(all, {1, 2});
  }

  /** From nothing, with two nodes and a target of one, two passes with no report in between ask both nodes. */
  lemma AskedTwice(hash: string, today: int) returns (w1: World, w2: World)
    ensures JoinPass(TWO_NODES, START, hash, today, map[], 1, [1], w1)
    ensures JoinPass(TWO_NODES, w1, hash, today, map[], 1, [2], w2)
    ensures Verifieds(w1, hash) == {} && Verifieds(w2, hash) == {} && |InFlight(w2, hash)| == 2
  {
    w1 := Apply(START, Ensure(Key(1, hash), Standard));
    w2 := Apply(w1, Ensure(Key(2, hash), Standard));
    AskOneOfTwo(START, hash, today, 1);
    EnsureEffect(START, Key(1, hash), Standard, Key(2, hash));
    NoneCounted(START, w1, 1, hash);
    NoneCounted(w1, w2, 2, hash);
    assert InFlight(START, hash) == {} && StateOf(w1, Key(2, hash)) == Absent && |w1.queue| < QUEUE_CAP;
    hide Apply, JoinPass, Verifieds, InFlight, StateOf, START, TWO_NODES;
    AskOneOfTwo(w1, hash, today, 2);
    JoinedAreInFlight(TWO_NODES, START, hash, today, map[], 1, [1], w1);
    JoinedAreInFlight(TWO_NODES, w1, hash, today, map[], 1, [2], w2);
  }

  lemma NoneCounted(w: World, w': World, id: nat, hash: string)
    requires StateOf(w, Key(id, hash)) == Absent && w' == Apply(w, Ensure(Key(id, hash), Standard))
    requires forall k :: !CountsAsVerified(StateOf(w, k))
    ensures Verifieds(w', hash) == {} && forall k :: !CountsAsVerified(StateOf(w', k))
  {
    forall k ensures !CountsAsVerified(StateOf(w', k)) {
      EnsureEffect(w, Key(id, hash), Standard, k);
    }
    hide Apply;
    forall k | k in Verifieds(w', hash) ensures CountsAsVerified(StateOf(w', k)) {
    }
  }

  // ----- A joined replica comes to count -----

  lemma JoinKeepsCounted(w: World, hash: string, joined: seq<nat>, w': World)
    requires Requests(w, hash, joined, w') && forall id :: id in joined ==> StateOf(w, Key(id, hash)) == Absent
    ensures Verifieds(w', hash) == Verifieds(w, hash)
  {
    forall k ensures k in Verifieds(w', hash) <==> k in Verifieds(w, hash) {
      assert k == Key(k.node, k.hash);
      assert StateOf(w', k) == if k.hash == hash && k.node in joined then Requested else StateOf(w, k);
    }
  }

  lemma JoinedIsRequested(w: World, hash: string, joined: seq<nat>, w': World, id: nat)
    requires Requests(w, hash, joined, w') && id in joined
    ensures
      var k := Key(id, hash);
      k in w'.replicas && w'.replicas[k] == Replica(if k in w.replicas then w.replicas[k].cls else Standard, Requested)
  {
    assert StateOf(w', Key(id, hash)) == Requested;
  }

  /** A node joined by a pass and reported through to SEEDING counts from then on, so the next deficit is one smaller,
      unless an earlier request had made it a replica of a class that does not count. */
  lemma JoinedComesToCount(nodes: map<nat, NR.Node>, w: World, hash: string, today: int, scores: map<nat, real>,
                           deficit: nat, joined: seq<nat>, w': World, id: nat)
    requires JoinPass(nodes, w, hash, today, scores, deficit, joined, w') && id in joined
    ensures
      var k := Key(id, hash);
      var counts := k !in w.replicas || w.replicas[k].cls == Standard || w.replicas[k].cls == Pinned;
      && Verifieds(Climbed(w', k), hash) == Verifieds(w, hash) + (if counts then {k} else {})
      && |Verifieds(Climbed(w', k), hash)| == |Verifieds(w, hash)| + if counts then 1 else 0
  {
    var k := Key(id, hash);
    JoinPassFacts(nodes, w, hash, today, scores, deficit, joined, w');
    JoinKeepsCounted(w, hash, joined, w');
    JoinedIsRequested(w, hash, joined, w', id);
    ClimbedIs(w', k);
    OneSeeds(w', Climbed(w', k), hash, k);
    hide JoinPass, Requests, Climbed, Verifieds;
  }

  lemma OneSeeds(w: World, w': World, hash: string, k: Key)
    requires k in w.replicas && w.replicas[k].state == Requested && k.hash == hash
    requires w'.replicas == w.replicas[k := w.replicas[k].(state := Seeding)]
    ensures
      var counts := w.replicas[k].cls == Standard || w.replicas[k].cls == Pinned;
      && k !in Verifieds(w, hash)
      && Verifieds(w', hash) == Verifieds(w, hash) + if counts then {k} else {}
  {
  }

  /** Who a pass may ask, spelled out: registered and reachable nodes without the artifact, below nine tenths of their
      WAN limit, and EDGE nodes only beside a verified replica on a CORE node. */
  lemma JoinedNodes(nodes: map<nat, NR.Node>, w: World, hash: string, today: int, scores: map<nat, real>,
                    deficit: nat, joined: seq<nat>, w': World, id: nat)
    requires JoinPass(nodes, w, hash, today, scores, deficit, joined, w') && id in joined
    ensures id in nodes && nodes[id].reach == NR.Reachable
    ensures Key(id, hash) in w.replicas ==> w.replicas[Key(id, hash)].state == Absent
    ensures
      var wan := NR.ResetIfNewDay(nodes[id].wan, today);
      wan.limit > 0 ==> wan.used as real < 0.9 * wan.limit as real
    ensures nodes[id].tier == NR.Edge ==>
      exists core :: core in nodes && nodes[core].tier == NR.Core && Key(core, hash) in w.replicas
        && (w.replicas[Key(core, hash)].state == Verified || w.replicas[Key(core, hash)].state == Seeding)
  {
    assert Eligible(nodes, w, hash, today, id);
    hide JoinPass;
    if nodes[id].tier == NR.Edge {
      var core :| IsCoreHolder(nodes, w, hash, core);
    }
  }

  /** Nobody eligible with a higher score is passed over. */
  lemma BestScoresFirst(nodes: map<nat, NR.Node>, w: World, hash: string, today: int, scores: map<nat, real>,
                        deficit: nat, joined: seq<nat>, w': World, id: nat, other: nat)
    requires JoinPass(nodes, w, hash, today, scores, deficit, joined, w') && id in joined && other !in joined
    requires Eligible(nodes, w, hash, today, other) && id in scores && other in scores
    ensures scores[id] >= scores[other]
  {
    assert other in EligibleSet(nodes, w, hash, today);
    assert CandidateOf(scores, id).score >= CandidateOf(scores, other).score;
    hide EligibleSet, Eligible, Requests;
  }

  /** Whom a pass may retire, spelled out; a STANDARD replica only when the lower ones are fewer than the surplus. */
  lemma RetiredReplicas(w: World, hash: string, surplus: nat, retired: seq<Key>, w': World, k: Key)
    requires RetirePass(w, hash, surplus, retired, w') && k in retired
    ensures k in w.replicas && k.hash == hash && (w.replicas[k].state == Verified || w.replicas[k].state == Seeding)
    ensures
      || w.replicas[k].cls == Ephemeral || w.replicas[k].cls == Cache
      || (w.replicas[k].cls == Standard && |LowClass(w, hash)| < surplus)
  {
  }

  /** The lower replicas, spelled out. */
  lemma LowReplicas(w: World, hash: string, k: Key)
    ensures k in LowClass(w, hash) <==>
            && k in w.replicas && k.hash == hash
            && (w.replicas[k].state == Verified || w.replicas[k].state == Seeding)
            && (w.replicas[k].cls == Ephemeral || w.replicas[k].cls == Cache)
  {
  }

  /** Which replicas the grace-period pass takes, spelled out. */
  lemma EvictedReplicas(nodes: map<nat, NR.Node>, w: World, hash: string, now: int, k: Key)
    ensures AfterGrace(nodes, w, hash, now, k) != StateOf(w, k) <==>
            && k in w.replicas && k.hash == hash
            && (w.replicas[k].state == Verified || w.replicas[k].state == Seeding)
            && k.node in nodes && nodes[k.node].reach == NR.Unreachable
            && nodes[k.node].lastFlap.Some? && now > nodes[k.node].lastFlap.value + 600_000_000_000
  {
  }

  /** Which replicas a classification promotes, spelled out: verified EPHEMERAL ones on EDGE nodes whose network has
      more than three tenths of the demand, for the third time. */
  lemma PromotedReplicas(nodes: map<nat, NR.Node>, replicas: map<Key, Replica>, heat: map<Key, nat>, hash: string,
                         shares: map<nat, real>, replicas': map<Key, Replica>, heat': map<Key, nat>, k: Key)
    requires Classified(nodes, replicas, heat, hash, shares, replicas', heat') && k in replicas
    ensures replicas'[k] != replicas[k] <==>
            && k.hash == hash && replicas[k].cls == Ephemeral
            && (replicas[k].state == Verified || replicas[k].state == Seeding)
            && k.node in nodes && nodes[k.node].tier == NR.Edge
            && k.node in shares && shares[k.node] > 0.3 && k in heat && heat[k] >= 2
    ensures replicas'[k] != replicas[k] ==> replicas'[k] == replicas[k].(cls := Cache)
  {
    assert replicas'[k] == ReplicaAfter(nodes, replicas, heat, hash, shares, k);
    hide Classified;
  }

  /** What counts towards the target, spelled out. */
  lemma CountedReplicas(w: World, hash: string, k: Key)
    ensures k in Verifieds(w, hash) <==>
            && k in w.replicas && k.hash == hash
            && (w.replicas[k].state == Verified || w.replicas[k].state == Seeding)
            && (w.replicas[k].cls == Standard || w.replicas[k].cls == Pinned)
  {
  }

  /** What each reply to an ensure request says about the world before and after it. */
  lemma ReplyMeans(w: World, k: Key, cls: Class)
    ensures
      var w', reply := Apply(w, Ensure(k, cls)), ReplyFor(w, k);
      && (reply == Queued <==> StateOf(w', k) == Requested && w'.queue == w.queue + [JoinSwarm(k)])
      && (reply == ChannelFull <==> StateOf(w', k) == Absent)
      && (reply.AlreadyVerified? <==> StateOf(w, k) == Verified || StateOf(w, k) == Seeding)
      && (reply.InProgress? <==> StateOf(w, k) !in {Absent, Verified, Seeding})
      && (reply.AlreadyVerified? || reply.InProgress? ==> w' == w && reply.state == StateOf(w', k))
  {
  }

  // ----- What RETIREs do not do -----

  /** A pass with a surplus, of any artifact, or a delivery. */
  ghost predicate RetiresOrDelivers(w: World, w': World) {
    || (exists hash, surplus, retired :: RetirePass(w, hash, surplus, retired, w'))
    || w' == Apply(w, Deliver)
  }

  ghost predicate RetireRun(ws: seq<World>) {
    forall i :: 0 < i < |ws| ==> RetiresOrDelivers(ws[i - 1], ws[i])
  }

  lemma {:induction false} RetiringKeepsReplicas(ws: seq<World>)
    requires |ws| > 0 && RetireRun(ws)
    ensures ws[|ws| - 1].replicas == ws[0].replicas
  {
    if |ws| > 1 {
      var front := ws[..|ws| - 1];
      assert forall i :: 0 <= i < |front| ==> front[i] == ws[i];
      RetiringKeepsReplicas(front);
      assert RetiresOrDelivers(ws[|ws| - 2], ws[|ws| - 1]);
    }
  }

  /** A RETIRE tells the agent to drop its copy, but nothing tells the controller that it did. Over any run of
      retiring passes and deliveries the counted replicas stay the same, so the surplus persists, and a later
      pass with the same target sends min(surplus, candidates, room) RETIREs all over again. */
  lemma SurplusPersists(ws: seq<World>, hash: string, desired: int, retired: seq<Key>, w': World)
    requires |ws| > 0 && RetireRun(ws) && 0 <= desired <= |Verifieds(ws[0], hash)|
    requires
      var last := ws[|ws| - 1];
      |Verifieds(last, hash)| >= desired && RetirePass(last, hash, |Verifieds(last, hash)| - desired, retired, w')
    ensures Verifieds(w', hash) == Verifieds(ws[0], hash)
    ensures
      var surplus := |Verifieds(ws[0], hash)| - desired;
      |retired| == Min3(surplus, |Retirable(ws[0], hash, surplus)|, QUEUE_CAP - |ws[|ws| - 1].queue|)
  {
    RetiringKeepsReplicas(ws);
    var first, last := ws[0], ws[|ws| - 1];
    SameReplicas(first, last, hash);
    SameReplicas(first, w', hash);
    hide RetireRun, Verifieds, LowClass, StandardClass;
  }

  lemma SameReplicas(w: World, w': World, hash: string)
    requires w'.replicas == w.replicas
    ensures Verifieds(w', hash) == Verifieds(w, hash)
    ensures LowClass(w', hash) == LowClass(w, hash) && StandardClass(w', hash) == StandardClass(w, hash)
  {
  }

  /** The steps that take a replica off the count: an agent's invalid report, a forced eviction, and a move up
      to the ARCHIVAL class. */
  predicate Uncounts(step: Step, k: Key) {
    || step == Evict(k)
    || (step.Report? && step.key == k && step.agent == InvalidReport)
    || step == Upgrade(k, Archival)
  }

  /** A counted replica stops counting in exactly those steps. */
  lemma UncountedIff(w: World, step: Step, hash: string, k: Key)
    requires k in Verifieds(w, hash)
    ensures k !in Verifieds(Apply(w, step), hash) <==> Uncounts(step, k)
  {
  }

  /** The step takes no counted replica of the artifact off the count. */
  ghost predicate TakesNone(w: World, step: Step, hash: string) {
    forall k :: Uncounts(step, k) ==> k !in Verifieds(w, hash)
  }

  /** So the counted replicas shrink by no other step, RETIRE and delivery included. */
  lemma CountShrinksIff(w: World, step: Step, hash: string)
    ensures Verifieds(w, hash) <= Verifieds(Apply(w, step), hash) <==> TakesNone(w, step, hash)
  {
    forall k | k in Verifieds(w, hash) ensures k !in Verifieds(Apply(w, step), hash) <==> Uncounts(step, k) {
      UncountedIff(w, step, hash, k);
    }
    hide Verifieds, Apply, Uncounts;
  }

  ghost predicate KeepsCounted(w: World, steps: seq<Step>, hash: string) {
    steps == [] ||
    (KeepsCounted(w, steps[..|steps| - 1], hash)
     && TakesNone(Run(w, steps[..|steps| - 1]), steps[|steps| - 1], hash))
  }

  /** Over any run of any other steps the counted set never shrinks, so a surplus never falls. */
  lemma {:induction false} SurplusNeverFalls(w: World, steps: seq<Step>, hash: string)
    requires KeepsCounted(w, steps, hash)
    ensures Verifieds(w, hash) <= Verifieds(Run(w, steps), hash)
    ensures |Verifieds(w, hash)| <= |Verifieds(Run(w, steps), hash)|
  {
    hide Apply, Verifieds, TakesNone;
    if steps != [] {
      SurplusNeverFalls(w, steps[..|steps| - 1], hash);
      CountShrinksIff(Run(w, steps[..|steps| - 1]), steps[|steps| - 1], hash);
    }
    P.SubsetCount(Verifieds(w, hash), Verifieds(Run(w, steps), hash));
  }
}
