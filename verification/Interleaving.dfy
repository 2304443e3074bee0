/** Concurrent Go announces: each one looks its torrent up, then goes through a few locked regions on that torrent
    object, and the counters move between them. A deletion only takes the object out of the map: announces that hold
    it go on editing its lists. Membership only; a slot is one peer key in one torrent object. */
module Interleaving {
  import opened MapSums
  import opened Options
  import opened PeerKeys
  import opened Announce

  datatype Slot = Slot(torrent: nat, key: Key)

  datatype Presence = Presence(seeds: bool, leeches: bool)

  datatype Phase = Looked | Located | Concluded | CountedStop

  /** An announce between two of its regions, with its local variables. */
  datatype Flight = Flight(slot: Slot, r: Report, inserted: bool, completed: bool, flags: Flags, phase: Phase)

  /** `live` are the torrents in the map, `next` is the next torrent object; the lists are those of all objects,
      deleted ones included. */
  datatype World = World(
    live: map<InfoHash, nat>, next: nat,
    seeders: set<Slot>, leechers: set<Slot>, seeding: Word32, leeching: Word32, flights: map<nat, Flight>)

  datatype Step =
    | Add(hash: InfoHash)
    | Delete(hash: InfoHash)
    | Lookup(id: nat, hash: InfoHash, key: Key, r: Report)
    | Begin(id: nat)     // find or create the peer
    | Conclude(id: nat)  // raise the stop flags, or move a finished leecher over
    | Count(id: nat)     // apply the flags to the counters
    | Remove(id: nat)    // take a stopped peer out
    | Sweep(seeders: set<Slot>, leechers: set<Slot>)  // the reaper takes peers out

  const NO_FLAGS := Flags(false, false, false, false)

  function LookedUp(slot: Slot, r: Report): Flight {
    Flight(slot, r, false, false, NO_FLAGS, Looked)
  }

  // ----- The regions on one slot -----

  function LocatedFlight(p: Presence, slot: Slot, r: Report): Flight {
    if r.left > 0 then
      Flight(slot, r, !p.leeches, false, Flags(!p.leeches, false, false, false), Located)
    else if Finishes(r) then
      Flight(slot, r, !p.leeches && !p.seeds, p.leeches || !p.seeds,
             Flags(false, !p.leeches && !p.seeds, false, p.leeches && p.seeds), Located)
    else
      Flight(slot, r, !p.seeds && !p.leeches, false, Flags(false, !p.seeds, p.leeches && !p.seeds, false), Located)
  }

  function LocatedAt(p: Presence, r: Report): Presence {
    if r.left > 0 then Presence(p.seeds, true)
    else if Finishes(r) && p.leeches then p
    else if p.seeds then p
    else Presence(true, false)
  }

  predicate Moves(p: Presence, f: Flight) {
    f.r.event != Stopped && f.completed && !f.inserted && p.leeches
  }

  function ConcludedFlight(p: Presence, f: Flight): Flight {
    var stopped, moves := f.r.event == Stopped, Moves(p, f);
    f.(phase := Concluded,
       flags := Flags(f.flags.incLeechers, f.flags.incSeeders || moves,
                      f.flags.decLeechers || moves || (stopped && f.r.left > 0),
                      f.flags.decSeeders || (stopped && f.r.left <= 0)))
  }

  function ConcludedAt(p: Presence, f: Flight): Presence {
    if Moves(p, f) then Presence(true, false) else p
  }

  function RemovedAt(p: Presence, r: Report): Presence {
    if r.left > 0 then p.(leeches := false) else p.(seeds := false)
  }

  function B(b: bool): int { if b then 1 else 0 }

  function Net(f: Flags, side: Side): (n: int)
    ensures -1 <= n <= 1
  {
    match side
    case Seeds => B(f.incSeeders) - B(f.decSeeders)
    case Leeches => B(f.incLeechers) - B(f.decLeechers)
  }

  // ----- Steps on the world -----

  function At(w: World, slot: Slot): Presence {
    Presence(slot in w.seeders, slot in w.leechers)
  }

  function Put(s: set<Slot>, slot: Slot, b: bool): set<Slot> {
    if b then s + {slot} else s - {slot}
  }

  function Set(w: World, slot: Slot, p: Presence): World {
    w.(seeders := Put(w.seeders, slot, p.seeds), leechers := Put(w.leechers, slot, p.leeches))
  }

  function Apply(w: World, step: Step): World {
    match step
    case Add(hash) => if hash in w.live then w else w.(live := w.live[hash := w.next], next := w.next + 1)
    case Delete(hash) => w.(live := w.live - {hash})
    case Lookup(id, hash, key, r) =>
      if id in w.flights || hash !in w.live then w
      else w.(flights := w.flights[id := LookedUp(Slot(w.live[hash], key), r)])
    case Begin(id) =>
      if id !in w.flights || w.flights[id].phase != Looked then w
      else
        var f := w.flights[id];
        var p := At(w, f.slot);
        Set(w, f.slot, LocatedAt(p, f.r)).(flights := w.flights[id := LocatedFlight(p, f.slot, f.r)])
    case Conclude(id) =>
      if id !in w.flights || w.flights[id].phase != Located then w
      else
        var f := w.flights[id];
        var p := At(w, f.slot);
        Set(w, f.slot, ConcludedAt(p, f)).(flights := w.flights[id := ConcludedFlight(p, f)])
    case Count(id) =>
      if id !in w.flights || w.flights[id].phase != Concluded then w
      else
        var f := w.flights[id];
        w.(seeding := Moved(w.seeding, Net(f.flags, Seeds)), leeching := Moved(w.leeching, Net(f.flags, Leeches)),
           flights := if f.r.event == Stopped then w.flights[id := f.(phase := CountedStop)] else w.flights - {id})
    case Remove(id) =>
      if id !in w.flights || w.flights[id].phase != CountedStop then w
      else
        var f := w.flights[id];
        Set(w, f.slot, RemovedAt(At(w, f.slot), f.r)).(flights := w.flights - {id})
    case Sweep(seeders, leechers) =>
      w.(seeders := w.seeders - seeders, leechers := w.leechers - leechers)
  }

  function Run(w: World, steps: seq<Step>): World {
    if steps == [] then w else Apply(Run(w, steps[..|steps| - 1]), steps[|steps| - 1])
  }

  const START := World(map[], 0, {}, {}, 0, 0, map[])

  // ----- Accounting for announces in flight -----

  function ListOf(w: World, side: Side): set<Slot> {
    match side case Seeds => w.seeders case Leeches => w.leechers
  }

  /** Peers listed in all torrent objects. */
  function Size(w: World, side: Side): nat {
    |ListOf(w, side)|
  }

  /** Peers listed in torrents that are in the map. */
  function LiveSize(w: World, side: Side): nat {
    |set slot | slot in ListOf(w, side) && slot.torrent in w.live.Values|
  }

  /** Peers left in deleted torrents. */
  function OrphanSize(w: World, side: Side): nat {
    |set slot | slot in ListOf(w, side) && slot.torrent !in w.live.Values|
  }

  lemma SizeSplits(w: World, side: Side)
    ensures Size(w, side) == LiveSize(w, side) + OrphanSize(w, side)
  {
    var a := set slot | slot in ListOf(w, side) && slot.torrent in w.live.Values;
    var b := set slot | slot in ListOf(w, side) && slot.torrent !in w.live.Values;
    assert ListOf(w, side) == a + b;
  }

  function Counter(w: World, side: Side): Word32 {
    match side case Seeds => w.seeding case Leeches => w.leeching
  }

  function Has(p: Presence, side: Side): bool {
    match side case Seeds => p.seeds case Leeches => p.leeches
  }

  predicate Leaves(f: Flight, side: Side) {
    f.r.event == Stopped && (side == Leeches <==> f.r.left > 0)
  }

  /** What the counter is still to move by, less what the list is still to move by. */
  function Pending(f: Flight, side: Side): int {
    match f.phase
    case Looked => 0
    case Located => if f.completed && !f.inserted then 0 else Net(f.flags, side)
    case Concluded => Net(f.flags, side) + B(Leaves(f, side))
    case CountedStop => B(Leaves(f, side))
  }

  function Pendings(flights: map<nat, Flight>, side: Side): map<nat, int> {
    map id | id in flights :: Pending(flights[id], side)
  }

  ghost function TotalPending(w: World, side: Side): int {
    Sum(Pendings(w.flights, side))
  }

  function ConcludeDrift(p: Presence, f: Flight, side: Side): int {
    if side == Leeches || !f.completed || f.inserted then 0
    else B(p.leeches && p.seeds) - B(f.flags.decSeeders)
  }

  /** The peers a step takes out behind the counters' back. */
  function SweptBy(w: World, step: Step, side: Side): nat {
    if !step.Sweep? then 0
    else match side case Seeds => |w.seeders * step.seeders| case Leeches => |w.leechers * step.leechers|
  }

  function Swept(w: World, steps: seq<Step>, side: Side): nat {
    if steps == [] then 0
    else
      var front := steps[..|steps| - 1];
      Swept(w, front, side) + SweptBy(Run(w, front), steps[|steps| - 1], side)
  }

  /** How far a step puts the counter off for good: peers swept out, a stop that finds the peer gone
      already, or a finish that finds the lists other than when it looked them up. */
  function DriftBy(w: World, step: Step, side: Side): int {
    match step
    case Add(_) => 0
    case Delete(_) => 0
    case Lookup(_, _, _, _) => 0
    case Begin(_) => 0
    case Count(_) => 0
    case Conclude(id) =>
      if id !in w.flights || w.flights[id].phase != Located then 0
      else ConcludeDrift(At(w, w.flights[id].slot), w.flights[id], side)
    case Remove(id) =>
      if id !in w.flights || w.flights[id].phase != CountedStop then 0
      else
        var f := w.flights[id];
        if Leaves(f, side) then B(Has(At(w, f.slot), side)) - 1 else 0
    case Sweep(_, _) => SweptBy(w, step, side)
  }

  function Drift(w: World, steps: seq<Step>, side: Side): int {
    if steps == [] then 0
    else
      var front := steps[..|steps| - 1];
      Drift(w, front, side) + DriftBy(Run(w, front), steps[|steps| - 1], side)
  }

  // ----- Flights as the regions make them -----

  /** What the local variables of an announce can be. */
  ghost predicate Sound(f: Flight) {
    && (f.completed ==> Finishes(f.r))
    && (f.phase == CountedStop ==> f.r.event == Stopped)
    && (f.phase == Located ==>
          && (f.r.event == Stopped ==> !(if f.r.left > 0 then f.flags.decLeechers else f.flags.decSeeders))
          && (f.completed && !f.inserted ==> !f.flags.incSeeders && !f.flags.incLeechers && !f.flags.decLeechers))
  }

  ghost predicate AllSound(w: World) {
    forall id :: id in w.flights ==> Sound(w.flights[id])
  }

  lemma PutSize(s: set<Slot>, slot: Slot, b: bool)
    ensures |Put(s, slot, b)| == |s| + B(b) - B(slot in s)
  {
  }

  lemma SetSize(w: World, slot: Slot, p: Presence, side: Side)
    ensures Size(Set(w, slot, p), side) == Size(w, side) + B(Has(p, side)) - B(Has(At(w, slot), side))
  {
    PutSize(w.seeders, slot, p.seeds);
    PutSize(w.leechers, slot, p.leeches);
  }

  lemma PendingUpdate(flights: map<nat, Flight>, id: nat, f: Flight, side: Side)
    ensures Sum(Pendings(flights[id := f], side)) ==
            Sum(Pendings(flights, side)) + Pending(f, side) - if id in flights then Pending(flights[id], side) else 0
  {
    SumUpdate(Pendings(flights, side), id, Pending(f, side));
    assert Pendings(flights, side)[id := Pending(f, side)] == Pendings(flights[id := f], side);
  }

  lemma PendingRemove(flights: map<nat, Flight>, id: nat, side: Side)
    requires id in flights
    ensures Sum(Pendings(flights - {id}, side)) == Sum(Pendings(flights, side)) - Pending(flights[id], side)
  {
    SumRemove(Pendings(flights, side), id);
    assert Pendings(flights, side) - {id} == Pendings(flights - {id}, side);
  }

  // ----- Every interleaving -----

  /** What a step adds to a counter. */
  function CountedBy(w: World, step: Step, side: Side): (n: int)
    ensures -1 <= n <= 1
  {
    if step.Count? && step.id in w.flights && w.flights[step.id].phase == Concluded
    then Net(w.flights[step.id].flags, side) else 0
  }

  lemma StepCounter(w: World, step: Step, side: Side)
    ensures Counter(Apply(w, step), side) == Moved(Counter(w, side), CountedBy(w, step, side))
  {
  }

  lemma StepSound(w: World, step: Step)
    requires AllSound(w)
    ensures AllSound(Apply(w, step))
  {
  }

  /** Lists, announces in flight and drift move together with the counter. */
  ghost predicate Balances(w: World, step: Step, side: Side) {
    var w' := Apply(w, step);
    Size(w', side) - TotalPending(w', side) + DriftBy(w, step, side)
    == Size(w, side) - TotalPending(w, side) + CountedBy(w, step, side)
  }

  lemma BeginPoint(p: Presence, slot: Slot, r: Report, side: Side)
    ensures B(Has(LocatedAt(p, r), side)) - B(Has(p, side)) == Pending(LocatedFlight(p, slot, r), side)
  {
  }

  lemma ConcludePoint(p: Presence, f: Flight, side: Side)
    requires Sound(f) && f.phase == Located
    ensures B(Has(ConcludedAt(p, f), side)) - B(Has(p, side)) + ConcludeDrift(p, f, side)
            == Pending(ConcludedFlight(p, f), side) - Pending(f, side)
  {
  }

  lemma LookupBalances(w: World, step: Step, side: Side)
    requires step.Lookup?
    ensures Balances(w, step, side)
  {
    if step.id !in w.flights && step.hash in w.live {
      PendingUpdate(w.flights, step.id, LookedUp(Slot(w.live[step.hash], step.key), step.r), side);
      hide Pendings, Sum;
    }
  }

  lemma BeginBalances(w: World, id: nat, side: Side)
    ensures Balances(w, Begin(id), side)
  {
    if id in w.flights && w.flights[id].phase == Looked {
      var g := w.flights[id];
      var p := At(w, g.slot);
      var f := LocatedFlight(p, g.slot, g.r);
      var w1 := Set(w, g.slot, LocatedAt(p, g.r));
      var w' := w1.(flights := w.flights[id := f]);
      assert Apply(w, Begin(id)) == w' && Size(w', side) == Size(w1, side) && Pending(g, side) == 0;
      hide Apply, Set, LocatedAt, LocatedFlight, Pendings, Sum, Size, Has, Pending, At;
      SetSize(w, g.slot, LocatedAt(p, g.r), side);
      PendingUpdate(w.flights, id, f, side);
      BeginPoint(p, g.slot, g.r, side);
    }
  }

  lemma ConcludeBalances(w: World, id: nat, side: Side)
    requires AllSound(w)
    ensures Balances(w, Conclude(id), side)
  {
    if id in w.flights && w.flights[id].phase == Located {
      var f := w.flights[id];
      assert Sound(f);
      var p := At(w, f.slot);
      var w1 := Set(w, f.slot, ConcludedAt(p, f));
      var w' := w1.(flights := w.flights[id := ConcludedFlight(p, f)]);
      assert Apply(w, Conclude(id)) == w' && Size(w', side) == Size(w1, side);
      hide Apply, Set, ConcludedAt, ConcludedFlight, Pendings, Sum, Size, Has, Pending, At, Sound, AllSound, ConcludeDrift;
      SetSize(w, f.slot, ConcludedAt(p, f), side);
      PendingUpdate(w.flights, id, ConcludedFlight(p, f), side);
      ConcludePoint(p, f, side);
    }
  }

  lemma CountBalances(w: World, id: nat, side: Side)
    ensures Balances(w, Count(id), side)
  {
    if id in w.flights && w.flights[id].phase == Concluded {
      var f := w.flights[id];
      var stopped := f.(phase := CountedStop);
      assert f.r.event != Stopped ==> !Leaves(f, side);
      hide Pendings, Sum, Moved, Net, Leaves;
      PendingUpdate(w.flights, id, stopped, side);
      PendingRemove(w.flights, id, side);
    }
  }

  lemma RemoveBalances(w: World, id: nat, side: Side)
    requires AllSound(w)
    ensures Balances(w, Remove(id), side)
  {
    if id in w.flights && w.flights[id].phase == CountedStop {
      var f := w.flights[id];
      assert Sound(f);
      SetSize(w, f.slot, RemovedAt(At(w, f.slot), f.r), side);
      PendingRemove(w.flights, id, side);
      hide Set, Pendings, Sum;
    }
  }

  lemma MinusSize(s: set<Slot>, gone: set<Slot>)
    ensures |s - gone| == |s| - |s * gone|
  {
    assert s == (s - gone) + s * gone;
  }

  lemma SweepBalances(w: World, seeders: set<Slot>, leechers: set<Slot>, side: Side)
    ensures Balances(w, Sweep(seeders, leechers), side)
  {
    MinusSize(w.seeders, seeders);
    MinusSize(w.leechers, leechers);
    hide Pendings, Sum;
  }

  lemma StepBalances(w: World, step: Step, side: Side)
    requires AllSound(w)
    ensures Balances(w, step, side)
  {
    match step
    case Add(_) =>
    case Delete(_) =>
    case Lookup(_, _, _, _) => LookupBalances(w, step, side);
    case Begin(id) => BeginBalances(w, id, side);
    case Conclude(id) => ConcludeBalances(w, id, side);
    case Count(id) => CountBalances(w, id, side);
    case Remove(id) => RemoveBalances(w, id, side);
    case Sweep(seeders, leechers) => SweepBalances(w, seeders, leechers, side);
  }

  /** The counter is the number of listed peers, less what announces in flight still owe, plus `d`. */
  ghost predicate Stands(w: World, side: Side, d: int) {
    Counter(w, side) == Wrap32(Size(w, side) - TotalPending(w, side) + d)
  }

  lemma StepStands(w: World, step: Step, side: Side, d: int)
    requires AllSound(w) && Stands(w, side, d)
    ensures AllSound(Apply(w, step)) && Stands(Apply(w, step), side, d + DriftBy(w, step, side))
  {
    hide Apply, Size, TotalPending, DriftBy, CountedBy, AllSound, Counter, Moved, Wrap32;
    StepSound(w, step);
    StepBalances(w, step, side);
    StepCounter(w, step, side);
    MovedWraps(Size(w, side) - TotalPending(w, side) + d, CountedBy(w, step, side));
  }

  lemma StartStands(side: Side)
    ensures AllSound(START) && Stands(START, side, 0)
  {
    assert Pendings(START.flights, side) == map[];
  }

  /** Over every interleaving of lookups, regions, additions, deletions and reaps, each counter is the number of
      peers listed in all torrent objects, less what announces in flight still owe, plus the drift so far. */
  lemma {:induction false} CounterInvariant(steps: seq<Step>, side: Side)
    ensures AllSound(Run(START, steps)) && Stands(Run(START, steps), side, Drift(START, steps, side))
  {
    hide Apply, Stands, AllSound, DriftBy;
    if steps == [] {
      StartStands(side);
    } else {
      var front := steps[..|steps| - 1];
      CounterInvariant(front, side);
      StepStands(Run(START, front), steps[|steps| - 1], side, Drift(START, front, side));
    }
  }

  lemma QuietStands(w: World, side: Side, d: int)
    requires Stands(w, side, d) && w.flights == map[]
    ensures Counter(w, side) == Wrap32(Size(w, side) + d)
  {
    assert Pendings(w.flights, side) == map[];
    hide Wrap32, Counter, Size;
  }

  /** With no announce in flight a counter is right exactly when the peers left in deleted torrents and the drift
      cancel out. */
  lemma QuietExactIff(steps: seq<Step>, side: Side)
    requires Run(START, steps).flights == map[]
    ensures var w := Run(START, steps);
      Counter(w, side) == Wrap32(LiveSize(w, side)) <==> Wrap32(OrphanSize(w, side) + Drift(START, steps, side)) == 0
  {
    hide Run, Drift, Size, LiveSize, OrphanSize, Counter, Wrap32, AllSound, Stands;
    var w, d := Run(START, steps), Drift(START, steps, side);
    CounterInvariant(steps, side);
    QuietStands(w, side, d);
    SizeSplits(w, side);
    SameWordIff(LiveSize(w, side), OrphanSize(w, side) + d);
  }

  lemma SameWordIff(x: int, d: int)
    ensures Wrap32(x + d) == Wrap32(x) <==> Wrap32(d) == 0
  {
  }

  // ----- One announce at a time per slot -----

  /** The announce has touched the lists. */
  predicate Begun(f: Flight) {
    f.phase != Looked
  }

  /** The step does not begin an announce for a slot that has one in its regions, nor sweep such a slot. */
  predicate Alone(w: World, step: Step) {
    match step
    case Begin(id) =>
      id in w.flights ==> forall j :: j in w.flights && Begun(w.flights[j]) ==> w.flights[j].slot != w.flights[id].slot
    case Sweep(seeders, leechers) =>
      forall id :: id in w.flights && Begun(w.flights[id]) ==> w.flights[id].slot !in seeders + leechers
    case _ => true
  }

  /** Nothing else touches the slot of an announce while it is in its regions. */
  predicate Serial(w: World, steps: seq<Step>) {
    steps == [] || (Serial(w, steps[..|steps| - 1]) && Alone(Run(w, steps[..|steps| - 1]), steps[|steps| - 1]))
  }

  /** The lists are still as the announce left them. */
  ghost predicate Undisturbed(p: Presence, f: Flight) {
    && (f.phase == Located && f.completed && !f.inserted ==> p.leeches && (f.flags.decSeeders <==> p.seeds))
    && (Begun(f) && f.r.event == Stopped ==> Has(p, if f.r.left > 0 then Leeches else Seeds))
  }

  ghost predicate Separate(w: World) {
    && (forall i, j :: i in w.flights && j in w.flights && i != j && Begun(w.flights[i]) && Begun(w.flights[j]) ==>
          w.flights[i].slot != w.flights[j].slot)
    && forall id :: id in w.flights ==> Undisturbed(At(w, w.flights[id].slot), w.flights[id])
  }

  lemma LookedUndisturbed(p: Presence, q: Presence, f: Flight)
    requires !Begun(f)
    ensures Undisturbed(p, f) && Undisturbed(q, f)
  {
  }

  lemma BeginUndisturbed(p: Presence, slot: Slot, r: Report)
    ensures Undisturbed(LocatedAt(p, r), LocatedFlight(p, slot, r))
  {
  }

  lemma ConcludeUndisturbed(p: Presence, f: Flight)
    requires Sound(f) && f.phase == Located && Undisturbed(p, f)
    ensures Undisturbed(ConcludedAt(p, f), ConcludedFlight(p, f))
    ensures forall side :: ConcludeDrift(p, f, side) == 0
  {
  }

  /** An edit of one slot, by the one announce that is there. */
  lemma EditSeparate(w: World, w1: World, id: nat, f: Flight, p: Presence)
    requires Separate(w) && w1 == Set(w, f.slot, p).(flights := w.flights[id := f]) && Undisturbed(p, f)
    requires forall i :: i in w.flights && i != id && Begun(w.flights[i]) ==> w.flights[i].slot != f.slot
    ensures Separate(w1)
  {
    forall i | i in w1.flights ensures Undisturbed(At(w1, w1.flights[i].slot), w1.flights[i]) {
      if i != id && !Begun(w.flights[i]) {
        LookedUndisturbed(At(w, w.flights[i].slot), At(w1, w.flights[i].slot), w.flights[i]);
      }
      hide Undisturbed;
    }
    hide Undisturbed;
  }

  /** One flight gone, its slot edited or not. */
  lemma EndSeparate(w: World, w1: World, id: nat, p: Presence)
    requires Separate(w) && id in w.flights && Begun(w.flights[id])
    requires w1.flights == w.flights - {id}
    requires w1.seeders == Set(w, w.flights[id].slot, p).seeders && w1.leechers == Set(w, w.flights[id].slot, p).leechers
    ensures Separate(w1)
  {
    forall i | i in w1.flights ensures Undisturbed(At(w1, w1.flights[i].slot), w1.flights[i]) {
      if !Begun(w.flights[i]) {
        LookedUndisturbed(At(w, w.flights[i].slot), At(w1, w.flights[i].slot), w.flights[i]);
      }
      hide Undisturbed;
    }
    hide Undisturbed;
  }

  lemma SweepSeparate(w: World, step: Step)
    requires Separate(w) && step.Sweep? && Alone(w, step)
    ensures Separate(Apply(w, step))
  {
    var w1 := Apply(w, step);
    forall i | i in w1.flights ensures Undisturbed(At(w1, w1.flights[i].slot), w1.flights[i]) {
      if !Begun(w.flights[i]) {
        LookedUndisturbed(At(w, w.flights[i].slot), At(w1, w.flights[i].slot), w.flights[i]);
      }
      hide Undisturbed;
    }
    hide Undisturbed;
  }

  lemma LookupSeparate(w: World, step: Step)
    requires Separate(w) && step.Lookup?
    ensures Separate(Apply(w, step))
  {
    hide Undisturbed;
    if step.id !in w.flights && step.hash in w.live {
      var f := LookedUp(Slot(w.live[step.hash], step.key), step.r);
      LookedUndisturbed(At(w, f.slot), At(w, f.slot), f);
    }
  }

  lemma CountSeparate(w: World, id: nat)
    requires Separate(w)
    ensures Separate(Apply(w, Count(id)))
  {
    if id in w.flights && w.flights[id].phase == Concluded {
      var f := w.flights[id];
      var p := At(w, f.slot);
      assert Set(w, f.slot, p) == w;
      assert Undisturbed(p, f) && Undisturbed(p, f.(phase := CountedStop));
      var w1 := Apply(w, Count(id));
      if f.r.event == Stopped {
        var w0 := w.(flights := w.flights[id := f.(phase := CountedStop)]);
        EditSeparate(w, w0, id, f.(phase := CountedStop), p);
        SameLists(w0, w1);
      } else {
        EndSeparate(w, w1, id, p);
      }
    }
  }

  lemma SameLists(w: World, w1: World)
    requires Separate(w) && w1.flights == w.flights && w1.seeders == w.seeders && w1.leechers == w.leechers
    ensures Separate(w1)
  {
    hide Undisturbed;
    assert forall slot :: At(w1, slot) == At(w, slot);
  }

  lemma StepSeparate(w: World, step: Step)
    requires AllSound(w) && Separate(w) && Alone(w, step)
    ensures Separate(Apply(w, step))
    ensures forall side :: DriftBy(w, step, side) == SweptBy(w, step, side)
  {
    match step
    case Add(_) => SameLists(w, Apply(w, step));
    case Delete(_) => SameLists(w, Apply(w, step));
    case Lookup(_, _, _, _) => LookupSeparate(w, step);
    case Sweep(_, _) => SweepSeparate(w, step);
    case Count(id) => CountSeparate(w, id);
    case Begin(id) =>
      if id in w.flights && w.flights[id].phase == Looked {
        var f := w.flights[id];
        var p := At(w, f.slot);
        BeginUndisturbed(p, f.slot, f.r);
        EditSeparate(w, Apply(w, step), id, LocatedFlight(p, f.slot, f.r), LocatedAt(p, f.r));
      }
    case Conclude(id) =>
      if id in w.flights && w.flights[id].phase == Located {
        var f := w.flights[id];
        var p := At(w, f.slot);
        ConcludeUndisturbed(p, f);
        EditSeparate(w, Apply(w, step), id, ConcludedFlight(p, f), ConcludedAt(p, f));
      }
    case Remove(id) =>
      if id in w.flights && w.flights[id].phase == CountedStop {
        var f := w.flights[id];
        EndSeparate(w, Apply(w, step), id, RemovedAt(At(w, f.slot), f.r));
      }
  }

  lemma {:induction false} SerialNoDrift(steps: seq<Step>)
    requires Serial(START, steps)
    ensures AllSound(Run(START, steps)) && Separate(Run(START, steps))
    ensures forall side :: Drift(START, steps, side) == Swept(START, steps, side)
  {
    if steps != [] {
      var front, step := steps[..|steps| - 1], steps[|steps| - 1];
      SerialNoDrift(front);
      StepSound(Run(START, front), step);
      StepSeparate(Run(START, front), step);
      hide Apply, DriftBy, SweptBy, AllSound, Separate;
    }
  }

  /** If nothing else touches a peer while an announce of it is in its regions, then whatever interleaves, whenever
      nothing is in flight the counters are the live list sizes, plus the peers left in deleted torrents, plus the
      peers swept out. */
  lemma SerialExact(steps: seq<Step>, side: Side)
    requires Serial(START, steps) && Run(START, steps).flights == map[]
    ensures var w := Run(START, steps);
      Counter(w, side) == Wrap32(LiveSize(w, side) + OrphanSize(w, side) + Swept(START, steps, side))
  {
    hide Run, Drift, Swept, Size, LiveSize, OrphanSize, Counter, Wrap32, AllSound, Separate, Stands;
    SerialNoDrift(steps);
    CounterInvariant(steps, side);
    QuietStands(Run(START, steps), side, Drift(START, steps, side));
    SizeSplits(Run(START, steps), side);
  }

  lemma RunOneMore(w: World, steps: seq<Step>, step: Step)
    ensures Run(w, steps + [step]) == Apply(Run(w, steps), step)
  {
    assert (steps + [step])[..|steps|] == steps;
  }

  // ----- Runs that put the counters off -----

  function Stopping(slot: Slot, stop: Report, phase: Phase): Flight {
    Flight(slot, stop, false, false, Flags(false, false, false, phase == Concluded || phase == CountedStop), phase)
  }

  lemma StopBegins(w: World, id: nat, slot: Slot, stop: Report)
    requires stop.left == 0 && stop.event == Stopped && slot in w.seeders && slot !in w.leechers
    requires id in w.flights && w.flights[id] == Stopping(slot, stop, Looked)
    ensures Apply(w, Begin(id)) == w.(flights := w.flights[id := Stopping(slot, stop, Located)])
  {
  }

  lemma StopConcludes(w: World, id: nat, slot: Slot, stop: Report)
    requires stop.left == 0 && stop.event == Stopped && slot in w.seeders && slot !in w.leechers
    requires id in w.flights && w.flights[id] == Stopping(slot, stop, Located)
    ensures Apply(w, Conclude(id)) == w.(flights := w.flights[id := Stopping(slot, stop, Concluded)])
  {
  }

  lemma StopCounts(w: World, id: nat, slot: Slot, stop: Report)
    requires stop.left == 0 && stop.event == Stopped
    requires id in w.flights && w.flights[id] == Stopping(slot, stop, Concluded)
    ensures Apply(w, Count(id)) ==
            w.(seeding := Moved(w.seeding, -1), flights := w.flights[id := Stopping(slot, stop, CountedStop)])
  {
  }

  lemma StopRemoves(w: World, id: nat, slot: Slot, stop: Report)
    requires stop.left == 0 && stop.event == Stopped && slot !in w.leechers
    requires id in w.flights && w.flights[id] == Stopping(slot, stop, CountedStop)
    ensures Apply(w, Remove(id)) == w.(seeders := w.seeders - {slot}, flights := w.flights - {id})
  {
  }

  lemma LooksUp(w: World, id: nat, hash: InfoHash, key: Key, r: Report)
    requires id !in w.flights && hash in w.live
    ensures Apply(w, Lookup(id, hash, key, r)) == w.(flights := w.flights[id := LookedUp(Slot(w.live[hash], key), r)])
  {
  }

  /** Two stops of one peer that have both looked the torrent up. */
  function StopTwice(i: nat, j: nat): seq<Step> {
    [Begin(i), Begin(j), Conclude(i)] + [Conclude(j), Count(i), Count(j)] + [Remove(i)] + [Remove(j)]
  }

  /** Two overlapping stops of a listed seeder are both counted, though only one removes it. */
  lemma TwoStops(w: World, i: nat, j: nat, slot: Slot, stop: Report)
    requires stop.left == 0 && stop.event == Stopped && slot in w.seeders && slot !in w.leechers && i != j
    requires w.flights == map[i := Stopping(slot, stop, Looked), j := Stopping(slot, stop, Looked)]
    ensures Run(w, StopTwice(i, j))
         == w.(seeders := w.seeders - {slot}, seeding := Moved(Moved(w.seeding, -1), -1), flights := map[])
  {
    assert Run(w, []) == w;
    hide Apply, Moved, Run;
    StopBegins(w, i, slot, stop);
    var w1 := Apply(w, Begin(i));
    StopBegins(w1, j, slot, stop);
    var w2 := Apply(w1, Begin(j));
    StopConcludes(w2, i, slot, stop);
    var w3 := Apply(w2, Conclude(i));
    StopConcludes(w3, j, slot, stop);
    var w4 := Apply(w3, Conclude(j));
    StopCounts(w4, i, slot, stop);
    var w5 := Apply(w4, Count(i));
    StopCounts(w5, j, slot, stop);
    var w6 := Apply(w5, Count(j));
    StopRemoves(w6, i, slot, stop);
    var w7 := Apply(w6, Remove(i));
    StopRemoves(w7, j, slot, stop);
    assert Apply(w7, Remove(j)).flights == map[];
    RunEight(w, [], Begin(i), Begin(j), Conclude(i), Conclude(j), Count(i), Count(j), Remove(i), Remove(j));
    assert [] + [Begin(i), Begin(j), Conclude(i)] == [Begin(i), Begin(j), Conclude(i)];
  }

  /** A torrent with one peer in it, after its first announce. */
  function WithPeer(hash: InfoHash, slot: Slot, seeds: bool): World {
    World(map[hash := 0], 1, if seeds then {slot} else {}, if seeds then {} else {slot},
          if seeds then 1 else 0, if seeds then 0 else 1, map[])
  }

  lemma FirstAdd(hash: InfoHash, key: Key, r: Report)
    ensures Apply(Apply(START, Add(hash)), Lookup(0, hash, key, r))
         == World(map[hash := 0], 1, {}, {}, 0, 0, map[0 := LookedUp(Slot(0, key), r)])
  {
    assert Apply(START, Add(hash)) == World(map[hash := 0], 1, {}, {}, 0, 0, map[]);
  }

  lemma FirstRegions(hash: InfoHash, key: Key, r: Report)
    requires r.event == Regular && r.left >= 0
    ensures var w := World(map[hash := 0], 1, {}, {}, 0, 0, map[0 := LookedUp(Slot(0, key), r)]);
      Apply(Apply(Apply(w, Begin(0)), Conclude(0)), Count(0)) == WithPeer(hash, Slot(0, key), r.left == 0)
  {
    var slot, seeds := Slot(0, key), r.left == 0;
    var w := World(map[hash := 0], 1, {}, {}, 0, 0, map[0 := LookedUp(slot, r)]);
    var f := Flight(slot, r, true, false, Flags(!seeds, seeds, false, false), Located);
    var w1 := WithPeer(hash, slot, seeds).(seeding := 0, leeching := 0, flights := map[0 := f]);
    assert Apply(w, Begin(0)) == w1;
    var w2 := w1.(flights := map[0 := f.(phase := Concluded)]);
    assert Apply(w1, Conclude(0)) == w2;
    assert w2.flights - {0} == map[];
  }

  function FirstPeer(hash: InfoHash, key: Key, r: Report): seq<Step> {
    [Add(hash)] + [Lookup(0, hash, key, r)] + [Begin(0), Conclude(0), Count(0)]
  }

  lemma FirstPeerRun(hash: InfoHash, key: Key, r: Report)
    requires r.event == Regular && r.left >= 0
    ensures Run(START, FirstPeer(hash, key, r)) == WithPeer(hash, Slot(0, key), r.left == 0)
  {
    assert Run(START, []) == START;
    hide Apply, Run, WithPeer, START;
    FirstAdd(hash, key, r);
    FirstRegions(hash, key, r);
    RunOneMore(START, [], Add(hash));
    RunOneMore(START, [] + [Add(hash)], Lookup(0, hash, key, r));
    assert [] + [Add(hash)] == [Add(hash)];
    RunThree(START, [Add(hash)] + [Lookup(0, hash, key, r)], Begin(0), Conclude(0), Count(0));
  }

  /** So serialising per slot is needed: one peer that stops twice at once drives the counter below zero, and it
      wraps. */
  lemma OverlappingStopsWrap(hash: InfoHash, key: Key, r: Report) returns (steps: seq<Step>)
    requires r.left == 0 && r.event == Regular
    ensures Run(START, steps) == World(map[hash := 0], 1, {}, {}, 0xFFFF_FFFF, 0, map[])
  {
    var stop, slot := r.(event := Stopped), Slot(0, key);
    FirstPeerRun(hash, key, r);
    var w := WithPeer(hash, slot, true);
    var look1, look2 := Lookup(1, hash, key, stop), Lookup(2, hash, key, stop);
    LooksUp(w, 1, hash, key, stop);
    var w1 := Apply(w, look1);
    LooksUp(w1, 2, hash, key, stop);
    var w2 := Apply(w1, look2);
    assert w2 == w.(flights := map[1 := Stopping(slot, stop, Looked), 2 := Stopping(slot, stop, Looked)]);
    TwoStops(w2, 1, 2, slot, stop);
    assert Moved(Moved(1, -1), -1) == 0xFFFF_FFFF && {slot} - {slot} == {};
    hide Apply, Run, Moved, START, StopTwice, FirstPeer;
    steps := FirstPeer(hash, key, r);
    RunOneMore(START, steps, look1);
    RunOneMore(START, steps + [look1], look2);
    steps := steps + [look1] + [look2];
    RunAppend(START, steps, StopTwice(1, 2));
    steps := steps + StopTwice(1, 2);
  }

  lemma FinishMoves(hash: InfoHash, slot: Slot, done: Report)
    requires Finishes(done) && slot.torrent == 0
    ensures var w := WithPeer(hash, slot, false).(flights := map[1 := LookedUp(slot, done)]);
      Apply(Apply(Apply(Apply(w, Begin(1)), Delete(hash)), Conclude(1)), Count(1))
      == World(map[], 1, {slot}, {}, 1, 0, map[])
  {
    var w := WithPeer(hash, slot, false).(flights := map[1 := LookedUp(slot, done)]);
    var f := Flight(slot, done, false, true, NO_FLAGS, Located);
    var w1 := w.(flights := map[1 := f]);
    assert Apply(w, Begin(1)) == w1;
    var w2 := w1.(live := map[]);
    assert Apply(w1, Delete(hash)) == w2;
    var g := f.(flags := Flags(false, true, true, false), phase := Concluded);
    var w3 := World(map[], 1, {slot}, {}, 0, 1, map[1 := g]);
    assert Apply(w2, Conclude(1)) == w3;
    assert w3.flights - {1} == map[];
  }

  /** A leecher that finishes while its torrent is deleted still moves over in the orphaned lists: the tracker ends
      with no torrent and one seeder counted. */
  lemma DeletionMidAnnounce(hash: InfoHash, key: Key, r: Report) returns (steps: seq<Step>)
    requires r.left > 0 && r.event == Regular
    ensures Run(START, steps) == World(map[], 1, {Slot(0, key)}, {}, 1, 0, map[])
  {
    var done, slot := r.(event := Completed, left := 0), Slot(0, key);
    FirstPeerRun(hash, key, r);
    var w := WithPeer(hash, slot, false);
    var look := Lookup(1, hash, key, done);
    LooksUp(w, 1, hash, key, done);
    assert Apply(w, look) == w.(flights := map[1 := LookedUp(slot, done)]);
    FinishMoves(hash, slot, done);
    hide Apply, Run, START, FirstPeer, WithPeer;
    steps := FirstPeer(hash, key, r);
    RunOneMore(START, steps, look);
    RunThree(START, steps + [look], Begin(1), Delete(hash), Conclude(1));
    RunOneMore(START, steps + [look] + [Begin(1), Delete(hash), Conclude(1)], Count(1));
    steps := steps + [look] + [Begin(1), Delete(hash), Conclude(1)] + [Count(1)];
  }

  lemma {:induction false} RunAppend(w: World, a: seq<Step>, b: seq<Step>)
    ensures Run(w, a + b) == Run(Run(w, a), b)
  {
    hide Apply;
    if b == [] {
      assert a + b == a;
    } else {
      RunAppend(w, a, b[..|b| - 1]);
      assert (a + b)[..|a + b| - 1] == a + b[..|b| - 1];
    }
  }

  lemma RunEight(w: World, steps: seq<Step>, a: Step, b: Step, c: Step, d: Step, e: Step, f: Step, g: Step, h: Step)
    ensures Run(w, steps + [a, b, c] + [d, e, f] + [g] + [h]) ==
            Apply(Apply(Apply(Apply(Apply(Apply(Apply(Apply(Run(w, steps), a), b), c), d), e), f), g), h)
  {
    hide Apply, Run;
    RunThree(w, steps, a, b, c);
    RunThree(w, steps + [a, b, c], d, e, f);
    RunOneMore(w, steps + [a, b, c] + [d, e, f], g);
    RunOneMore(w, steps + [a, b, c] + [d, e, f] + [g], h);
  }

  lemma RunThree(w: World, steps: seq<Step>, a: Step, b: Step, c: Step)
    ensures Run(w, steps + [a, b, c]) == Apply(Apply(Apply(Run(w, steps), a), b), c)
  {
    hide Apply;
    RunOneMore(w, steps, a);
    RunOneMore(w, steps + [a], b);
    RunOneMore(w, steps + [a] + [b], c);
    assert steps + [a] + [b] + [c] == steps + [a, b, c];
  }

  // ----- Run on its own, an announce is the atomic one -----

  /** The regions of one announce in a row do to its slot and the counters what the atomic announce does. */
  lemma AloneIsAtomic(t: Torrent, slot: Slot, user: Word32, r: Report)
    ensures var p := Presence(slot.key in t.seeders, slot.key in t.leechers);
      var f := LocatedFlight(p, slot, r);
      var p1 := LocatedAt(p, r);
      var f2, p2 := ConcludedFlight(p1, f), ConcludedAt(p1, f);
      var p3 := if r.event == Stopped then RemovedAt(p2, r) else p2;
      var t' := AnnouncedTorrent(t, slot.key, user, r);
      && p3 == Presence(slot.key in t'.seeders, slot.key in t'.leechers)
      && Net(f2.flags, Seeds) == Here(t'.seeders, slot.key) - Here(t.seeders, slot.key)
      && Net(f2.flags, Leeches) == Here(t'.leechers, slot.key) - Here(t.leechers, slot.key)
      && (f.completed <==> Snatches(t, slot.key, r))
  {
    hide Refreshed, DeltaOf, SplitOf, Found;
  }
}
