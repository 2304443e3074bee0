/** Counters against swarms over every run of the Go tracker. */
module AnnounceRuns {
  import opened MapSums
  import opened Options
  import opened PeerKeys
  import opened Announce

  datatype Action =
    | Announcing(hash: InfoHash, passkey: Passkey, r: Report, screened: bool)
    | AddTorrent(hash: InfoHash, id: Word32, free: FreeType)
    | DeleteTorrent(hash: InfoHash)
    | Expire(hash: InfoHash, seeders: set<Key>, leechers: set<Key>)  // the reaper on one torrent

  /** Each list loses the records that are stale there. */
  function Expired(t: Torrent, seeders: set<Key>, leechers: set<Key>): Torrent {
    t.(seeders := t.seeders - seeders, leechers := t.leechers - leechers)
  }

  function Apply(s: Tracker, a: Action): Tracker {
    match a
    case Announcing(hash, passkey, r, screened) =>
      if passkey in s.users then Announced(s, hash, passkey, r, screened) else s
    case AddTorrent(hash, id, free) =>
      if hash in s.torrents then s
      else s.(torrents := s.torrents[hash := Torrent(id, 0, 0, free, map[], map[], {})])
    case DeleteTorrent(hash) => s.(torrents := s.torrents - {hash})
    case Expire(hash, gone, gone') =>
      if hash in s.torrents then s.(torrents := s.torrents[hash := Expired(s.torrents[hash], gone, gone')]) else s
  }

  function Run(s: Tracker, acts: seq<Action>): Tracker {
    if acts == [] then s else Apply(Run(s, acts[..|acts| - 1]), acts[|acts| - 1])
  }

  // ----- Measures of the swarms -----

  datatype Measure = Seeders | Leechers | SeedersOf(user: Word32) | LeechersOf(user: Word32)

  function Owned(list: PeerList, u: Word32): nat {
    |set k | k in list && list[k].userID == u|
  }

  function Measured(t: Torrent, m: Measure): int {
    match m
    case Seeders => |t.seeders|
    case Leechers => |t.leechers|
    case SeedersOf(u) => Owned(t.seeders, u)
    case LeechersOf(u) => Owned(t.leechers, u)
  }

  function Sizes(ts: map<InfoHash, Torrent>, m: Measure): map<InfoHash, int> {
    map h | h in ts :: Measured(ts[h], m)
  }

  ghost function Total(ts: map<InfoHash, Torrent>, m: Measure): int {
    Sum(Sizes(ts, m))
  }

  /** The counters of every account object with user ID `u`, added up. */
  ghost function Seeding(users: map<Passkey, User>, u: Word32): int {
    Sum(map p | p in users :: if users[p].id == u then users[p].seeding else 0)
  }

  ghost function Leeching(users: map<Passkey, User>, u: Word32): int {
    Sum(map p | p in users :: if users[p].id == u then users[p].leeching else 0)
  }

  /** The part of a measure that deletion and reaping take out behind the counters' back. */
  function LostBy(s: Tracker, a: Action, m: Measure): int {
    match a
    case DeleteTorrent(hash) => if hash in s.torrents then Measured(s.torrents[hash], m) else 0
    case Expire(hash, gone, gone') =>
      if hash in s.torrents then Measured(s.torrents[hash], m) - Measured(Expired(s.torrents[hash], gone, gone'), m) else 0
    case _ => 0
  }

  function Lost(s: Tracker, acts: seq<Action>, m: Measure): int {
    if acts == [] then 0
    else
      var front := acts[..|acts| - 1];
      Lost(s, front, m) + LostBy(Run(s, front), acts[|acts| - 1], m)
  }

  // ----- The invariant -----

  /** The user ID inside every key is the user ID of the stored peer. */
  ghost predicate Keyed(list: PeerList) {
    forall k :: k in list ==> |k| == 25 && GoIdent(k).user == list[k].userID
  }

  ghost predicate WellKeyed(ts: map<InfoHash, Torrent>) {
    forall h :: h in ts ==> Keyed(ts[h].seeders) && Keyed(ts[h].leechers)
  }

  /** A 32-bit counter equals a measure of the swarms plus what was lost, mod 2^32. */
  ghost predicate Agrees(counter: int, total: int, lost: int) {
    Wrap32(counter) == Wrap32(total + lost)
  }

  // ----- Single-step lemmas -----

  lemma TotalUpdate(ts: map<InfoHash, Torrent>, h: InfoHash, t: Torrent, m: Measure)
    ensures Total(ts[h := t], m) == Total(ts, m) + Measured(t, m) - (if h in ts then Measured(ts[h], m) else 0)
  {
    SumUpdate(Sizes(ts, m), h, Measured(t, m));
    assert Sizes(ts, m)[h := Measured(t, m)] == Sizes(ts[h := t], m);
  }

  lemma TotalRemove(ts: map<InfoHash, Torrent>, h: InfoHash, m: Measure)
    requires h in ts
    ensures Total(ts - {h}, m) == Total(ts, m) - Measured(ts[h], m)
  {
    SumRemove(Sizes(ts, m), h);
    assert Sizes(ts, m) - {h} == Sizes(ts - {h}, m);
  }

  lemma OwnedUpdate(list: PeerList, key: Key, p: Peer, u: Word32)
    requires key in list ==> list[key].userID == p.userID
    ensures Owned(list[key := p], u) == Owned(list, u) + if p.userID == u then 1 - Here(list, key) else 0
  {
    var was := set k | k in list && list[k].userID == u;
    var list' := list[key := p];
    var now := set k | k in list' && list'[k].userID == u;
    if p.userID == u {
      assert now == was + {key};
    } else {
      assert now == was;
    }
  }

  lemma OwnedRemove(list: PeerList, key: Key, u: Word32)
    ensures Owned(list - {key}, u) == Owned(list, u) - if key in list && list[key].userID == u then 1 else 0
  {
    var was := set k | k in list && list[k].userID == u;
    var list' := list - {key};
    var now := set k | k in list' && list'[k].userID == u;
    assert now == was - {key};
  }

  lemma SizeRemove(list: PeerList, key: Key)
    ensures |list - {key}| == |list| - Here(list, key)
  {
    assert (list - {key}).Keys == list.Keys - {key};
  }

  /** One peer list after an announce: same keys elsewhere, and sizes that move by the
      presence of this key. */
  ghost predicate Touches(list: PeerList, list': PeerList, key: Key, u: Word32) {
    && Keyed(list')
    && |list'| == |list| + Here(list', key) - Here(list, key)
    && forall v: Word32 :: Owned(list', v) == Owned(list, v) + if v == u then Here(list', key) - Here(list, key) else 0
  }

  lemma TouchUpdate(list: PeerList, key: Key, p: Peer)
    requires Keyed(list) && |key| == 25 && GoIdent(key).user == p.userID
    ensures Touches(list, list[key := p], key, p.userID)
  {
    forall v: Word32 ensures Owned(list[key := p], v) == Owned(list, v) + if v == p.userID then 1 - Here(list, key) else 0 {
      OwnedUpdate(list, key, p, v);
    }
  }

  lemma TouchRemove(list: PeerList, key: Key, u: Word32)
    requires Keyed(list) && |key| == 25 && GoIdent(key).user == u
    ensures Touches(list, list - {key}, key, u)
  {
    SizeRemove(list, key);
    forall v: Word32 ensures Owned(list - {key}, v) == Owned(list, v) - if v == u then Here(list, key) else 0 {
      OwnedRemove(list, key, v);
    }
  }

  lemma SeedersTouched(t: Torrent, r: Report, u: Word32)
    requires |r.peerID| == 20 && Keyed(t.seeders) && Keyed(t.leechers)
    ensures var key := GoKey(r.peerID, u, t.id);
      Touches(t.seeders, AnnouncedTorrent(t, key, u, r).seeders, key, u)
  {
    var key := GoKey(r.peerID, u, t.id);
    GoKeyReadsBack(r.peerID, u, t.id);
    var p := Refreshed(Found(t, key, r), u, r);
    hide GoKey, GoIdent;
    if r.left <= 0 {
      if r.event == Stopped {
        TouchRemove(t.seeders, key, u);
      } else {
        TouchUpdate(t.seeders, key, p);
      }
    }
  }

  lemma LeechersTouched(t: Torrent, r: Report, u: Word32)
    requires |r.peerID| == 20 && Keyed(t.seeders) && Keyed(t.leechers)
    ensures var key := GoKey(r.peerID, u, t.id);
      Touches(t.leechers, AnnouncedTorrent(t, key, u, r).leechers, key, u)
  {
    var key := GoKey(r.peerID, u, t.id);
    GoKeyReadsBack(r.peerID, u, t.id);
    var p := Refreshed(Found(t, key, r), u, r);
    hide GoKey, GoIdent;
    if r.left > 0 && r.event != Stopped {
      TouchUpdate(t.leechers, key, p);
    } else {
      TouchRemove(t.leechers, key, u);
    }
  }

  lemma MovedSum(m: map<Passkey, int>, p: Passkey, d: int)
    requires p in m && 0 <= m[p] < 0x1_0000_0000 && -1 <= d <= 1
    ensures Wrap32(Sum(m[p := Moved(m[p], d)])) == Wrap32(Sum(m) + d)
  {
    SumUpdate(m, p, Moved(m[p], d));
  }

  /** Moving one account's counters moves the sums for its user ID by the same amount, mod 2^32. */
  lemma CountedSeeding(users: map<Passkey, User>, p: Passkey, ds: int, dl: int, u: Word32)
    requires p in users && -1 <= ds <= 1 && -1 <= dl <= 1
    ensures Wrap32(Seeding(users[p := Counted(users[p], ds, dl)], u))
         == Wrap32(Seeding(users, u) + if users[p].id == u then ds else 0)
  {
    var users' := users[p := Counted(users[p], ds, dl)];
    var m := map q | q in users :: if users[q].id == u then users[q].seeding else 0;
    var d := if users[p].id == u then ds else 0;
    MovedSum(m, p, d);
    assert m[p := Moved(m[p], d)] == map q | q in users' :: if users'[q].id == u then users'[q].seeding else 0;
  }

  lemma CountedLeeching(users: map<Passkey, User>, p: Passkey, ds: int, dl: int, u: Word32)
    requires p in users && -1 <= ds <= 1 && -1 <= dl <= 1
    ensures Wrap32(Leeching(users[p := Counted(users[p], ds, dl)], u))
         == Wrap32(Leeching(users, u) + if users[p].id == u then dl else 0)
  {
    var users' := users[p := Counted(users[p], ds, dl)];
    var m := map q | q in users :: if users[q].id == u then users[q].leeching else 0;
    var d := if users[p].id == u then dl else 0;
    MovedSum(m, p, d);
    assert m[p := Moved(m[p], d)] == map q | q in users' :: if users'[q].id == u then users'[q].leeching else 0;
  }

  lemma AgreesShift(c: int, t: int, l: int, c': int, t': int, l': int, d: int)
    requires Agrees(c, t, l)
    requires Wrap32(c') == Wrap32(c + d) && t' + l' == t + l + d
    ensures Agrees(c', t', l')
  {
  }

  /** The announce passes the checks and reaches a swarm. */
  predicate Effective(s: Tracker, a: Action) {
    a.Announcing? && a.passkey in s.users && a.hash in s.torrents && Acceptable(a.r, a.screened)
  }

  function KeyOf(s: Tracker, a: Action): Key
    requires Effective(s, a)
  {
    GoKey(a.r.peerID, s.users[a.passkey].id, s.torrents[a.hash].id)
  }

  function Edited(s: Tracker, a: Action): Torrent
    requires Effective(s, a)
  {
    AnnouncedTorrent(s.torrents[a.hash], KeyOf(s, a), s.users[a.passkey].id, a.r)
  }

  function ShiftS(s: Tracker, a: Action): (d: int)
    requires Effective(s, a)
    ensures -1 <= d <= 1
  {
    Here(Edited(s, a).seeders, KeyOf(s, a)) - Here(s.torrents[a.hash].seeders, KeyOf(s, a))
  }

  function ShiftL(s: Tracker, a: Action): (d: int)
    requires Effective(s, a)
    ensures -1 <= d <= 1
  {
    Here(Edited(s, a).leechers, KeyOf(s, a)) - Here(s.torrents[a.hash].leechers, KeyOf(s, a))
  }

  /** What an action adds to a measure: only announces add. */
  function Gain(s: Tracker, a: Action, m: Measure): int {
    if !Effective(s, a) then 0
    else match m
      case Seeders => ShiftS(s, a)
      case Leechers => ShiftL(s, a)
      case SeedersOf(u) => if s.users[a.passkey].id == u then ShiftS(s, a) else 0
      case LeechersOf(u) => if s.users[a.passkey].id == u then ShiftL(s, a) else 0
  }

  lemma AppliedAnnounce(s: Tracker, a: Action)
    requires Effective(s, a)
    ensures Apply(s, a).torrents == s.torrents[a.hash := Edited(s, a)]
    ensures Apply(s, a).users == s.users[a.passkey := Counted(s.users[a.passkey], ShiftS(s, a), ShiftL(s, a))]
    ensures Apply(s, a).seeders == Moved(s.seeders, ShiftS(s, a))
    ensures Apply(s, a).leechers == Moved(s.leechers, ShiftL(s, a))
  {
  }

  lemma EditedTouches(s: Tracker, a: Action)
    requires Effective(s, a) && WellKeyed(s.torrents)
    ensures Touches(s.torrents[a.hash].seeders, Edited(s, a).seeders, KeyOf(s, a), s.users[a.passkey].id)
    ensures Touches(s.torrents[a.hash].leechers, Edited(s, a).leechers, KeyOf(s, a), s.users[a.passkey].id)
  {
    SeedersTouched(s.torrents[a.hash], a.r, s.users[a.passkey].id);
    LeechersTouched(s.torrents[a.hash], a.r, s.users[a.passkey].id);
  }

  lemma EditedMeasure(s: Tracker, a: Action, m: Measure)
    requires Effective(s, a) && WellKeyed(s.torrents)
    ensures Measured(Edited(s, a), m) == Measured(s.torrents[a.hash], m) + Gain(s, a, m)
  {
    hide Edited, KeyOf, Keyed, WellKeyed, Owned;
    EditedTouches(s, a);
    match m
    case Seeders =>
    case Leechers =>
    case SeedersOf(u) =>
    case LeechersOf(u) =>
  }

  lemma EditedKeyed(s: Tracker, a: Action)
    requires Effective(s, a) && WellKeyed(s.torrents)
    ensures Keyed(Edited(s, a).seeders) && Keyed(Edited(s, a).leechers)
  {
    hide Edited, Keyed;
    EditedTouches(s, a);
  }

  lemma KeyedMinus(list: PeerList, stale: set<Key>)
    requires Keyed(list)
    ensures Keyed(list - stale)
  {
  }

  lemma KeyedStep(s: Tracker, a: Action)
    requires WellKeyed(s.torrents)
    ensures WellKeyed(Apply(s, a).torrents)
  {
    match a
    case Announcing(_, _, _, _) =>
      if Effective(s, a) {
        hide Edited, Keyed, Announced;
        EditedKeyed(s, a);
        AppliedAnnounce(s, a);
      }
    case AddTorrent(_, _, _) =>
    case DeleteTorrent(_) =>
    case Expire(hash, gone, gone') =>
      hide Keyed;
      if hash in s.torrents {
        KeyedMinus(s.torrents[hash].seeders, gone);
        KeyedMinus(s.torrents[hash].leechers, gone');
      }
  }

  lemma TotalStep(s: Tracker, a: Action, m: Measure)
    requires WellKeyed(s.torrents)
    ensures Total(Apply(s, a).torrents, m) == Total(s.torrents, m) + Gain(s, a, m) - LostBy(s, a, m)
  {
    match a
    case Announcing(_, _, _, _) =>
      if Effective(s, a) {
        AppliedAnnounce(s, a);
        EditedMeasure(s, a, m);
        TotalUpdate(s.torrents, a.hash, Edited(s, a), m);
      }
    case AddTorrent(hash, id, free) =>
      if hash !in s.torrents {
        TotalUpdate(s.torrents, hash, Torrent(id, 0, 0, free, map[], map[], {}), m);
      }
    case DeleteTorrent(hash) =>
      if hash in s.torrents {
        TotalRemove(s.torrents, hash, m);
      } else {
        assert s.torrents - {hash} == s.torrents;
      }
    case Expire(hash, gone, gone') =>
      if hash in s.torrents {
        TotalUpdate(s.torrents, hash, Expired(s.torrents[hash], gone, gone'), m);
      }
  }

  /** The counter that is meant to follow a measure. */
  ghost function CounterFor(s: Tracker, m: Measure): int {
    match m
    case Seeders => s.seeders
    case Leechers => s.leechers
    case SeedersOf(u) => Seeding(s.users, u)
    case LeechersOf(u) => Leeching(s.users, u)
  }

  lemma CounterStep(s: Tracker, a: Action, m: Measure)
    ensures Wrap32(CounterFor(Apply(s, a), m)) == Wrap32(CounterFor(s, m) + Gain(s, a, m))
  {
    if Effective(s, a) {
      AppliedAnnounce(s, a);
      match m
      case Seeders => MovedWraps(s.seeders, ShiftS(s, a));
      case Leechers => MovedWraps(s.leechers, ShiftL(s, a));
      case SeedersOf(u) => CountedSeeding(s.users, a.passkey, ShiftS(s, a), ShiftL(s, a), u);
      case LeechersOf(u) => CountedLeeching(s.users, a.passkey, ShiftS(s, a), ShiftL(s, a), u);
    }
  }

  lemma AgreesStep(s: Tracker, a: Action, m: Measure, lost: int)
    requires WellKeyed(s.torrents)
    requires Agrees(CounterFor(s, m), Total(s.torrents, m), lost)
    ensures Agrees(CounterFor(Apply(s, a), m), Total(Apply(s, a).torrents, m), lost + LostBy(s, a, m))
  {
    hide Total, WellKeyed;
    TotalStep(s, a, m);
    CounterStep(s, a, m);
    AgreesShift(CounterFor(s, m), Total(s.torrents, m), lost, CounterFor(Apply(s, a), m),
                Total(Apply(s, a).torrents, m), lost + LostBy(s, a, m), Gain(s, a, m));
  }

  // ----- Over every run -----

  /** A tracker with empty swarms and zero counters. */
  ghost predicate Fresh(s: Tracker) {
    && s.seeders == 0 && s.leechers == 0
    && (forall h :: h in s.torrents ==> s.torrents[h].seeders == map[] && s.torrents[h].leechers == map[])
    && (forall p :: p in s.users ==> s.users[p].seeding == 0 && s.users[p].leeching == 0)
  }

  lemma FreshAgrees(s: Tracker, m: Measure)
    requires Fresh(s)
    ensures Total(s.torrents, m) == 0 && CounterFor(s, m) == 0
  {
    SumZero(Sizes(s.torrents, m));
    match m
    case SeedersOf(u) => SumZero(map p | p in s.users :: if s.users[p].id == u then s.users[p].seeding else 0);
    case LeechersOf(u) => SumZero(map p | p in s.users :: if s.users[p].id == u then s.users[p].leeching else 0);
    case _ =>
  }

  lemma {:induction false} RunKeyed(s: Tracker, acts: seq<Action>)
    requires Fresh(s)
    ensures WellKeyed(Run(s, acts).torrents)
  {
    if acts != [] {
      RunKeyed(s, acts[..|acts| - 1]);
      KeyedStep(Run(s, acts[..|acts| - 1]), acts[|acts| - 1]);
    }
  }

  /** After any run from empty swarms every counter equals its measure of the swarms plus what
      deletion and reaping removed, mod 2^32: the global counters follow the list sizes, and the
      counters of a user ID's accounts add up to the entries that carry the ID. */
  lemma {:induction false} CountersTrackSwarms(s: Tracker, acts: seq<Action>, m: Measure)
    requires Fresh(s)
    ensures Agrees(CounterFor(Run(s, acts), m), Total(Run(s, acts).torrents, m), Lost(s, acts, m))
  {
    hide Total, CounterFor, WellKeyed, Apply, Fresh, Agrees, LostBy;
    if acts == [] {
      FreshStands(s, m);
    } else {
      var front, a := acts[..|acts| - 1], acts[|acts| - 1];
      CountersTrackSwarms(s, front, m);
      RunKeyed(s, front);
      AgreesStep(Run(s, front), a, m, Lost(s, front, m));
    }
  }

  lemma FreshStands(s: Tracker, m: Measure)
    requires Fresh(s)
    ensures Agrees(CounterFor(s, m), Total(s.torrents, m), 0)
  {
    hide Total, CounterFor, Fresh;
    FreshAgrees(s, m);
  }

  /** The reaper and `deleteTorrent` are the only actions that lose peers. */
  lemma {:induction false} NothingLost(s: Tracker, acts: seq<Action>, m: Measure)
    requires Plain(acts)
    ensures Lost(s, acts, m) == 0
  {
    if acts != [] {
      NothingLost(s, acts[..|acts| - 1], m);
    }
  }

  /** With announces only, the counters are exact: globally, and for every user ID. */
  lemma AnnouncesKeepCountersExact(s: Tracker, acts: seq<Action>, u: Word32)
    requires Fresh(s)
    requires Plain(acts)
    ensures var e := Run(s, acts);
      && e.seeders == Wrap32(Total(e.torrents, Seeders))
      && e.leechers == Wrap32(Total(e.torrents, Leechers))
      && Wrap32(Seeding(e.users, u)) == Wrap32(Total(e.torrents, SeedersOf(u)))
      && Wrap32(Leeching(e.users, u)) == Wrap32(Total(e.torrents, LeechersOf(u)))
  {
    hide Total, Run, Lost;
    CountersTrackSwarms(s, acts, Seeders);
    CountersTrackSwarms(s, acts, Leechers);
    CountersTrackSwarms(s, acts, SeedersOf(u));
    CountersTrackSwarms(s, acts, LeechersOf(u));
    NothingLost(s, acts, Seeders);
    NothingLost(s, acts, Leechers);
    NothingLost(s, acts, SeedersOf(u));
    NothingLost(s, acts, LeechersOf(u));
  }

  /** For any run at all, a counter is exact if and only if the peers lost to deletion and
      reaping are a multiple of 2^32. */
  lemma ExactIffNothingLost(s: Tracker, acts: seq<Action>, m: Measure)
    requires Fresh(s)
    ensures Wrap32(CounterFor(Run(s, acts), m)) == Wrap32(Total(Run(s, acts).torrents, m))
            <==> Wrap32(Lost(s, acts, m)) == 0
  {
    hide Total, Run, Lost, CounterFor;
    CountersTrackSwarms(s, acts, m);
  }

  /** One seeder started in a torrent of its own. */
  lemma OneStarted(s: Tracker, h: InfoHash, start: Action)
    requires Fresh(s) && h in s.torrents && start.Announcing? && start.passkey in s.users && start.hash == h
    requires start == Announcing(h, start.passkey, Report(seq(20, _ => 65), 0, 0, 0, 0, Started, true), true)
    ensures var e := Apply(s, start);
      && e.seeders == 1 && WellKeyed(e.torrents) && Total(e.torrents, Seeders) == 1
      && h in e.torrents && e.torrents[h].seeders.Keys == {KeyOf(s, start)}
  {
    FreshAgrees(s, Seeders);
    AppliedAnnounce(s, start);
    assert ShiftS(s, start) == 1;
    KeyedStep(s, start);
    TotalStep(s, start, Seeders);
  }

  /** What a deletion, or a reap of the one seeder, leaves: a counter of one over empty swarms. */
  lemma CountersRunAhead(s: Tracker, p: Passkey, reap: bool) returns (acts: seq<Action>)
    requires Fresh(s) && p in s.users
    ensures |acts| == 3 && acts[0].AddTorrent? && acts[1].Announcing? && (if reap then acts[2].Expire? else acts[2].DeleteTorrent?)
    ensures Run(s, acts).seeders == 1 && Total(Run(s, acts).torrents, Seeders) == 0
  {
    var add := AddTorrent("", 1, Normal);
    var start := Announcing("", p, Report(seq(20, _ => 65), 0, 0, 0, 0, Started, true), true);
    WithTorrent(s, add);
    var s1 := Apply(s, add);
    OneStarted(s1, "", start);
    var s2 := Apply(s1, start);
    var last := if reap then Expire("", {KeyOf(s1, start)}, {}) else DeleteTorrent("");
    OneTakenOut(s2, "", KeyOf(s1, start), last);
    acts := [add, start, last];
    RunThree(s, add, start, last);
  }

  lemma OneTakenOut(s: Tracker, h: InfoHash, key: Key, last: Action)
    requires WellKeyed(s.torrents) && h in s.torrents && s.torrents[h].seeders.Keys == {key}
    requires last == DeleteTorrent(h) || last == Expire(h, {key}, {})
    ensures Apply(s, last).seeders == s.seeders
    ensures Total(Apply(s, last).torrents, Seeders) == Total(s.torrents, Seeders) - 1
  {
    TotalStep(s, last, Seeders);
    var list := s.torrents[h].seeders;
    assert |list| == |list.Keys| == 1;
    assert list - {key} == map[];
    hide Total;
  }

  // ----- The counters of one account -----

  predicate Plain(acts: seq<Action>) {
    forall i :: 0 <= i < |acts| ==> acts[i].Announcing? || acts[i].AddTorrent?
  }

  /** The account's own counters are the entries that carry its user ID. */
  ghost predicate OwnExact(s: Tracker, p: Passkey) {
    && p in s.users
    && s.users[p].seeding == Wrap32(Total(s.torrents, SeedersOf(s.users[p].id)))
    && s.users[p].leeching == Wrap32(Total(s.torrents, LeechersOf(s.users[p].id)))
  }

  predicate Alone(users: map<Passkey, User>, p: Passkey)
    requires p in users
  {
    forall q :: q in users && q != p ==> users[q].id != users[p].id
  }

  lemma {:induction false} AccountsKept(s: Tracker, acts: seq<Action>)
    ensures Run(s, acts).users.Keys == s.users.Keys
    ensures forall p :: p in s.users ==> Run(s, acts).users[p].id == s.users[p].id
  {
    hide AnnouncedTorrent, Recorded, GoKey;
    if acts != [] {
      AccountsKept(s, acts[..|acts| - 1]);
    }
  }

  /** The counters of an account that alone carries its user ID are the whole sum. */
  lemma SoleAccountSum(users: map<Passkey, User>, p: Passkey)
    requires p in users && Alone(users, p)
    ensures Seeding(users, users[p].id) == users[p].seeding
    ensures Leeching(users, users[p].id) == users[p].leeching
  {
    var u := users[p].id;
    var ms := map q | q in users :: if users[q].id == u then users[q].seeding else 0;
    var ml := map q | q in users :: if users[q].id == u then users[q].leeching else 0;
    SumRemove(ms, p);
    SumZero(ms - {p});
    SumRemove(ml, p);
    SumZero(ml - {p});
  }

  lemma SoleAccountExact(s: Tracker, acts: seq<Action>, p: Passkey)
    requires Fresh(s) && p in s.users && Alone(s.users, p) && Plain(acts)
    ensures OwnExact(Run(s, acts), p)
  {
    hide Total, Run, Fresh, Seeding, Leeching;
    AccountsKept(s, acts);
    AnnouncesKeepCountersExact(s, acts, s.users[p].id);
    SoleAccountSum(Run(s, acts).users, p);
  }

  /** What `p` starts and `q` stops: the counter of `p` stays at one, with the entry gone. */
  lemma StartAndStop(s: Tracker, h: InfoHash, p: Passkey, q: Passkey, start: Action, stop: Action)
    requires Fresh(s) && h in s.torrents && p in s.users && q in s.users && p != q && s.users[p].id == s.users[q].id
    requires start == Announcing(h, p, Report(seq(20, _ => 65), 0, 0, 0, 0, Started, true), true)
    requires stop == Announcing(h, q, start.r.(event := Stopped), true)
    ensures var e := Apply(Apply(s, start), stop);
      && q in e.users && e.users[q].seeding == 0xFFFF_FFFF
      && !OwnExact(e, p)
  {
    var m := SeedersOf(s.users[p].id);
    FreshAgrees(s, m);
    var s1 := Apply(s, start);
    AppliedAnnounce(s, start);
    assert ShiftS(s, start) == 1;
    KeyedStep(s, start);
    TotalStep(s, start, m);
    var key := KeyOf(s, start);
    assert s1.torrents[h].id == s.torrents[h].id && s1.users[q] == s.users[q] && KeyOf(s1, stop) == key;
    assert key in s1.torrents[h].seeders && key !in Edited(s1, stop).seeders;
    AppliedAnnounce(s1, stop);
    assert ShiftS(s1, stop) == -1;
    TotalStep(s1, stop, m);
    var e := Apply(s1, stop);
    assert e.users[p].seeding == 1 && Total(e.torrents, m) == 0 && Wrap32(0) == 0;
  }

  /** A torrent under the empty hash, whether it was there or not. */
  lemma WithTorrent(s: Tracker, add: Action)
    requires Fresh(s) && add == AddTorrent("", 1, Normal)
    ensures Fresh(Apply(s, add)) && "" in Apply(s, add).torrents && Apply(s, add).users == s.users
  {
  }

  /** A second account with the same user ID takes the peer of the first out: the first counter stays up and
      its own wraps below zero. */
  lemma SharedIDBreaks(s: Tracker, p: Passkey, q: Passkey) returns (acts: seq<Action>)
    requires Fresh(s) && p in s.users && q in s.users && p != q && s.users[p].id == s.users[q].id
    ensures Plain(acts) && !OwnExact(Run(s, acts), p)
    ensures q in Run(s, acts).users && Run(s, acts).users[q].seeding == 0xFFFF_FFFF
  {
    var add := AddTorrent("", 1, Normal);
    var start := Announcing("", p, Report(seq(20, _ => 65), 0, 0, 0, 0, Started, true), true);
    var stop := Announcing("", q, start.r.(event := Stopped), true);
    acts := [add, start, stop];
    assert Plain(acts);
    WithTorrent(s, add);
    hide *;
    StartAndStop(Apply(s, add), "", p, q, start, stop);
    RunThree(s, add, start, stop);
  }

  lemma RunThree(s: Tracker, a: Action, b: Action, c: Action)
    ensures Run(s, [a, b, c]) == Apply(Apply(Apply(s, a), b), c)
  {
    hide Apply;
    assert [a, b, c][..2] == [a, b] && [a, b][..1] == [a] && [a][..0] == [];
    assert Run(s, [a]) == Apply(s, a);
  }

  /** Over every run of announces and additions from empty swarms, an account's own counters are the entries
      carrying its user ID, if and only if no other account has that user ID. */
  lemma OwnCountersExactIff(s: Tracker, p: Passkey)
    requires Fresh(s) && p in s.users
    ensures (forall acts :: Plain(acts) ==> OwnExact(Run(s, acts), p)) <==> Alone(s.users, p)
  {
    hide Fresh, OwnExact, Run, Plain;
    if Alone(s.users, p) {
      forall acts | Plain(acts) ensures OwnExact(Run(s, acts), p) {
        SoleAccountExact(s, acts, p);
      }
    } else {
      var q :| q in s.users && q != p && s.users[q].id == s.users[p].id;
      var acts := SharedIDBreaks(s, p, q);
    }
  }
}
