/** The C++ original: announce, torrent deletion, the reaper and the database reload all keep the
    global peer counters, and they interleave. */
module CppTracker {
  import opened MapSums
  import opened Options
  import opened PeerKeys
  import opened Announce

  datatype CPeer = CPeer(lastAnnounced: int)
  type CList = map<Key, CPeer>
  datatype CTorrent = CTorrent(id: Word32, completed: Word32, seeders: CList, leechers: CList)
  type Torrents = map<InfoHash, CTorrent>

  /** `reapedSeeders` and `reapedLeechers` are the reaper's running tallies: peers it has erased
      but not yet subtracted from the counters. */
  datatype State = State(torrents: Torrents, seeders: Word32, leechers: Word32,
                         reapedSeeders: nat, reapedLeechers: nat)

  /** A row of the torrents table. */
  datatype Row = Row(hash: InfoHash, id: Word32, snatched: Word32)

  function ListOf(t: CTorrent, side: Side): CList {
    if side == Seeds then t.seeders else t.leechers
  }

  function Sizes(ts: Torrents, side: Side): map<InfoHash, int> {
    map h | h in ts :: |ListOf(ts[h], side)|
  }

  ghost function Total(ts: Torrents, side: Side): int {
    Sum(Sizes(ts, side))
  }

  // ----- Specification of one announce -----

  /** The original clamps negative byte counts to zero. */
  function Clamped(r: Report): Report {
    r.(left := Max(0, r.left), uploaded := Max(0, r.uploaded),
       downloaded := Max(0, r.downloaded), corrupt := Max(0, r.corrupt))
  }

  function Has(list: CList, key: Key): int {
    if key in list then 1 else 0
  }

  predicate CSnatches(t: CTorrent, key: Key, r: Report) {
    Finishes(r) && (key in t.leechers || key !in t.seeders)
  }

  function Stays(list: CList, key: Key, p: CPeer, r: Report): CList {
    if r.event == Stopped then list - {key} else list[key := p]
  }

  /** `insert` on a C++ map keeps an entry that is already there. */
  function Inserted(list: CList, key: Key, p: CPeer): CList {
    if key in list then list else list[key := p]
  }

  function CAnnounced(t: CTorrent, key: Key, r: Report, now: int): CTorrent {
    var p := CPeer(now);
    CTorrent(
      t.id,
      if CSnatches(t, key, r) then Moved(t.completed, 1) else t.completed,
      if r.left > 0 then t.seeders
      else if Finishes(r) && key in t.leechers then Inserted(t.seeders, key, p)
      else Stays(t.seeders, key, p, r),
      if r.left > 0 then Stays(t.leechers, key, p, r)
      else if Finishes(r) || key !in t.seeders then t.leechers - {key}
      else t.leechers)
  }

  // ----- Steps and their interleavings -----

  datatype Step =
    | Announced(hash: InfoHash, user: Word32, r: Report, now: int, listed: bool)
    | Added(hash: InfoHash, id: Word32)
    | Deleted(hash: InfoHash)
    | Reaped(hash: InfoHash, key: Key, side: Side)
    | ReapEnded
    | Reloaded(rows: seq<Row>)

  function Admits(r: Report, listed: bool): bool {
    r.compact && |r.peerID| == 20 && listed
  }

  function WithoutPeer(t: CTorrent, key: Key, side: Side): CTorrent {
    if side == Seeds then t.(seeders := t.seeders - {key}) else t.(leechers := t.leechers - {key})
  }

  function KnownHashes(rows: seq<Row>): set<InfoHash> {
    if rows == [] then {}
    else KnownHashes(rows[..|rows| - 1]) + ({rows[|rows| - 1].hash} - {""})
  }

  /** Rows of unknown torrents are added, one at a time. */
  function WithRows(ts: Torrents, rows: seq<Row>): Torrents {
    if rows == [] then ts
    else
      var ts', row := WithRows(ts, rows[..|rows| - 1]), rows[|rows| - 1];
      if row.hash == "" || row.hash in ts' then ts'
      else ts'[row.hash := CTorrent(row.id, row.snatched, map[], map[])]
  }

  function Vanished(ts: Torrents, rows: seq<Row>): set<InfoHash> {
    ts.Keys - KnownHashes(rows)
  }

  function Restrict(ts: Torrents, hashes: set<InfoHash>): Torrents {
    map h | h in ts && h in hashes :: ts[h]
  }

  ghost function Apply(s: State, step: Step): State {
    match step
    case Announced(hash, user, r, now, listed) =>
      if hash !in s.torrents || !Admits(r, listed) then s
      else
        var t := s.torrents[hash];
        var key := CppKey(r.peerID, user, t.id);
        var t' := CAnnounced(t, key, Clamped(r), now);
        s.(torrents := s.torrents[hash := t'],
           seeders := Moved(s.seeders, Has(t'.seeders, key) - Has(t.seeders, key)),
           leechers := Moved(s.leechers, Has(t'.leechers, key) - Has(t.leechers, key)))
    case Added(hash, id) =>
      if hash in s.torrents then s else s.(torrents := s.torrents[hash := CTorrent(id, 0, map[], map[])])
    case Deleted(hash) =>
      if hash !in s.torrents then s
      else s.(torrents := s.torrents - {hash},
              seeders := Wrap32(s.seeders - |s.torrents[hash].seeders|),
              leechers := Wrap32(s.leechers - |s.torrents[hash].leechers|))
    case Reaped(hash, key, side) =>
      if hash !in s.torrents || key !in ListOf(s.torrents[hash], side) then s
      else
        var s' := s.(torrents := s.torrents[hash := WithoutPeer(s.torrents[hash], key, side)]);
        if side == Seeds then s'.(reapedSeeders := s.reapedSeeders + 1)
        else s'.(reapedLeechers := s.reapedLeechers + 1)
    case ReapEnded =>
      s.(seeders := Wrap32(s.seeders - s.reapedSeeders), leechers := Wrap32(s.leechers - s.reapedLeechers),
         reapedSeeders := 0, reapedLeechers := 0)
    case Reloaded(rows) =>
      var gone := Restrict(s.torrents, Vanished(s.torrents, rows));
      s.(torrents := WithRows(s.torrents, rows) - Vanished(s.torrents, rows),
         seeders := Wrap32(s.seeders - Total(gone, Seeds)),
         leechers := Wrap32(s.leechers - Total(gone, Leeches)))
  }

  ghost function Run(s: State, steps: seq<Step>): State {
    if steps == [] then s else Apply(Run(s, steps[..|steps| - 1]), steps[|steps| - 1])
  }

  function Counter(s: State, side: Side): Word32 {
    if side == Seeds then s.seeders else s.leechers
  }

  function Pending(s: State, side: Side): nat {
    if side == Seeds then s.reapedSeeders else s.reapedLeechers
  }

  /** The counter is the number of listed peers plus those reaped but not yet subtracted. */
  ghost predicate Counts(s: State, side: Side) {
    Counter(s, side) == Wrap32(Total(s.torrents, side) + Pending(s, side))
  }

  // ----- Totals -----

  lemma TotalUpdate(ts: Torrents, h: InfoHash, t: CTorrent, side: Side)
    ensures Total(ts[h := t], side)
         == Total(ts, side) + |ListOf(t, side)| - (if h in ts then |ListOf(ts[h], side)| else 0)
  {
    SumUpdate(Sizes(ts, side), h, |ListOf(t, side)|);
    assert Sizes(ts, side)[h := |ListOf(t, side)|] == Sizes(ts[h := t], side);
  }

  lemma TotalRemove(ts: Torrents, h: InfoHash, side: Side)
    requires h in ts
    ensures Total(ts - {h}, side) == Total(ts, side) - |ListOf(ts[h], side)|
  {
    SumRemove(Sizes(ts, side), h);
    assert Sizes(ts, side) - {h} == Sizes(ts - {h}, side);
  }

  lemma {:induction false} TotalNonNegative(ts: Torrents, side: Side)
    ensures Total(ts, side) >= 0
    decreases |ts|
  {
    if ts != map[] {
      var h :| h in ts;
      TotalNonNegative(ts - {h}, side);
      TotalRemove(ts, h, side);
    } else {
      assert Sizes(ts, side) == map[];
    }
  }

  lemma {:induction false} RowsOnlyAdd(ts: Torrents, rows: seq<Row>)
    ensures WithRows(ts, rows).Keys == ts.Keys + KnownHashes(rows)
    ensures forall h :: h in ts ==> WithRows(ts, rows)[h] == ts[h]
  {
    if rows != [] {
      RowsOnlyAdd(ts, rows[..|rows| - 1]);
    }
  }

  lemma {:induction false} RowsAddNoPeers(ts: Torrents, rows: seq<Row>, side: Side)
    ensures Total(WithRows(ts, rows), side) == Total(ts, side)
  {
    hide Total;
    if rows != [] {
      var front, row := rows[..|rows| - 1], rows[|rows| - 1];
      RowsAddNoPeers(ts, front, side);
      TotalUpdate(WithRows(ts, front), row.hash, CTorrent(row.id, row.snatched, map[], map[]), side);
    }
  }

  /** What a reload removes is what it subtracts. */
  lemma ReloadTotals(ts: Torrents, rows: seq<Row>, side: Side)
    ensures var gone := Vanished(ts, rows);
      Total(WithRows(ts, rows) - gone, side) == Total(ts, side) - Total(Restrict(ts, gone), side)
  {
    hide Total;
    var gone := Vanished(ts, rows);
    RowsOnlyAdd(ts, rows);
    RowsAddNoPeers(ts, rows, side);
    TotalMinus(WithRows(ts, rows), gone, side);
    assert Restrict(WithRows(ts, rows), gone) == Restrict(ts, gone);
  }

  lemma TotalNone(ts: Torrents, side: Side)
    ensures Total(Restrict(ts, {}), side) == 0
  {
    assert Sizes(Restrict(ts, {}), side) == map[];
  }

  lemma RestrictMore(ts: Torrents, hashes: set<InfoHash>, h: InfoHash, side: Side)
    requires h in ts && h !in hashes
    ensures Total(Restrict(ts, hashes + {h}), side) == Total(Restrict(ts, hashes), side) + |ListOf(ts[h], side)|
  {
    TotalUpdate(Restrict(ts, hashes), h, ts[h], side);
    assert Restrict(ts, hashes)[h := ts[h]] == Restrict(ts, hashes + {h});
  }

  /** Taking out a set of torrents takes out their total. */
  lemma {:induction false} TotalMinus(ts: Torrents, gone: set<InfoHash>, side: Side)
    requires gone <= ts.Keys
    ensures Total(ts - gone, side) + Total(Restrict(ts, gone), side) == Total(ts, side)
    decreases |gone|
  {
    if gone == {} {
      assert ts - gone == ts;
      TotalNone(ts, side);
    } else {
      var h :| h in gone;
      var rest := gone - {h};
      TotalMinus(ts, rest, side);
      TotalRemove(ts - rest, h, side);
      assert ts - rest - {h} == ts - gone;
      TotalRemove(Restrict(ts, gone), h, side);
      assert Restrict(ts, gone) - {h} == Restrict(ts, rest);
    }
  }

  // ----- Every step keeps the counters -----

  lemma SizeRemoved(list: CList, key: Key)
    ensures |list - {key}| == |list| - Has(list, key)
  {
    assert (list - {key}).Keys == list.Keys - {key};
  }

  lemma AnnouncedSizes(t: CTorrent, key: Key, r: Report, now: int, side: Side)
    ensures var t' := CAnnounced(t, key, r, now);
      |ListOf(t', side)| == |ListOf(t, side)| + Has(ListOf(t', side), key) - Has(ListOf(t, side), key)
  {
    SizeRemoved(ListOf(t, side), key);
  }

  lemma CountsShift(x: int, c: int, d: int)
    requires c == Wrap32(x)
    ensures Wrap32(c + d) == Wrap32(x + d)
  {
  }

  lemma AnnounceCounts(s: State, step: Step, side: Side)
    requires Counts(s, side) && step.Announced?
    ensures Counts(Apply(s, step), side)
  {
    hide Total, Wrap32, CAnnounced;
    if step.hash in s.torrents && Admits(step.r, step.listed) {
      var t := s.torrents[step.hash];
      var key := CppKey(step.r.peerID, step.user, t.id);
      var t' := CAnnounced(t, key, Clamped(step.r), step.now);
      AnnouncedSizes(t, key, Clamped(step.r), step.now, side);
      TotalUpdate(s.torrents, step.hash, t', side);
      MovedWraps(Total(s.torrents, side) + Pending(s, side), Has(ListOf(t', side), key) - Has(ListOf(t, side), key));
    }
  }

  lemma ReapCounts(s: State, step: Step, side: Side)
    requires Counts(s, side) && step.Reaped?
    ensures Counts(Apply(s, step), side)
  {
    hide Total, Wrap32;
    if step.hash in s.torrents && step.key in ListOf(s.torrents[step.hash], step.side) {
      SizeRemoved(ListOf(s.torrents[step.hash], step.side), step.key);
      TotalUpdate(s.torrents, step.hash, WithoutPeer(s.torrents[step.hash], step.key, step.side), side);
    }
  }

  lemma AddCounts(s: State, hash: InfoHash, id: Word32, side: Side)
    requires Counts(s, side)
    ensures Counts(Apply(s, Added(hash, id)), side)
  {
    hide Total, Wrap32;
    if hash !in s.torrents {
      TotalUpdate(s.torrents, hash, CTorrent(id, 0, map[], map[]), side);
    }
  }

  lemma DeleteCounts(s: State, hash: InfoHash, side: Side)
    requires Counts(s, side)
    ensures Counts(Apply(s, Deleted(hash)), side)
  {
    hide Total, Wrap32;
    if hash in s.torrents {
      TotalRemove(s.torrents, hash, side);
      CountsShift(Total(s.torrents, side) + Pending(s, side), Counter(s, side), -|ListOf(s.torrents[hash], side)|);
    }
  }

  lemma ReapEndCounts(s: State, side: Side)
    requires Counts(s, side)
    ensures Counts(Apply(s, ReapEnded), side)
  {
    hide Total, Wrap32;
    CountsShift(Total(s.torrents, side) + Pending(s, side), Counter(s, side), 0 - Pending(s, side) as int);
  }

  lemma ReloadCounts(s: State, rows: seq<Row>, side: Side)
    requires Counts(s, side)
    ensures Counts(Apply(s, Reloaded(rows)), side)
  {
    hide Total, Wrap32, WithRows, Restrict, Vanished;
    ReloadTotals(s.torrents, rows, side);
    CountsShift(Total(s.torrents, side) + Pending(s, side), Counter(s, side),
                -Total(Restrict(s.torrents, Vanished(s.torrents, rows)), side));
  }

  lemma StepCounts(s: State, step: Step, side: Side)
    requires Counts(s, side)
    ensures Counts(Apply(s, step), side)
  {
    hide Counts, Apply;
    match step
    case Announced(_, _, _, _, _) => AnnounceCounts(s, step, side);
    case Added(hash, id) => AddCounts(s, hash, id, side);
    case Deleted(hash) => DeleteCounts(s, hash, side);
    case Reaped(_, _, _) => ReapCounts(s, step, side);
    case ReapEnded => ReapEndCounts(s, side);
    case Reloaded(rows) => ReloadCounts(s, rows, side);
  }

  /** Over every interleaving of announces, deletions, reaper steps and reloads, each counter is
      the number of listed peers plus the reaper's pending tally. */
  lemma {:induction false} CountersOverRuns(s: State, steps: seq<Step>, side: Side)
    requires Counts(s, side)
    ensures Counts(Run(s, steps), side)
  {
    if steps != [] {
      CountersOverRuns(s, steps[..|steps| - 1], side);
      StepCounts(Run(s, steps[..|steps| - 1]), steps[|steps| - 1], side);
    }
  }

  lemma {:induction false} TotalAtLeast(ts: Torrents, h: InfoHash, side: Side)
    requires h in ts
    ensures Total(ts, side) >= |ListOf(ts[h], side)|
  {
    TotalRemove(ts, h, side);
    TotalNonNegative(ts - {h}, side);
  }

  /** The amount a step takes off a counter. */
  ghost function Subtracted(s: State, step: Step, side: Side): int {
    match step
    case Announced(hash, user, r, now, listed) =>
      if hash !in s.torrents || !Admits(r, listed) then 0
      else
        var t := s.torrents[hash];
        var key := CppKey(r.peerID, user, t.id);
        Max(0, Has(ListOf(t, side), key) - Has(ListOf(CAnnounced(t, key, Clamped(r), now), side), key))
    case Deleted(hash) => if hash in s.torrents then |ListOf(s.torrents[hash], side)| else 0
    case ReapEnded => Pending(s, side)
    case Reloaded(rows) => Total(Restrict(s.torrents, Vanished(s.torrents, rows)), side)
    case _ => 0
  }

  /** No step ever takes more off a counter than is there, so the unsigned counters never wrap
      below zero while fewer than 2^32 peers are tracked. */
  lemma NeverBelowZero(s: State, step: Step, side: Side)
    requires Counts(s, side) && Total(s.torrents, side) + Pending(s, side) < 0x1_0000_0000
    ensures Counter(s, side) == Total(s.torrents, side) + Pending(s, side)
    ensures 0 <= Subtracted(s, step, side) <= Counter(s, side)
  {
    hide Total, CAnnounced;
    TotalNonNegative(s.torrents, side);
    match step
    case Announced(hash, _, _, _, _) =>
      if hash in s.torrents {
        TotalAtLeast(s.torrents, hash, side);
      }
    case Deleted(hash) =>
      if hash in s.torrents {
        TotalAtLeast(s.torrents, hash, side);
      }
    case Reloaded(rows) =>
      var gone := Vanished(s.torrents, rows);
      TotalMinus(s.torrents, gone, side);
      TotalNonNegative(s.torrents - gone, side);
      TotalNonNegative(Restrict(s.torrents, gone), side);
    case _ =>
  }

  /** Over every interleaving: while fewer than 2^32 peers are listed or pending, a counter is exactly their number,
      and no next step takes off more than that. */
  lemma NeverBelowZeroOverRuns(s: State, steps: seq<Step>, next: Step, side: Side)
    requires Counts(s, side)
    requires
      var e := Run(s, steps);
      Total(e.torrents, side) + Pending(e, side) < 0x1_0000_0000
    ensures
      var e := Run(s, steps);
      && Counter(e, side) == Total(e.torrents, side) + Pending(e, side)
      && 0 <= Subtracted(e, next, side) <= Counter(e, side)
  {
    hide Run, Total, Subtracted, Counts;
    CountersOverRuns(s, steps, side);
    NeverBelowZero(Run(s, steps), next, side);
  }

  // ----- When a peer was last heard of -----

  /** The step is an admitted announce of the peer stored under `key` in torrent `h`. */
  predicate Announces(s: State, step: Step, h: InfoHash, key: Key) {
    && step.Announced? && step.hash == h && h in s.torrents && Admits(step.r, step.listed)
    && CppKey(step.r.peerID, step.user, s.torrents[h].id) == key
  }

  /** A finish that finds the key in both lists: `insert` keeps the seeder's record as it was. */
  predicate KeepsOld(s: State, step: Step, h: InfoHash, key: Key)
    requires Announces(s, step, h, key)
  {
    Finishes(Clamped(step.r)) && key in s.torrents[h].leechers && key in s.torrents[h].seeders
  }

  /** The announce writes the record of `key` in this list. */
  predicate Stamps(s: State, step: Step, h: InfoHash, key: Key, side: Side) {
    && Announces(s, step, h, key) && step.r.event != Stopped
    && (side == Leeches <==> step.r.left > 0)
    && !KeepsOld(s, step, h, key)
  }

  ghost function LastStamp(s: State, steps: seq<Step>, h: InfoHash, key: Key, side: Side): Option<int> {
    if steps == [] then None
    else
      var front, step := steps[..|steps| - 1], steps[|steps| - 1];
      if Stamps(Run(s, front), step, h, key, side) then Some(step.now) else LastStamp(s, front, h, key, side)
  }

  /** The record of `key`, if it is listed, carries this time. */
  ghost predicate Stamped(s: State, h: InfoHash, key: Key, side: Side, last: Option<int>) {
    h in s.torrents && key in ListOf(s.torrents[h], side) ==>
      last == Some(ListOf(s.torrents[h], side)[key].lastAnnounced)
  }

  predicate WritesRecord(t: CTorrent, key: Key, r: Report, j: Key, side: Side) {
    && j == key && r.event != Stopped && (side == Leeches <==> r.left > 0)
    && !(Finishes(r) && key in t.leechers && key in t.seeders)
  }

  lemma TorrentStamps(t: CTorrent, key: Key, r: Report, now: int, j: Key, side: Side)
    ensures
      var list, list' := ListOf(t, side), ListOf(CAnnounced(t, key, r, now), side);
      j in list' ==>
        if WritesRecord(t, key, r, j, side) then list'[j].lastAnnounced == now
        else j in list && list'[j] == list[j]
  {
  }

  lemma AnnounceStamps(s: State, step: Step, h: InfoHash, key: Key, side: Side, last: Option<int>)
    requires step.Announced? && Stamped(s, h, key, side, last)
    ensures Stamped(Apply(s, step), h, key, side, if Stamps(s, step, h, key, side) then Some(step.now) else last)
  {
    if step.hash == h && h in s.torrents && Admits(step.r, step.listed) {
      var t := s.torrents[h];
      var mine := CppKey(step.r.peerID, step.user, t.id);
      TorrentStamps(t, mine, Clamped(step.r), step.now, key, side);
      assert WritesRecord(t, mine, Clamped(step.r), key, side) <==> Stamps(s, step, h, key, side);
      hide CAnnounced, CppKey, WritesRecord, Stamps;
    } else {
      hide CAnnounced, CppKey;
    }
  }

  lemma {:induction false} RowsKeepLists(ts: Torrents, rows: seq<Row>, h: InfoHash)
    ensures h in ts ==> h in WithRows(ts, rows) && WithRows(ts, rows)[h] == ts[h]
    ensures h !in ts && h in WithRows(ts, rows) ==>
      WithRows(ts, rows)[h].seeders == map[] && WithRows(ts, rows)[h].leechers == map[]
  {
    if rows != [] {
      RowsKeepLists(ts, rows[..|rows| - 1], h);
    }
  }

  lemma {:induction false} ListedRows(rows: seq<Row>, h: InfoHash)
    ensures h in KnownHashes(rows) <==> h != "" && exists i :: 0 <= i < |rows| && rows[i].hash == h
  {
    if rows != [] {
      var front := rows[..|rows| - 1];
      ListedRows(front, h);
      assert forall i :: 0 <= i < |front| ==> front[i] == rows[i];
      if h in KnownHashes(rows) && rows[|rows| - 1].hash == h {
        assert rows[|rows| - 1].hash == h;
      }
    }
  }

  lemma {:induction false} RowsListed(ts: Torrents, rows: seq<Row>, h: InfoHash)
    ensures h in WithRows(ts, rows) <==> h in ts || h in KnownHashes(rows)
  {
    if rows != [] {
      RowsListed(ts, rows[..|rows| - 1], h);
    }
  }

  /** A reload leaves exactly the torrents the table lists under a hash, known ones with their peers as they were. */
  lemma ReloadedIff(s: State, rows: seq<Row>, h: InfoHash)
    ensures
      var e := Apply(s, Reloaded(rows));
      && (h in e.torrents <==> h != "" && exists i :: 0 <= i < |rows| && rows[i].hash == h)
      && (h in e.torrents && h in s.torrents ==> e.torrents[h] == s.torrents[h])
  {
    ListedRows(rows, h);
    RowsListed(s.torrents, rows, h);
    RowsKeepLists(s.torrents, rows, h);
    hide WithRows, KnownHashes, Total, Restrict;
  }

  lemma StepStamps(s: State, step: Step, h: InfoHash, key: Key, side: Side, last: Option<int>)
    requires Stamped(s, h, key, side, last)
    ensures Stamped(Apply(s, step), h, key, side, if Stamps(s, step, h, key, side) then Some(step.now) else last)
  {
    hide Total;
    match step
    case Announced(_, _, _, _, _) => AnnounceStamps(s, step, h, key, side, last);
    case Reloaded(rows) =>
      RowsKeepLists(s.torrents, rows, h);
      hide WithRows;
    case _ =>
  }

  ghost predicate NobodyListed(s: State) {
    forall h :: h in s.torrents ==> s.torrents[h].seeders == map[] && s.torrents[h].leechers == map[]
  }

  /** Over every interleaving, a listed peer carries the time of the last announce that wrote its record, which is
      every announce into that list but a finish that finds the key in both. */
  lemma {:induction false} StampIsLastAnnounce(s: State, steps: seq<Step>, h: InfoHash, key: Key, side: Side)
    requires NobodyListed(s)
    ensures Stamped(Run(s, steps), h, key, side, LastStamp(s, steps, h, key, side))
  {
    if steps != [] {
      hide Stamped, Stamps, Apply;
      StampIsLastAnnounce(s, steps[..|steps| - 1], h, key, side);
      StepStamps(Run(s, steps[..|steps| - 1]), steps[|steps| - 1], h, key, side,
                 LastStamp(s, steps[..|steps| - 1], h, key, side));
    }
  }

  /** So a sweep with this deadline removes exactly the listed peers whose record no announce has written since. */
  lemma SweptIff(s: State, steps: seq<Step>, h: InfoHash, key: Key, side: Side, deadline: int)
    requires NobodyListed(s) && h in Run(s, steps).torrents && key in ListOf(Run(s, steps).torrents[h], side)
    ensures
      var last := LastStamp(s, steps, h, key, side);
      && last.Some?
      && (key !in ListOf(Swept(Run(s, steps).torrents[h], deadline), side) <==> last.value < deadline)
  {
    StampIsLastAnnounce(s, steps, h, key, side);
    hide Run, LastStamp;
  }

  // ----- The code -----

  function Fresh(list: CList, deadline: int): CList {
    map k | k in list && list[k].lastAnnounced >= deadline :: list[k]
  }

  function Swept(t: CTorrent, deadline: int): CTorrent {
    t.(seeders := Fresh(t.seeders, deadline), leechers := Fresh(t.leechers, deadline))
  }

  /** The loop of the reaper over one peer list. */
  method ReapList(list: CList, deadline: int) returns (kept: CList, reaped: nat)
    ensures kept == Fresh(list, deadline)
    ensures |kept| + reaped == |list|
  {
    kept, reaped := list, 0;
    var todo := list.Keys;
    while todo != {}
      invariant todo <= kept.Keys <= list.Keys
      invariant forall k :: k in kept ==> kept[k] == list[k]
      invariant forall k :: k in list && k !in todo ==> (k in kept <==> list[k].lastAnnounced >= deadline)
      invariant |kept| + reaped == |list|
      decreases todo
    {
      var k :| k in todo;
      todo := todo - {k};
      if kept[k].lastAnnounced < deadline {
        SizeRemoved(kept, k);
        kept := kept - {k};
        reaped := reaped + 1;
      }
    }
  }

  method CLocate(before: CTorrent, key: Key, r: Report)
    returns (t: CTorrent, p: CPeer, inserted: bool, inLeechers: bool, completed: bool, flags: Flags)
    ensures inserted <==> key !in before.leechers && (r.left > 0 || key !in before.seeders)
    ensures inLeechers <==> r.left > 0 || (Finishes(r) && key in before.leechers)
    ensures completed <==> CSnatches(before, key, r)
    ensures t == before.(
      seeders := if inLeechers then before.seeders else before.seeders[key := p],
      leechers :=
        if r.left > 0 then before.leechers[key := p]
        else if !Finishes(r) && key !in before.seeders then before.leechers - {key}
        else before.leechers)
    ensures flags == Flags(
      r.left > 0 && key !in before.leechers,
      !inLeechers && key !in before.seeders,
      r.left <= 0 && !Finishes(r) && key in before.leechers && key !in before.seeders,
      Finishes(r) && key in before.leechers && key in before.seeders)
  {
    p := CPeer(0);
    t, inserted, inLeechers, completed := before, false, false, Finishes(r);
    flags := Flags(false, false, false, false);
    if r.left > 0 {
      inLeechers := true;
      if key in t.leechers {
        p := t.leechers[key];
      } else {
        t := t.(leechers := t.leechers[key := p]);
        inserted := true;
        flags := flags.(incLeechers := true);
      }
    } else if completed {
      if key !in t.leechers {
        if key !in t.seeders {
          t := t.(seeders := t.seeders[key := p]);
          inserted := true;
          flags := flags.(incSeeders := true);
        } else {
          p := t.seeders[key];
          completed := false;
        }
      } else {
        p := t.leechers[key];
        inLeechers := true;
        if key in t.seeders {
          flags := flags.(decSeeders := true);
        }
      }
    } else if key in t.seeders {
      p := t.seeders[key];
    } else {
      if key in t.leechers {
        p := t.leechers[key];
        t := t.(seeders := t.seeders[key := p], leechers := t.leechers - {key});
        flags := flags.(decLeechers := true);
      } else {
        t := t.(seeders := t.seeders[key := p]);
        inserted := true;
      }
      flags := flags.(incSeeders := true);
    }
  }

  /** The map edits of the original announce, down to the final erase. */
  method CEdit(before: CTorrent, key: Key, r: Report, now: int) returns (t: CTorrent, flags: Flags)
    ensures t == CAnnounced(before, key, r, now)
    ensures Announce.Step(flags.incSeeders, flags.decSeeders) == Has(t.seeders, key) - Has(before.seeders, key)
    ensures Announce.Step(flags.incLeechers, flags.decLeechers) == Has(t.leechers, key) - Has(before.leechers, key)
  {
    var inserted, inLeechers, completed;
    var p;
    t, p, inserted, inLeechers, completed, flags := CLocate(before, key, r);
    p := CPeer(now);
    if inLeechers {
      t := t.(leechers := t.leechers[key := p]);
      assert t.leechers == before.leechers[key := p];
    } else {
      t := t.(seeders := t.seeders[key := p]);
      assert t.seeders == before.seeders[key := p];
    }
    if r.event == Stopped {
      if r.left > 0 {
        flags := flags.(decLeechers := true);
      } else {
        flags := flags.(decSeeders := true);
      }
    } else if completed {
      t := t.(completed := Moved(t.completed, 1));
      if !inserted {
        t := t.(seeders := Inserted(t.seeders, key, p), leechers := t.leechers - {key});
        flags := flags.(decLeechers := true, incSeeders := true);
      }
    }
    if r.event == Stopped {
      if r.left > 0 {
        t := t.(leechers := t.leechers - {key});
      } else {
        t := t.(seeders := t.seeders - {key});
      }
    }
    assert t.seeders == CAnnounced(before, key, r, now).seeders;
    assert t.leechers == CAnnounced(before, key, r, now).leechers;
  }

  class CppWorker {
    var torrents: Torrents
    var seeders: Word32
    var leechers: Word32

    ghost function View(): (s: State)
      reads this
    {
      State(torrents, seeders, leechers, 0, 0)
    }

    /** Both counters equal the number of listed peers. */
    ghost predicate Valid()
      reads this
    {
      Counts(View(), Seeds) && Counts(View(), Leeches)
    }

    constructor ()
      ensures Valid() && torrents == map[]
    {
      torrents, seeders, leechers := map[], 0, 0;
      new;
      assert Sizes(torrents, Seeds) == map[] && Sizes(torrents, Leeches) == map[];
    }

    method AnnouncePeer(hash: InfoHash, user: Word32, request: Report, now: int, listed: bool)
      requires Valid()
      modifies this
      ensures Valid()
      ensures View() == Apply(old(View()), Announced(hash, user, request, now, listed))
    {
      hide Total, Wrap32, CAnnounced;
      ghost var was := View();
      if hash in torrents && request.compact && |request.peerID| == 20 && listed {
        var r := Clamped(request);
        var key := CppKey(r.peerID, user, torrents[hash].id);
        var t, flags := CEdit(torrents[hash], key, r, now);
        if flags.incLeechers {
          leechers := Moved(leechers, 1);
        }
        if flags.incSeeders {
          seeders := Moved(seeders, 1);
        }
        if flags.decLeechers {
          leechers := Moved(leechers, -1);
        }
        if flags.decSeeders {
          seeders := Moved(seeders, -1);
        }
        torrents := torrents[hash := t];
      }
      StepCounts(was, Announced(hash, user, request, now, listed), Seeds);
      StepCounts(was, Announced(hash, user, request, now, listed), Leeches);
    }

    method DeleteTorrent(hash: InfoHash)
      requires Valid()
      modifies this
      ensures Valid()
      ensures View() == Apply(old(View()), Deleted(hash))
    {
      hide Total, Wrap32;
      ghost var was := View();
      if hash in torrents {
        Erase(hash);
      }
      StepCounts(was, Deleted(hash), Seeds);
      StepCounts(was, Deleted(hash), Leeches);
    }

    method ReapTorrent(h: InfoHash, deadline: int) returns (reapedL: nat, reapedS: nat)
      requires h in torrents
      modifies this`torrents
      ensures torrents == old(torrents)[h := Swept(old(torrents)[h], deadline)]
      ensures Total(torrents, Seeds) + reapedS == Total(old(torrents), Seeds)
      ensures Total(torrents, Leeches) + reapedL == Total(old(torrents), Leeches)
    {
      hide Total;
      var t := torrents[h];
      var leechers', seeders';
      leechers', reapedL := ReapList(t.leechers, deadline);
      seeders', reapedS := ReapList(t.seeders, deadline);
      t := t.(leechers := leechers', seeders := seeders');
      TotalUpdate(torrents, h, t, Seeds);
      TotalUpdate(torrents, h, t, Leeches);
      torrents := torrents[h := t];
    }

    /** Erase every peer that has been silent for longer than `timeout`, torrent by torrent, and
        take the tallies off the counters at the end. */
    method ReapPeers(now: int, timeout: int)
      requires Valid()
      modifies this
      ensures Valid()
      ensures torrents == map h | h in old(torrents) :: Swept(old(torrents)[h], now - timeout)
    {
      hide Total, Wrap32;
      ghost var was := torrents;
      var reapedL: int, reapedS: int := 0, 0;
      var todo := torrents.Keys;
      while todo != {}
        invariant todo <= torrents.Keys == was.Keys
        invariant forall h :: h in was ==> torrents[h] == if h in todo then was[h] else Swept(was[h], now - timeout)
        invariant seeders == Wrap32(Total(torrents, Seeds) + reapedS)
        invariant leechers == Wrap32(Total(torrents, Leeches) + reapedL)
        decreases todo
      {
        var h :| h in todo;
        todo := todo - {h};
        var l, s := ReapTorrent(h, now - timeout);
        reapedL, reapedS := reapedL + l, reapedS + s;
      }
      CountsShift(Total(torrents, Seeds) + reapedS, seeders, -reapedS);
      CountsShift(Total(torrents, Leeches) + reapedL, leechers, -reapedL);
      leechers := Wrap32(leechers - reapedL);
      seeders := Wrap32(seeders - reapedS);
    }

    /** Reload the torrent table: keep known torrents, add new ones, drop the ones that vanished. */
    method LoadTorrents(rows: seq<Row>)
      requires Valid()
      modifies this
      ensures Valid()
      ensures View() == Apply(old(View()), Reloaded(rows))
    {
      hide Total, Wrap32;
      ghost var was := View();
      var curKeys := torrents.Keys;
      for i := 0 to |rows|
        invariant torrents == WithRows(was.torrents, rows[..i])
        invariant curKeys == was.torrents.Keys - KnownHashes(rows[..i])
        invariant seeders == was.seeders && leechers == was.leechers
      {
        assert rows[..i + 1][..i] == rows[..i];
        RowsOnlyAdd(was.torrents, rows[..i]);
        var row := rows[i];
        if row.hash != "" {
          if row.hash !in torrents {
            torrents := torrents[row.hash := CTorrent(row.id, row.snatched, map[], map[])];
          } else {
            curKeys := curKeys - {row.hash};
          }
        }
      }
      assert rows[..|rows|] == rows;
      RowsOnlyAdd(was.torrents, rows);
      RemoveAll(curKeys);
      assert torrents == WithRows(was.torrents, rows) - Vanished(was.torrents, rows);
      assert Restrict(WithRows(was.torrents, rows), curKeys) == Restrict(was.torrents, curKeys);
      StepCounts(was, Reloaded(rows), Seeds);
      StepCounts(was, Reloaded(rows), Leeches);
    }

    /** Drop one torrent and its peers from the counters. */
    method Erase(h: InfoHash)
      requires h in torrents
      modifies this
      ensures torrents == old(torrents) - {h}
      ensures seeders == Wrap32(old(seeders) - |old(torrents)[h].seeders|)
      ensures leechers == Wrap32(old(leechers) - |old(torrents)[h].leechers|)
    {
      leechers := Wrap32(leechers - |torrents[h].leechers|);
      seeders := Wrap32(seeders - |torrents[h].seeders|);
      torrents := torrents - {h};
    }

    method RemoveAll(gone: set<InfoHash>)
      requires gone <= torrents.Keys
      modifies this
      ensures torrents == old(torrents) - gone
      ensures seeders == Wrap32(old(seeders) - Total(Restrict(old(torrents), gone), Seeds))
      ensures leechers == Wrap32(old(leechers) - Total(Restrict(old(torrents), gone), Leeches))
    {
      ghost var was, done: set<InfoHash>, s, l := View(), {}, 0, 0;
      var todo := gone;
      TotalNone(torrents, Seeds);
      TotalNone(torrents, Leeches);
      hide Total;
      while todo != {}
        invariant todo !! done && todo + done == gone
        invariant torrents == was.torrents - done
        invariant s == Total(Restrict(was.torrents, done), Seeds)
        invariant l == Total(Restrict(was.torrents, done), Leeches)
        invariant seeders == Wrap32(was.seeders - s) && leechers == Wrap32(was.leechers - l)
        decreases todo
      {
        hide Wrap32;
        var h :| h in todo;
        RestrictMore(was.torrents, done, h, Seeds);
        RestrictMore(was.torrents, done, h, Leeches);
        CountsShift(was.seeders - s, seeders, -|torrents[h].seeders|);
        CountsShift(was.leechers - l, leechers, -|torrents[h].leechers|);
        s, l := s + |torrents[h].seeders|, l + |torrents[h].leechers|;
        Erase(h);
        todo, done := todo - {h}, done + {h};
      }
      assert done == gone;
    }
  }
}
