/** Bytes over runs of the Go tracker: the torrent balance, the telescoping of a peer's
    reports, and where every downloaded byte is booked. */
module Accounting {
  import opened Options
  import opened PeerKeys
  import opened Announce
  import opened AnnounceRuns

  function DeltaAt(s: Tracker, a: Action): Delta {
    if Effective(s, a) then DeltaOf(Found(s.torrents[a.hash], KeyOf(s, a), a.r), a.r) else Delta(0, 0, 0)
  }

  /** The action is an announce of the peer stored under `key` in torrent `h`. */
  predicate Mine(s: Tracker, a: Action, h: InfoHash, key: Key) {
    Effective(s, a) && a.hash == h && KeyOf(s, a) == key
  }

  // ----- Growth -----

  // A key may have a record in each list; every record has a session of its own.

  function ListOf(t: Torrent, side: Side): PeerList {
    match side case Seeds => t.seeders case Leeches => t.leechers
  }

  /** The list whose record an announce continues. */
  function UsedSide(t: Torrent, key: Key, r: Report): Side {
    if r.left > 0 then Leeches
    else if Finishes(r) then if key in t.leechers then Leeches else Seeds
    else if key in t.seeders then Seeds else Leeches
  }

  datatype Count = Up | Down | Corrupt

  /** What the report adds to the stored record it continues, read off the record itself: nothing without a record,
      at the start of a session, or when a counter went back. */
  function Grown(s: Tracker, a: Action, count: Count): int {
    if !Effective(s, a) then 0
    else
      var t, key, r := s.torrents[a.hash], KeyOf(s, a), a.r;
      var list := ListOf(t, UsedSide(t, key, r));
      if key !in list || r.event == Started || r.uploaded < list[key].uploaded || r.downloaded < list[key].downloaded
      then 0
      else match count
        case Up => r.uploaded - list[key].uploaded
        case Down => r.downloaded - list[key].downloaded
        case Corrupt => if r.corrupt > list[key].corrupt then r.corrupt - list[key].corrupt else 0
  }

  lemma GrownIsDelta(s: Tracker, a: Action)
    ensures DeltaAt(s, a) == Delta(Grown(s, a, Up), Grown(s, a, Down), Grown(s, a, Corrupt))
    ensures Grown(s, a, Up) >= 0 && Grown(s, a, Down) >= 0 && Grown(s, a, Corrupt) >= 0
  {
    hide KeyOf;
  }

  // ----- Torrent balance -----

  /** Uploads minus downloads minus corrupt bytes that the run reports on `h`. */
  function NetFlow(s: Tracker, acts: seq<Action>, h: InfoHash): int {
    if acts == [] then 0
    else
      var front, a := acts[..|acts| - 1], acts[|acts| - 1];
      var mid := Run(s, front);
      NetFlow(s, front, h)
      + if a.Announcing? && a.hash == h then Grown(mid, a, Up) - Grown(mid, a, Down) - Grown(mid, a, Corrupt) else 0
  }

  lemma BalanceStep(s: Tracker, a: Action, h: InfoHash)
    requires h in s.torrents && a != DeleteTorrent(h)
    ensures h in Apply(s, a).torrents
    ensures Apply(s, a).torrents[h].balance == s.torrents[h].balance
            + if a.Announcing? && a.hash == h then Grown(s, a, Up) - Grown(s, a, Down) - Grown(s, a, Corrupt) else 0
  {
    GrownIsDelta(s, a);
    assert !Effective(s, a) ==> Grown(s, a, Up) == Grown(s, a, Down) == Grown(s, a, Corrupt) == 0;
    hide Grown, KeyOf, Refreshed, SplitOf;
    if Effective(s, a) {
      AppliedAnnounce(s, a);
    }
  }

  lemma {:induction false} BalanceIsNetFlow(s: Tracker, acts: seq<Action>, h: InfoHash)
    requires h in s.torrents
    requires forall i :: 0 <= i < |acts| ==> acts[i] != DeleteTorrent(h)
    ensures h in Run(s, acts).torrents
    ensures Run(s, acts).torrents[h].balance == s.torrents[h].balance + NetFlow(s, acts, h)
  {
    if acts != [] {
      BalanceIsNetFlow(s, acts[..|acts| - 1], h);
      BalanceStep(Run(s, acts[..|acts| - 1]), acts[|acts| - 1], h);
      hide Apply, Grown;
    }
  }

  // ----- Telescoping -----

  function RecordOn(s: Tracker, h: InfoHash, key: Key, side: Side): Option<Peer> {
    if h in s.torrents then Lookup(ListOf(s.torrents[h], side), key) else None
  }

  /** The action is an announce that continues the record of `key` on `side`. */
  predicate Uses(s: Tracker, a: Action, h: InfoHash, key: Key, side: Side) {
    Mine(s, a, h, key) && UsedSide(s.torrents[h], key, a.r) == side
  }

  /** The record on `side` is not dropped, and its counters continue if it is used. A finish writes the
      leecher's record over the seeder's. */
  predicate KeepsRecord(s: Tracker, a: Action, h: InfoHash, key: Key, side: Side) {
    match a
    case Announcing(_, _, _, _) =>
      if Uses(s, a, h, key, side) then a.r.event != Stopped && Continues(RecordOn(s, h, key, side), a.r)
      else Mine(s, a, h, key) && Finishes(a.r) ==> side == Leeches
    case AddTorrent(_, _, _) => true
    case DeleteTorrent(hash) => hash != h
    case Expire(hash, seeders, leechers) => hash == h ==> key !in if side == Seeds then seeders else leechers
  }

  /** Where the record is afterwards. */
  function Moves(s: Tracker, a: Action, h: InfoHash, key: Key, side: Side): Side {
    if Uses(s, a, h, key, side) then if a.r.left > 0 then Leeches else Seeds else side
  }

  function SideAfter(s: Tracker, acts: seq<Action>, h: InfoHash, key: Key, side: Side): Side {
    if acts == [] then side
    else
      var front := acts[..|acts| - 1];
      Moves(Run(s, front), acts[|acts| - 1], h, key, SideAfter(s, front, h, key, side))
  }

  predicate KeepsThroughout(s: Tracker, acts: seq<Action>, h: InfoHash, key: Key, side: Side) {
    acts == [] ||
    (KeepsThroughout(s, acts[..|acts| - 1], h, key, side)
     && KeepsRecord(Run(s, acts[..|acts| - 1]), acts[|acts| - 1], h, key, SideAfter(s, acts[..|acts| - 1], h, key, side)))
  }

  /** What the run books on the record. */
  function Booked(s: Tracker, acts: seq<Action>, h: InfoHash, key: Key, side: Side): Delta {
    if acts == [] then Delta(0, 0, 0)
    else
      var front, a := acts[..|acts| - 1], acts[|acts| - 1];
      var b := Booked(s, front, h, key, side);
      if Uses(Run(s, front), a, h, key, SideAfter(s, front, h, key, side)) then
        var d := DeltaAt(Run(s, front), a);
        Delta(b.up + d.up, b.down + d.down, b.corrupt + d.corrupt)
      else b
  }

  lemma OthersLeaveRecord(s: Tracker, a: Action, h: InfoHash, key: Key, side: Side)
    requires RecordOn(s, h, key, side).Some? && !Uses(s, a, h, key, side) && KeepsRecord(s, a, h, key, side)
    ensures RecordOn(Apply(s, a), h, key, side) == RecordOn(s, h, key, side)
  {
    hide KeyOf;
    if Effective(s, a) && a.hash == h {
      AppliedAnnounce(s, a);
    }
  }

  /** The announce moves the record it uses by exactly the deltas it books. */
  lemma OwnAnnounceAdvances(s: Tracker, a: Action, h: InfoHash, key: Key, side: Side)
    requires RecordOn(s, h, key, side).Some? && Uses(s, a, h, key, side) && KeepsRecord(s, a, h, key, side)
    ensures RecordOn(Apply(s, a), h, key, Moves(s, a, h, key, side)).Some?
    ensures
      var p, q := RecordOn(s, h, key, side).value, RecordOn(Apply(s, a), h, key, Moves(s, a, h, key, side)).value;
      var d := DeltaAt(s, a);
      && q.uploaded == p.uploaded + d.up && q.uploaded == a.r.uploaded
      && q.downloaded == p.downloaded + d.down && q.downloaded == a.r.downloaded
      && q.corrupt == p.corrupt + d.corrupt
  {
    hide KeyOf;
    AppliedAnnounce(s, a);
  }

  ghost predicate Grows(p: Option<Peer>, q: Option<Peer>, b: Delta) {
    && p.Some? && q.Some?
    && b.up == q.value.uploaded - p.value.uploaded
    && b.down == q.value.downloaded - p.value.downloaded
    && b.corrupt == q.value.corrupt - p.value.corrupt
  }

  /** Between resets, the bytes booked on a record are its last report minus its first, wherever the record
      goes and whatever happens to another record under the same key. */
  lemma {:induction false} ReportsTelescope(s: Tracker, acts: seq<Action>, h: InfoHash, key: Key, side: Side)
    requires RecordOn(s, h, key, side).Some? && KeepsThroughout(s, acts, h, key, side)
    ensures Grows(RecordOn(s, h, key, side),
                  RecordOn(Run(s, acts), h, key, SideAfter(s, acts, h, key, side)),
                  Booked(s, acts, h, key, side))
  {
    if acts != [] {
      var front, a := acts[..|acts| - 1], acts[|acts| - 1];
      ReportsTelescope(s, front, h, key, side);
      var mid, at := Run(s, front), SideAfter(s, front, h, key, side);
      hide Apply, Uses, KeepsRecord, DeltaAt, RecordOn;
      if Uses(mid, a, h, key, at) {
        OwnAnnounceAdvances(mid, a, h, key, at);
      } else {
        OthersLeaveRecord(mid, a, h, key, at);
      }
    }
  }

  // ----- Growth over the later record -----

  function OtherSide(side: Side): Side {
    match side case Seeds => Leeches case Leeches => Seeds
  }

  /** Judged by its counters, `p` is the later of the two records, or the only one. */
  predicate Later(p: Peer, other: Option<Peer>) {
    other.Some? ==> other.value.uploaded <= p.uploaded && other.value.downloaded <= p.downloaded
  }

  /** The report adds nothing to the record. */
  predicate Repeats(p: Peer, r: Report) {
    r.uploaded == p.uploaded && r.downloaded == p.downloaded && r.corrupt <= p.corrupt
  }

  /** The report grows by the same over `p` as over the other record; without one nothing is booked. */
  predicate SameGrowth(p: Peer, other: Option<Peer>, r: Report) {
    if !Continues(Some(p), r) then other.None? || !Continues(other, r) || Repeats(other.value, r)
    else match other
      case None => Repeats(p, r)
      case Some(q) =>
        && q.uploaded == p.uploaded && q.downloaded == p.downloaded
        && (q.corrupt == p.corrupt || (r.corrupt <= p.corrupt && r.corrupt <= q.corrupt))
  }

  /** Whatever lists the peer is in, an announce books exactly the growth over its later record if and only if it
      looks in the list holding that record, or both records grow alike. A seeder that reports bytes left, and a
      leecher's record beside a newer seeder's, are the cases where it does not. */
  lemma BooksGrowthIff(s: Tracker, a: Action, side: Side)
    requires Effective(s, a)
    requires
      var key := KeyOf(s, a);
      RecordOn(s, a.hash, key, side).Some?
      && Later(RecordOn(s, a.hash, key, side).value, RecordOn(s, a.hash, key, OtherSide(side)))
    ensures
      var key := KeyOf(s, a);
      var p, other := RecordOn(s, a.hash, key, side), RecordOn(s, a.hash, key, OtherSide(side));
      DeltaAt(s, a) == DeltaOf(p, a.r) <==>
      UsedSide(s.torrents[a.hash], key, a.r) == side || SameGrowth(p.value, other, a.r)
  {
    hide KeyOf;
  }

  /** A seeder that re-checks and reports bytes left ends up in both lists; from then on the two
      records advance separately, and the `n` bytes it uploads meanwhile are booked twice. */
  lemma DoubleBooking(t: Torrent, key: Key, u: Word32, id: seq<Byte>, n: nat)
    requires key !in t.seeders && key !in t.leechers
    ensures var t1 := AnnouncedTorrent(t, key, u, Report(id, 0, 0, 0, 0, Regular, true));
      var t2 := AnnouncedTorrent(t1, key, u, Report(id, 0, 0, 5, 0, Regular, true));
      var t3 := AnnouncedTorrent(t2, key, u, Report(id, n, 0, 0, 0, Regular, true));
      var t4 := AnnouncedTorrent(t3, key, u, Report(id, n, 0, 5, 0, Regular, true));
      t4.balance == t.balance + 2 * n
  {
    var t1 := AnnouncedTorrent(t, key, u, Report(id, 0, 0, 0, 0, Regular, true));
    assert t1.seeders[key] == Peer(u, 0, 0, 0, 0) && key !in t1.leechers;
    var t2 := AnnouncedTorrent(t1, key, u, Report(id, 0, 0, 5, 0, Regular, true));
    assert t2.leechers[key] == Peer(u, 0, 0, 0, 5);
    var t3 := AnnouncedTorrent(t2, key, u, Report(id, n, 0, 0, 0, Regular, true));
    assert t3.leechers[key] == t2.leechers[key] && t3.balance == t.balance + n;
  }

  // ----- Where downloaded bytes go -----

  function Charged(stats: seq<StatsRecord>): int {
    if stats == [] then 0 else Charged(stats[..|stats| - 1]) + stats[|stats| - 1].downloaded
  }

  function Tokened(tokens: seq<TokenRecord>): int {
    if tokens == [] then 0 else Tokened(tokens[..|tokens| - 1]) + tokens[|tokens| - 1].bytes
  }

  /** All downloaded bytes the run reports, and the part reported on freeleech torrents. */
  function Downloaded(s: Tracker, acts: seq<Action>): int {
    if acts == [] then 0
    else Downloaded(s, acts[..|acts| - 1]) + Grown(Run(s, acts[..|acts| - 1]), acts[|acts| - 1], Down)
  }

  function Forgiven(s: Tracker, acts: seq<Action>): int {
    if acts == [] then 0
    else
      var mid, a := Run(s, acts[..|acts| - 1]), acts[|acts| - 1];
      Forgiven(s, acts[..|acts| - 1])
      + if Effective(mid, a) && mid.torrents[a.hash].free != Normal then Grown(mid, a, Down) else 0
  }

  lemma JournalSums(j: Journal, split: Split, user: Word32, torrent: Word32)
    requires split.chargedDown >= 0 && (!split.spendsToken ==> split.tokened == 0)
    ensures var j' := Recorded(j, split, user, torrent);
      && Charged(j'.stats) == Charged(j.stats) + split.chargedDown
      && Tokened(j'.tokens) == Tokened(j.tokens) + split.tokened
  {
    var j' := Recorded(j, split, user, torrent);
    if split.chargedUp > 0 || split.chargedDown > 0 {
      assert j'.stats[..|j'.stats| - 1] == j.stats;
    }
    if split.spendsToken {
      assert j'.tokens[..|j'.tokens| - 1] == j.tokens;
    }
  }

  lemma SplitStep(s: Tracker, a: Action)
    ensures var e := Apply(s, a);
      var forgiven := if Effective(s, a) && s.torrents[a.hash].free != Normal then Grown(s, a, Down) else 0;
      Grown(s, a, Down) ==
        (Charged(e.journal.stats) - Charged(s.journal.stats))
        + (Tokened(e.journal.tokens) - Tokened(s.journal.tokens)) + forgiven
  {
    JournalStep(s, a);
    GrownIsDelta(s, a);
    if Effective(s, a) {
      var user, t := s.users[a.passkey].id, s.torrents[a.hash];
      hide Recorded, DeltaAt, Grown, Apply, Effective, Charged, Tokened;
      JournalSums(s.journal, SplitOf(DeltaAt(s, a), t.free, user in t.tokened), user, t.id);
    }
  }

  /** Every downloaded byte of a run is charged to a user, recorded against a token, or
      forgiven by freeleech: never two of these, never none. */
  lemma {:induction false} DownloadsSplit(s: Tracker, acts: seq<Action>)
    ensures var j, j' := s.journal, Run(s, acts).journal;
      Downloaded(s, acts) ==
        (Charged(j'.stats) - Charged(j.stats)) + (Tokened(j'.tokens) - Tokened(j.tokens)) + Forgiven(s, acts)
  {
    if acts != [] {
      var front, a := acts[..|acts| - 1], acts[|acts| - 1];
      DownloadsSplit(s, front);
      SplitStep(Run(s, front), a);
      hide Apply, Grown, Charged, Tokened;
    }
  }

  // ----- Whose bytes, and where they are recorded -----

  function Owner(s: Tracker, a: Action): Word32
    requires Effective(s, a)
  {
    s.users[a.passkey].id
  }

  predicate HoldsToken(s: Tracker, a: Action)
    requires Effective(s, a)
  {
    Owner(s, a) in s.torrents[a.hash].tokened
  }

  /** The three books: uploads credited to a user, downloads charged to a user, downloads on a user's token. */
  datatype Book = Credits(user: Word32) | Charges(user: Word32) | Tokens(user: Word32, torrent: Word32)

  function StatsFor(stats: seq<StatsRecord>, user: Word32, up: bool): int {
    if stats == [] then 0
    else
      var e := stats[|stats| - 1];
      StatsFor(stats[..|stats| - 1], user, up) + if e.user != user then 0 else if up then e.uploaded else e.downloaded
  }

  function TokensFor(tokens: seq<TokenRecord>, user: Word32, torrent: Word32): int {
    if tokens == [] then 0
    else
      var e := tokens[|tokens| - 1];
      TokensFor(tokens[..|tokens| - 1], user, torrent) + if e.user == user && e.torrent == torrent then e.bytes else 0
  }

  function InBook(j: Journal, b: Book): int {
    match b
    case Credits(u) => StatsFor(j.stats, u, true)
    case Charges(u) => StatsFor(j.stats, u, false)
    case Tokens(u, torrent) => TokensFor(j.tokens, u, torrent)
  }

  /** What an announce owes a book: uploads unless the torrent is NEUTRAL; downloads on NORMAL torrents, to the user
      or, with a token, to the token. */
  function Owed(s: Tracker, a: Action, b: Book): int {
    if !Effective(s, a) || Owner(s, a) != b.user then 0
    else
      var free := s.torrents[a.hash].free;
      match b
      case Credits(_) => if free == Neutral then 0 else Grown(s, a, Up)
      case Charges(_) => if free == Normal && !HoldsToken(s, a) then Grown(s, a, Down) else 0
      case Tokens(_, torrent) =>
        if free == Normal && HoldsToken(s, a) && s.torrents[a.hash].id == torrent then Grown(s, a, Down) else 0
  }

  function OwedOver(s: Tracker, acts: seq<Action>, b: Book): int {
    if acts == [] then 0
    else OwedOver(s, acts[..|acts| - 1], b) + Owed(Run(s, acts[..|acts| - 1]), acts[|acts| - 1], b)
  }

  lemma StatsGrow(stats: seq<StatsRecord>, e: StatsRecord, user: Word32, up: bool)
    ensures StatsFor(stats + [e], user, up) ==
            StatsFor(stats, user, up) + if e.user != user then 0 else if up then e.uploaded else e.downloaded
  {
    assert (stats + [e])[..|stats|] == stats;
  }

  lemma TokensGrow(tokens: seq<TokenRecord>, e: TokenRecord, user: Word32, torrent: Word32)
    ensures TokensFor(tokens + [e], user, torrent) ==
            TokensFor(tokens, user, torrent) + if e.user == user && e.torrent == torrent then e.bytes else 0
  {
    assert (tokens + [e])[..|tokens|] == tokens;
  }

  lemma BookGrows(j: Journal, split: Split, user: Word32, torrent: Word32, b: Book)
    requires split.chargedUp >= 0 && split.chargedDown >= 0 && (!split.spendsToken ==> split.tokened == 0)
    ensures InBook(Recorded(j, split, user, torrent), b) ==
            InBook(j, b) + if b.user == user then SplitInto(split, torrent, b) else 0
  {
    match b
    case Credits(u) => StatsGrow(j.stats, StatsRecord(user, split.chargedUp, split.chargedDown), u, true);
    case Charges(u) => StatsGrow(j.stats, StatsRecord(user, split.chargedUp, split.chargedDown), u, false);
    case Tokens(u, id) => TokensGrow(j.tokens, TokenRecord(user, torrent, split.tokened), u, id);
  }

  lemma JournalStep(s: Tracker, a: Action)
    ensures !Effective(s, a) ==> Apply(s, a).journal == s.journal
    ensures Effective(s, a) ==>
      var user, t := s.users[a.passkey].id, s.torrents[a.hash];
      Apply(s, a).journal == Recorded(s.journal, SplitOf(DeltaAt(s, a), t.free, user in t.tokened), user, t.id)
  {
    hide Recorded, SplitOf, DeltaOf, Found, AnnouncedTorrent;
  }

  /** What a split gives each book. */
  function SplitInto(split: Split, torrent: Word32, b: Book): int {
    match b
    case Credits(_) => split.chargedUp
    case Charges(_) => split.chargedDown
    case Tokens(_, id) => if id == torrent then split.tokened else 0
  }

  lemma SplitIsOwed(s: Tracker, a: Action, b: Book)
    requires Effective(s, a)
    ensures
      var t := s.torrents[a.hash];
      var split := SplitOf(DeltaAt(s, a), t.free, HoldsToken(s, a));
      && (Owner(s, a) == b.user ==> SplitInto(split, t.id, b) == Owed(s, a, b))
      && split.chargedUp >= 0 && split.chargedDown >= 0 && (!split.spendsToken ==> split.tokened == 0)
  {
    GrownIsDelta(s, a);
    hide DeltaAt, Grown, KeyOf;
  }

  lemma BookStep(s: Tracker, a: Action, b: Book)
    ensures InBook(Apply(s, a).journal, b) == InBook(s.journal, b) + Owed(s, a, b)
  {
    JournalStep(s, a);
    if Effective(s, a) {
      var user, t := Owner(s, a), s.torrents[a.hash];
      SplitIsOwed(s, a, b);
      hide InBook, Recorded, SplitOf, DeltaAt, Grown, Apply, Effective, HoldsToken;
      BookGrows(s.journal, SplitOf(DeltaAt(s, a), t.free, HoldsToken(s, a)), user, t.id, b);
    }
  }

  /** Over every run, each book holds exactly what the announces owe it: the uploads recorded for a user grow by that
      user's upload growth on torrents that are not NEUTRAL, the downloads by the growth on NORMAL torrents without a
      token, and the bytes on a user's token for a torrent by the growth there. */
  lemma {:induction false} BooksHoldGrowth(s: Tracker, acts: seq<Action>, b: Book)
    ensures InBook(Run(s, acts).journal, b) == InBook(s.journal, b) + OwedOver(s, acts, b)
  {
    hide InBook, Owed, Apply;
    if acts != [] {
      BooksHoldGrowth(s, acts[..|acts| - 1], b);
      BookStep(Run(s, acts[..|acts| - 1]), acts[|acts| - 1], b);
    }
  }

  // ----- When a token is used up -----

  /** The announce ends a download for which the token was used. */
  predicate UsesUp(s: Tracker, a: Action)
    requires Effective(s, a)
  {
    var t, key := s.torrents[a.hash], KeyOf(s, a);
    && t.free == Normal && a.r.event == Completed && a.r.left == 0
    && (key in t.leechers || key !in t.seeders)
    && (Grown(s, a, Up) > 0 || Grown(s, a, Down) > 0)
  }

  /** A token goes exactly when its own holder completes the download with bytes to book on it; nothing else short of
      deleting the torrent takes it. */
  lemma TokenUsedUpIff(s: Tracker, a: Action, h: InfoHash, u: Word32)
    requires h in s.torrents && u in s.torrents[h].tokened && a != DeleteTorrent(h)
    ensures h in Apply(s, a).torrents
    ensures u !in Apply(s, a).torrents[h].tokened <==>
            Effective(s, a) && a.hash == h && Owner(s, a) == u && UsesUp(s, a)
  {
    if Effective(s, a) {
      GrownIsDelta(s, a);
      hide Recorded, Refreshed, KeyOf, Grown;
    }
  }

  // ----- A stored record is the last report -----

  /** The announce leaves its report in this list. */
  predicate Writes(s: Tracker, a: Action, h: InfoHash, key: Key, side: Side) {
    Mine(s, a, h, key) && a.r.event != Stopped && (side == Leeches <==> a.r.left > 0)
  }

  function LastReport(s: Tracker, acts: seq<Action>, h: InfoHash, key: Key, side: Side): Option<Report> {
    if acts == [] then None
    else
      var front, a := acts[..|acts| - 1], acts[|acts| - 1];
      if Writes(Run(s, front), a, h, key, side) then Some(a.r) else LastReport(s, front, h, key, side)
  }

  ghost predicate Reflects(rec: Option<Peer>, last: Option<Report>) {
    rec.Some? ==> last.Some? && rec.value.uploaded == last.value.uploaded
                  && rec.value.downloaded == last.value.downloaded && rec.value.left == last.value.left
  }

  lemma StepReflects(s: Tracker, a: Action, h: InfoHash, key: Key, side: Side, last: Option<Report>)
    requires Reflects(RecordOn(s, h, key, side), last)
    ensures Reflects(RecordOn(Apply(s, a), h, key, side), if Writes(s, a, h, key, side) then Some(a.r) else last)
  {
    hide KeyOf;
    if Effective(s, a) {
      AppliedAnnounce(s, a);
    }
  }

  /** Over every run from empty swarms, a listed peer's counters are those of the last announce of its key into that
      list, whatever sessions started or went back in between. */
  lemma {:induction false} StoredIsLastReport(s: Tracker, acts: seq<Action>, h: InfoHash, key: Key, side: Side)
    requires Fresh(s)
    ensures Reflects(RecordOn(Run(s, acts), h, key, side), LastReport(s, acts, h, key, side))
  {
    if acts != [] {
      hide Reflects, Writes, Apply;
      StoredIsLastReport(s, acts[..|acts| - 1], h, key, side);
      StepReflects(Run(s, acts[..|acts| - 1]), acts[|acts| - 1], h, key, side,
                   LastReport(s, acts[..|acts| - 1], h, key, side));
    }
  }

  /** The corrupt count of a record: taken from the report when there is no record or a session starts, kept when a
      counter went back, and otherwise never lowered. */
  lemma StoredCorrupt(s: Tracker, a: Action, h: InfoHash, key: Key, side: Side)
    requires Writes(s, a, h, key, side)
    ensures RecordOn(Apply(s, a), h, key, side).Some?
    ensures
      var was, now := RecordOn(s, h, key, UsedSide(s.torrents[h], key, a.r)), RecordOn(Apply(s, a), h, key, side).value.corrupt;
      && (was.None? || a.r.event == Started ==> now == a.r.corrupt)
      && (was.Some? && a.r.event != Started ==>
            if a.r.uploaded < was.value.uploaded || a.r.downloaded < was.value.downloaded then now == was.value.corrupt
            else now >= was.value.corrupt && now == was.value.corrupt + Grown(s, a, Corrupt))
  {
    hide KeyOf;
    AppliedAnnounce(s, a);
  }

  // ----- Completed downloads -----

  /** The announce completes a download: not one of a peer that is listed as a seeder only. */
  predicate NewlyFinished(s: Tracker, a: Action, h: InfoHash) {
    && Effective(s, a) && a.hash == h && a.r.event == Completed && a.r.left == 0
    && (RecordOn(s, h, KeyOf(s, a), Seeds).None? || RecordOn(s, h, KeyOf(s, a), Leeches).Some?)
  }

  function FinishedOver(s: Tracker, acts: seq<Action>, h: InfoHash): nat {
    if acts == [] then 0
    else FinishedOver(s, acts[..|acts| - 1], h) + if NewlyFinished(Run(s, acts[..|acts| - 1]), acts[|acts| - 1], h) then 1 else 0
  }

  lemma FinishStep(s: Tracker, a: Action, h: InfoHash)
    requires h in s.torrents && a != DeleteTorrent(h)
    ensures h in Apply(s, a).torrents
    ensures Apply(s, a).torrents[h].completed == Moved(s.torrents[h].completed, if NewlyFinished(s, a, h) then 1 else 0)
  {
    hide KeyOf, Refreshed, SplitOf, DeltaOf;
    if Effective(s, a) {
      AppliedAnnounce(s, a);
    }
  }

  /** Over every run a torrent's completed count grows by one for each download completed, mod 2^32. */
  lemma {:induction false} CompletedCounts(s: Tracker, acts: seq<Action>, h: InfoHash)
    requires h in s.torrents && forall i :: 0 <= i < |acts| ==> acts[i] != DeleteTorrent(h)
    ensures h in Run(s, acts).torrents
    ensures Run(s, acts).torrents[h].completed == Wrap32(s.torrents[h].completed + FinishedOver(s, acts, h))
  {
    hide Apply, NewlyFinished, Wrap32, Moved;
    if acts == [] {
      SmallWord(s.torrents[h].completed);
    } else {
      var front, a := acts[..|acts| - 1], acts[|acts| - 1];
      CompletedCounts(s, front, h);
      FinishStep(Run(s, front), a, h);
      MovedWraps(s.torrents[h].completed + FinishedOver(s, front, h), if NewlyFinished(Run(s, front), a, h) then 1 else 0);
    }
  }

  lemma SmallWord(w: Word32)
    ensures Wrap32(w) == w
  {
  }

  /** A finish repeated at once is not counted again. */
  lemma FinishCountsOnce(s: Tracker, a: Action, h: InfoHash)
    requires Effective(s, a) && a.hash == h && a.r.event == Completed && a.r.left == 0
    ensures Effective(Apply(s, a), a) && !NewlyFinished(Apply(s, a), a, h)
  {
    AppliedAnnounce(s, a);
    hide Refreshed;
  }
}
