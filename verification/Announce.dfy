/** The Go tracker's announce: one request edits two peer maps, sets increment and decrement
    flags, and applies the flags to the global and per-user counters at the end. */
module Announce {
  import opened Options
  import opened PeerKeys

  type InfoHash = string
  type Passkey = string

  datatype Event = Started | Completed | Stopped | Regular
  datatype FreeType = Normal | Free | Neutral

  datatype Report = Report(
    peerID: seq<Byte>, uploaded: int, downloaded: int, left: int, corrupt: int,
    event: Event, compact: bool)

  datatype Peer = Peer(userID: Word32, uploaded: int, downloaded: int, corrupt: int, left: int)

  type PeerList = map<Key, Peer>

  /** Which of a torrent's two lists. */
  datatype Side = Seeds | Leeches

  datatype Torrent = Torrent(
    id: Word32, completed: Word32, balance: int, free: FreeType,
    seeders: PeerList, leechers: PeerList, tokened: set<Word32>)

  datatype User = User(id: Word32, canLeech: bool, seeding: Word32, leeching: Word32)

  /** Database writes the announce offers. */
  datatype TokenRecord = TokenRecord(user: Word32, torrent: Word32, bytes: int)
  datatype StatsRecord = StatsRecord(user: Word32, uploaded: int, downloaded: int)
  datatype Journal = Journal(tokens: seq<TokenRecord>, stats: seq<StatsRecord>)

  datatype Tracker = Tracker(
    torrents: map<InfoHash, Torrent>, users: map<Passkey, User>,
    seeders: Word32, leechers: Word32, journal: Journal)

  datatype Reply =
    | Rejected
    | Unregistered
    | LeechingForbidden
    | Swarm(complete: nat, incomplete: nat)

  // ----- Specification: what one announce means -----

  /** `screened` is the verdict of the admission policy, the whitelist and the detectors. */
  predicate Acceptable(r: Report, screened: bool) {
    screened && r.compact && |r.peerID| == 20
  }

  /** An announce that reports the end of the download. */
  predicate Finishes(r: Report) {
    r.event == Completed && r.left == 0
  }

  function Lookup(list: PeerList, key: Key): Option<Peer> {
    if key in list then Some(list[key]) else None
  }

  function OrElse<T>(a: Option<T>, b: Option<T>): Option<T> {
    if a.Some? then a else b
  }

  /** The record the announce carries on from. */
  function Found(t: Torrent, key: Key, r: Report): Option<Peer> {
    if r.left > 0 then Lookup(t.leechers, key)
    else if Finishes(r) then OrElse(Lookup(t.leechers, key), Lookup(t.seeders, key))
    else OrElse(Lookup(t.seeders, key), Lookup(t.leechers, key))
  }

  /** The counters continue the stored session instead of starting a new one. */
  predicate Continues(found: Option<Peer>, r: Report) {
    found.Some? && r.event != Started
    && r.uploaded >= found.value.uploaded && r.downloaded >= found.value.downloaded
  }

  datatype Delta = Delta(up: int, down: int, corrupt: int)

  function DeltaOf(found: Option<Peer>, r: Report): Delta {
    if Continues(found, r) then
      Delta(r.uploaded - found.value.uploaded, r.downloaded - found.value.downloaded,
            Max(r.corrupt - found.value.corrupt, 0))
    else Delta(0, 0, 0)
  }

  function Refreshed(found: Option<Peer>, user: Word32, r: Report): Peer {
    match found
    case None => Peer(user, r.uploaded, r.downloaded, r.corrupt, r.left)
    case Some(p) =>
      var corrupt :=
        if r.event == Started then r.corrupt
        else if Continues(found, r) then Max(p.corrupt, r.corrupt)
        else p.corrupt;
      Peer(p.userID, r.uploaded, r.downloaded, corrupt, r.left)
  }

  /** Where the bytes of one delta go. */
  datatype Split = Split(chargedUp: int, chargedDown: int, tokened: int, forgiven: int, spendsToken: bool)

  function SplitOf(d: Delta, free: FreeType, hasToken: bool): Split {
    if d.up <= 0 && d.down <= 0 then Split(0, 0, 0, 0, false)
    else match free
      case Neutral => Split(0, 0, 0, d.down, false)
      case Free => Split(d.up, 0, 0, d.down, false)
      case Normal =>
        if hasToken then Split(d.up, 0, d.down, 0, true) else Split(d.up, d.down, 0, 0, false)
  }

  function Recorded(j: Journal, s: Split, user: Word32, torrent: Word32): Journal {
    Journal(
      if s.spendsToken then j.tokens + [TokenRecord(user, torrent, s.tokened)] else j.tokens,
      if s.chargedUp > 0 || s.chargedDown > 0
      then j.stats + [StatsRecord(user, s.chargedUp, s.chargedDown)] else j.stats)
  }

  /** A download counts as a snatch unless the peer was known as a finished seeder only. */
  predicate Snatches(t: Torrent, key: Key, r: Report) {
    Finishes(r) && (key in t.leechers || key !in t.seeders)
  }

  function Remaining(list: PeerList, key: Key, p: Peer, r: Report): PeerList {
    if r.event == Stopped then list - {key} else list[key := p]
  }

  function AnnouncedTorrent(t: Torrent, key: Key, user: Word32, r: Report): Torrent {
    var found := Found(t, key, r);
    var p := Refreshed(found, user, r);
    var d := DeltaOf(found, r);
    var spends := SplitOf(d, t.free, user in t.tokened).spendsToken;
    Torrent(
      t.id,
      if Snatches(t, key, r) then Moved(t.completed, 1) else t.completed,
      t.balance + d.up - d.down - d.corrupt,
      t.free,
      if r.left > 0 then t.seeders else Remaining(t.seeders, key, p, r),
      if r.left > 0 then Remaining(t.leechers, key, p, r)
      else if Finishes(r) || key !in t.seeders then t.leechers - {key}
      else t.leechers,
      if Snatches(t, key, r) && spends then t.tokened - {user} else t.tokened)
  }

  function Here(list: PeerList, key: Key): int {
    if key in list then 1 else 0
  }

  function Counted(u: User, seeding: int, leeching: int): User
    requires -1 <= seeding <= 1 && -1 <= leeching <= 1
  {
    u.(seeding := Moved(u.seeding, seeding), leeching := Moved(u.leeching, leeching))
  }

  function Announced(s: Tracker, hash: InfoHash, passkey: Passkey, r: Report, screened: bool): Tracker
    requires passkey in s.users
  {
    if !Acceptable(r, screened) || hash !in s.torrents then s
    else
      var u := s.users[passkey];
      var t := s.torrents[hash];
      var key := GoKey(r.peerID, u.id, t.id);
      var t' := AnnouncedTorrent(t, key, u.id, r);
      var seeding := Here(t'.seeders, key) - Here(t.seeders, key);
      var leeching := Here(t'.leechers, key) - Here(t.leechers, key);
      var split := SplitOf(DeltaOf(Found(t, key, r), r), t.free, u.id in t.tokened);
      Tracker(
        s.torrents[hash := t'],
        s.users[passkey := Counted(u, seeding, leeching)],
        Moved(s.seeders, seeding),
        Moved(s.leechers, leeching),
        Recorded(s.journal, split, u.id, t.id))
  }

  // ----- The announce itself -----

  /** Get the peer under `key`, inserting a blank one if there is none. */
  method FindOrCreatePeer(list: PeerList, key: Key, user: Word32)
    returns (list': PeerList, peer: Peer, inserted: bool)
    ensures inserted <==> key !in list
    ensures list' == list[key := peer]
    ensures if inserted then peer == Peer(user, 0, 0, 0, 0) else peer == list[key]
  {
    if key in list {
      list', peer, inserted := list, list[key], false;
    } else {
      peer, inserted := Peer(user, 0, 0, 0, 0), true;
      list' := list[key := peer];
    }
  }

  /** Which counters the announce will move, once it is done editing the maps. */
  datatype Flags = Flags(incLeechers: bool, incSeeders: bool, decLeechers: bool, decSeeders: bool)

  /** Find the record, or create it, in the list the request points at. */
  method Locate(before: Torrent, key: Key, user: Word32, r: Report)
    returns (t: Torrent, peer: Peer, inserted: bool, inLeechers: bool, completed: bool, flags: Flags)
    ensures (if inserted then None else Some(peer)) == Found(before, key, r)
    ensures inserted ==> peer == Peer(user, 0, 0, 0, 0)
    ensures inLeechers <==> r.left > 0 || (Finishes(r) && key in before.leechers)
    ensures completed <==> Snatches(before, key, r)
    ensures t == before.(
      seeders := if inLeechers then before.seeders else before.seeders[key := peer],
      leechers :=
        if r.left > 0 then before.leechers[key := peer]
        else if !Finishes(r) && key !in before.seeders then before.leechers - {key}
        else before.leechers)
    ensures flags == Flags(
      r.left > 0 && key !in before.leechers,
      !inLeechers && key !in before.seeders,
      r.left <= 0 && !Finishes(r) && key in before.leechers && key !in before.seeders,
      Finishes(r) && key in before.leechers && key in before.seeders)
  {
    t, inserted, inLeechers, completed := before, false, false, false;
    flags := Flags(false, false, false, false);
    if r.event == Completed {
      completed := r.left == 0;
    }
    if r.left > 0 {
      var list;
      list, peer, inserted := FindOrCreatePeer(t.leechers, key, user);
      t := t.(leechers := list);
      inLeechers := true;
      if inserted {
        flags := flags.(incLeechers := true);
      }
    } else if completed {
      if key in t.leechers {
        peer := t.leechers[key];
        inLeechers := true;
        if key in t.seeders {
          flags := flags.(decSeeders := true);
        }
      } else if key in t.seeders {
        peer := t.seeders[key];
        completed := false;
      } else {
        var list;
        list, peer, inserted := FindOrCreatePeer(t.seeders, key, user);
        t := t.(seeders := list);
        flags := flags.(incSeeders := true);
      }
    } else {
      if key in t.seeders {
        peer := t.seeders[key];
      } else {
        if key in t.leechers {
          peer := t.leechers[key];
          t := t.(leechers := t.leechers - {key}, seeders := t.seeders[key := peer]);
          flags := flags.(decLeechers := true);
        } else {
          var list;
          list, peer, inserted := FindOrCreatePeer(t.seeders, key, user);
          t := t.(seeders := list);
        }
        flags := flags.(incSeeders := true);
      }
    }
  }

  /** Stops raise a decrement; a snatch is counted, moves the record over and burns the token. */
  method Conclude(before: Torrent, key: Key, user: Word32, r: Report,
                  inserted: bool, completed: bool, expireToken: bool, flags: Flags)
    returns (t: Torrent, flags': Flags)
    requires completed ==> Finishes(r)
    ensures var moves := completed && !inserted && key in before.leechers;
      && t == before.(
        completed := if completed then Moved(before.completed, 1) else before.completed,
        seeders := if moves then before.seeders[key := before.leechers[key]] else before.seeders,
        leechers := if moves then before.leechers - {key} else before.leechers,
        tokened := if completed && expireToken then before.tokened - {user} else before.tokened)
      && flags' == Flags(
        flags.incLeechers,
        flags.incSeeders || moves,
        flags.decLeechers || moves || (r.event == Stopped && r.left > 0),
        flags.decSeeders || (r.event == Stopped && r.left <= 0))
  {
    t, flags' := before, flags;
    if r.event == Stopped {
      if r.left > 0 {
        flags' := flags'.(decLeechers := true);
      } else {
        flags' := flags'.(decSeeders := true);
      }
    } else if completed {
      t := t.(completed := Moved(t.completed, 1));
      if !inserted && key in t.leechers {
        t := t.(seeders := t.seeders[key := t.leechers[key]], leechers := t.leechers - {key});
        flags' := flags'.(decLeechers := true, incSeeders := true);
      }
      if expireToken {
        t := t.(tokened := t.tokened - {user});
      }
    }
  }

  /** The deletion a stop ends with. */
  function Dropped(t: Torrent, key: Key, r: Report): Torrent {
    if r.event != Stopped then t
    else if r.left > 0 then t.(leechers := t.leechers - {key})
    else t.(seeders := t.seeders - {key})
  }

  function Step(up: bool, down: bool): int {
    (if up then 1 else 0) - (if down then 1 else 0)
  }

  class Worker {
    var torrents: map<InfoHash, Torrent>
    var users: map<Passkey, User>
    var seeders: Word32
    var leechers: Word32
    var journal: Journal

    ghost function View(): (s: Tracker)
      reads this
    {
      Tracker(torrents, users, seeders, leechers, journal)
    }

    constructor (torrents: map<InfoHash, Torrent>, users: map<Passkey, User>)
      ensures View() == Tracker(torrents, users, 0, 0, Journal([], []))
    {
      this.torrents, this.users := torrents, users;
      seeders, leechers, journal := 0, 0, Journal([], []);
    }

    /** The byte counters of the record `peer`: the torrent balance, the database writes and
        whether a freeleech token was spent. */
    method UpdateCounters(peer: Peer, inserted: bool, t: Torrent, user: Word32, r: Report)
      returns (peer': Peer, balance: int, expireToken: bool)
      modifies this`journal
      ensures var found := if inserted then None else Some(peer);
        var d := DeltaOf(found, r);
        var s := SplitOf(d, t.free, user in t.tokened);
        && (peer'.userID, peer'.uploaded, peer'.downloaded, peer'.corrupt) ==
           (var p := Refreshed(found, peer.userID, r); (p.userID, p.uploaded, p.downloaded, p.corrupt))
        && balance == t.balance + d.up - d.down - d.corrupt
        && expireToken == s.spendsToken
        && journal == Recorded(old(journal), s, user, t.id)
    {
      peer', balance, expireToken := peer, t.balance, false;
      if inserted || r.event == Started {
        peer' := peer.(uploaded := r.uploaded, downloaded := r.downloaded, corrupt := r.corrupt);
      } else if r.uploaded < peer.uploaded || r.downloaded < peer.downloaded {
        peer' := peer.(uploaded := r.uploaded, downloaded := r.downloaded);
      } else {
        var uploadedChange := r.uploaded - peer.uploaded;
        var downloadedChange := r.downloaded - peer.downloaded;
        var corruptChange := r.corrupt - peer.corrupt;
        if uploadedChange > 0 {
          peer' := peer'.(uploaded := r.uploaded);
        }
        if downloadedChange > 0 {
          peer' := peer'.(downloaded := r.downloaded);
        }
        if corruptChange > 0 {
          peer' := peer'.(corrupt := r.corrupt);
          balance := balance - corruptChange;
        }
        if uploadedChange > 0 || downloadedChange > 0 {
          balance := balance + uploadedChange;
          balance := balance - downloadedChange;
          match t.free {
            case Neutral =>
              downloadedChange := 0;
              uploadedChange := 0;
            case Free =>
              downloadedChange := 0;
            case Normal =>
              if user in t.tokened {
                expireToken := true;
                journal := journal.(tokens := journal.tokens + [TokenRecord(user, t.id, downloadedChange)]);
                downloadedChange := 0;
              }
          }
          if uploadedChange > 0 || downloadedChange > 0 {
            journal := journal.(stats := journal.stats + [StatsRecord(user, uploadedChange, downloadedChange)]);
          }
        }
      }
    }

    method ApplyFlags(user: User, flags: Flags) returns (user': User)
      modifies this`seeders, this`leechers
      ensures user' == Counted(user, Step(flags.incSeeders, flags.decSeeders), Step(flags.incLeechers, flags.decLeechers))
      ensures seeders == Moved(old(seeders), Step(flags.incSeeders, flags.decSeeders))
      ensures leechers == Moved(old(leechers), Step(flags.incLeechers, flags.decLeechers))
    {
      user' := user;
      if flags.incLeechers {
        user' := user'.(leeching := Moved(user'.leeching, 1));
        leechers := Moved(leechers, 1);
      }
      if flags.incSeeders {
        user' := user'.(seeding := Moved(user'.seeding, 1));
        seeders := Moved(seeders, 1);
      }
      if flags.decLeechers {
        user' := user'.(leeching := Moved(user'.leeching, -1));
        leechers := Moved(leechers, -1);
      }
      if flags.decSeeders {
        user' := user'.(seeding := Moved(user'.seeding, -1));
        seeders := Moved(seeders, -1);
      }
    }

    /** The map edits of an announce up to, but not including, the final deletion. */
    method EditSwarm(before: Torrent, key: Key, user: Word32, r: Report) returns (t: Torrent, flags: Flags)
      modifies this`journal
      ensures Dropped(t, key, r) == AnnouncedTorrent(before, key, user, r)
      ensures var after := AnnouncedTorrent(before, key, user, r);
        && Step(flags.incSeeders, flags.decSeeders) == Here(after.seeders, key) - Here(before.seeders, key)
        && Step(flags.incLeechers, flags.decLeechers) == Here(after.leechers, key) - Here(before.leechers, key)
      ensures journal == Recorded(old(journal),
        SplitOf(DeltaOf(Found(before, key, r), r), before.free, user in before.tokened), user, before.id)
    {
      var peer, inserted, inLeechers, completed;
      t, peer, inserted, inLeechers, completed, flags := Locate(before, key, user, r);

      // Update the record in place.
      var balance, expireToken;
      peer, balance, expireToken := UpdateCounters(peer, inserted, t, user, r);
      peer := peer.(left := r.left);
      assert peer == Refreshed(Found(before, key, r), user, r);
      t := t.(balance := balance);
      if inLeechers {
        t := t.(leechers := t.leechers[key := peer]);
        assert t.leechers == before.leechers[key := peer];
      } else {
        t := t.(seeders := t.seeders[key := peer]);
        assert t.seeders == before.seeders[key := peer];
      }
      t, flags := Conclude(t, key, user, r, inserted, completed, expireToken, flags);
      ghost var after := AnnouncedTorrent(before, key, user, r);
      assert Dropped(t, key, r).seeders == after.seeders;
      assert Dropped(t, key, r).leechers == after.leechers;
    }

    method Announce(hash: InfoHash, passkey: Passkey, r: Report, screened: bool) returns (reply: Reply)
      requires passkey in users
      modifies this
      ensures View() == Announced(old(View()), hash, passkey, r, screened)
      ensures reply ==
        if !Acceptable(r, screened) then Rejected
        else if hash !in torrents then Unregistered
        else if !users[passkey].canLeech && r.left > 0 then LeechingForbidden
        else Swarm(|torrents[hash].seeders|, |torrents[hash].leechers|)
    {
      if !screened || !r.compact || |r.peerID| != 20 {
        return Rejected;
      }
      if hash !in torrents {
        return Unregistered;
      }
      var user := users[passkey];
      var t := torrents[hash];
      var key := GoKey(r.peerID, user.id, t.id);
      var flags;
      t, flags := EditSwarm(t, key, user.id, r);

      // The flags are applied long after the map edits they stand for.
      user := ApplyFlags(user, flags);

      // Peers are deleted last.
      if r.event == Stopped {
        if r.left > 0 {
          t := t.(leechers := t.leechers - {key});
        } else {
          t := t.(seeders := t.seeders - {key});
        }
      }
      torrents := torrents[hash := t];
      users := users[passkey := user];

      if !user.canLeech && r.left > 0 {
        return LeechingForbidden;
      }
      reply := Swarm(|t.seeders|, |t.leechers|);
    }
  }
}
