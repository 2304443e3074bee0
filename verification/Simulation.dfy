/** The Go port against the C++ original: on the same requests the two trackers list the same
    peers, although they store them under differently encoded keys. */
module Simulation {
  import opened Options
  import opened PeerKeys
  import opened Announce
  import AnnounceRuns
  import opened CppTracker

  // ----- Abstraction: lists as sets of (user, peer_id) pairs -----

  ghost predicate GoFormed(list: PeerList, id: Word32) {
    forall k :: k in list ==>
      |k| == 25 && k == GoKey(GoIdent(k).peerID, GoIdent(k).user, id)
  }

  ghost predicate CppFormed(list: CList, id: Word32) {
    forall k :: k in list ==>
      |k| >= 22 && k == CppKey(CppIdent(k).peerID, CppIdent(k).user, id)
  }

  ghost function GoPeers(list: PeerList): set<Ident> {
    set k | k in list && |k| >= 5 :: GoIdent(k)
  }

  ghost function CppPeers(list: CList): set<Ident> {
    set k | k in list && |k| >= 22 :: CppIdent(k)
  }

  ghost predicate Same(list: PeerList, clist: CList, id: Word32) {
    GoFormed(list, id) && CppFormed(clist, id) && GoPeers(list) == CppPeers(clist)
  }

  ghost predicate Similar(t: Torrent, c: CTorrent) {
    && t.id == c.id && t.completed == c.completed
    && Same(t.seeders, c.seeders, t.id) && Same(t.leechers, c.leechers, t.id)
  }

  ghost predicate Simulates(s: Tracker, c: State) {
    && s.torrents.Keys == c.torrents.Keys
    && forall h :: h in s.torrents ==> Similar(s.torrents[h], c.torrents[h])
  }

  // ----- Lists -----

  lemma GoMember(list: PeerList, id: Word32, i: Ident)
    requires GoFormed(list, id) && |i.peerID| == 20
    ensures GoKey(i.peerID, i.user, id) in list <==> i in GoPeers(list)
  {
    GoKeyReadsBack(i.peerID, i.user, id);
    if i in GoPeers(list) {
      var k :| k in list && |k| >= 5 && GoIdent(k) == i;
    }
  }

  lemma CppMember(list: CList, id: Word32, i: Ident)
    requires CppFormed(list, id) && |i.peerID| == 20
    ensures CppKey(i.peerID, i.user, id) in list <==> i in CppPeers(list)
  {
    CppKeyReadsBack(i.peerID, i.user, id);
    if i in CppPeers(list) {
      var k :| k in list && |k| >= 22 && CppIdent(k) == i;
    }
  }

  lemma GoLong(list: PeerList, id: Word32, j: Ident)
    requires GoFormed(list, id) && j in GoPeers(list)
    ensures |j.peerID| == 20
  {
  }

  lemma GoFormedAdd(list: PeerList, id: Word32, i: Ident, p: Peer)
    requires GoFormed(list, id) && |i.peerID| == 20
    ensures GoFormed(list[GoKey(i.peerID, i.user, id) := p], id)
  {
    GoKeyReadsBack(i.peerID, i.user, id);
    hide GoKey, GoIdent;
  }

  lemma GoFormedDrop(list: PeerList, id: Word32, key: Key)
    requires GoFormed(list, id)
    ensures GoFormed(list - {key}, id)
  {
    hide GoKey, GoIdent;
  }

  /** Membership of one pair after an addition or a removal of another. */
  lemma GoChanges(list: PeerList, list': PeerList, id: Word32, i: Ident, j: Ident, added: bool)
    requires GoFormed(list, id) && GoFormed(list', id) && |i.peerID| == 20
    requires forall k :: k != GoKey(i.peerID, i.user, id) ==> (k in list' <==> k in list)
    requires GoKey(i.peerID, i.user, id) in list' <==> added
    ensures j in GoPeers(list') <==> if j == i then added else j in GoPeers(list)
  {
    hide GoPeers, GoFormed, GoKey;
    if |j.peerID| == 20 {
      GoMember(list, id, j);
      GoMember(list', id, j);
      KeysAgree(i.peerID, i.user, j.peerID, j.user, id);
    } else {
      if j in GoPeers(list) {
        GoLong(list, id, j);
      }
      if j in GoPeers(list') {
        GoLong(list', id, j);
      }
    }
  }

  lemma GoAdd(list: PeerList, id: Word32, i: Ident, p: Peer)
    requires GoFormed(list, id) && |i.peerID| == 20
    ensures var list' := list[GoKey(i.peerID, i.user, id) := p];
      GoFormed(list', id) && GoPeers(list') == GoPeers(list) + {i}
  {
    hide GoPeers, GoFormed, GoKey;
    GoFormedAdd(list, id, i, p);
    var list' := list[GoKey(i.peerID, i.user, id) := p];
    forall j: Ident ensures j in GoPeers(list') <==> j in GoPeers(list) || j == i {
      GoChanges(list, list', id, i, j, true);
    }
  }

  lemma GoDrop(list: PeerList, id: Word32, i: Ident)
    requires GoFormed(list, id) && |i.peerID| == 20
    ensures var list' := list - {GoKey(i.peerID, i.user, id)};
      GoFormed(list', id) && GoPeers(list') == GoPeers(list) - {i}
  {
    hide GoPeers, GoFormed, GoKey;
    GoFormedDrop(list, id, GoKey(i.peerID, i.user, id));
    var list' := list - {GoKey(i.peerID, i.user, id)};
    forall j: Ident ensures j in GoPeers(list') <==> j in GoPeers(list) && j != i {
      GoChanges(list, list', id, i, j, false);
    }
  }

  lemma CppLong(list: CList, id: Word32, j: Ident)
    requires CppFormed(list, id) && j in CppPeers(list)
    ensures |j.peerID| == 20
  {
  }

  lemma CppFormedAdd(list: CList, id: Word32, i: Ident, p: CPeer)
    requires CppFormed(list, id) && |i.peerID| == 20
    ensures CppFormed(list[CppKey(i.peerID, i.user, id) := p], id)
  {
    CppKeyReadsBack(i.peerID, i.user, id);
    hide CppKey, CppIdent;
  }

  lemma CppFormedDrop(list: CList, id: Word32, key: Key)
    requires CppFormed(list, id)
    ensures CppFormed(list - {key}, id)
  {
    hide CppKey, CppIdent;
  }

  /** Membership of one pair after an addition or a removal of another. */
  lemma CppChanges(list: CList, list': CList, id: Word32, i: Ident, j: Ident, added: bool)
    requires CppFormed(list, id) && CppFormed(list', id) && |i.peerID| == 20
    requires forall k :: k != CppKey(i.peerID, i.user, id) ==> (k in list' <==> k in list)
    requires CppKey(i.peerID, i.user, id) in list' <==> added
    ensures j in CppPeers(list') <==> if j == i then added else j in CppPeers(list)
  {
    hide CppPeers, CppFormed, CppKey;
    if |j.peerID| == 20 {
      CppMember(list, id, j);
      CppMember(list', id, j);
      KeysAgree(i.peerID, i.user, j.peerID, j.user, id);
    } else {
      if j in CppPeers(list) {
        CppLong(list, id, j);
      }
      if j in CppPeers(list') {
        CppLong(list', id, j);
      }
    }
  }

  lemma CppAdd(list: CList, id: Word32, i: Ident, p: CPeer)
    requires CppFormed(list, id) && |i.peerID| == 20
    ensures var list' := list[CppKey(i.peerID, i.user, id) := p];
      CppFormed(list', id) && CppPeers(list') == CppPeers(list) + {i}
  {
    hide CppPeers, CppFormed, CppKey;
    CppFormedAdd(list, id, i, p);
    var list' := list[CppKey(i.peerID, i.user, id) := p];
    forall j: Ident ensures j in CppPeers(list') <==> j in CppPeers(list) || j == i {
      CppChanges(list, list', id, i, j, true);
    }
  }

  lemma CppDrop(list: CList, id: Word32, i: Ident)
    requires CppFormed(list, id) && |i.peerID| == 20
    ensures var list' := list - {CppKey(i.peerID, i.user, id)};
      CppFormed(list', id) && CppPeers(list') == CppPeers(list) - {i}
  {
    hide CppPeers, CppFormed, CppKey;
    CppFormedDrop(list, id, CppKey(i.peerID, i.user, id));
    var list' := list - {CppKey(i.peerID, i.user, id)};
    forall j: Ident ensures j in CppPeers(list') <==> j in CppPeers(list) && j != i {
      CppChanges(list, list', id, i, j, false);
    }
  }

  /** Matching lists stay matching when the same peer is added to, or dropped from, both. */
  lemma SameAdd(list: PeerList, clist: CList, id: Word32, i: Ident, p: Peer, q: CPeer)
    requires Same(list, clist, id) && |i.peerID| == 20
    ensures Same(list[GoKey(i.peerID, i.user, id) := p], clist[CppKey(i.peerID, i.user, id) := q], id)
  {
    hide GoFormed, CppFormed, GoPeers, CppPeers;
    GoAdd(list, id, i, p);
    CppAdd(clist, id, i, q);
  }

  lemma SameDrop(list: PeerList, clist: CList, id: Word32, i: Ident)
    requires Same(list, clist, id) && |i.peerID| == 20
    ensures Same(list - {GoKey(i.peerID, i.user, id)}, clist - {CppKey(i.peerID, i.user, id)}, id)
  {
    hide GoFormed, CppFormed, GoPeers, CppPeers;
    GoDrop(list, id, i);
    CppDrop(clist, id, i);
  }

  lemma SameHolds(list: PeerList, clist: CList, id: Word32, i: Ident)
    requires Same(list, clist, id) && |i.peerID| == 20
    ensures GoKey(i.peerID, i.user, id) in list <==> CppKey(i.peerID, i.user, id) in clist
  {
    hide GoFormed, CppFormed, GoPeers, CppPeers;
    GoMember(list, id, i);
    CppMember(clist, id, i);
  }

  /** A C++ `insert` that finds the key is still an addition of the pair. */
  lemma SameInsert(list: PeerList, clist: CList, id: Word32, i: Ident, p: Peer, q: CPeer)
    requires Same(list, clist, id) && |i.peerID| == 20
    ensures Same(list[GoKey(i.peerID, i.user, id) := p], Inserted(clist, CppKey(i.peerID, i.user, id), q), id)
  {
    var ckey := CppKey(i.peerID, i.user, id);
    SameAdd(list, clist, id, i, p, if ckey in clist then clist[ckey] else q);
    assert ckey in clist ==> clist[ckey := clist[ckey]] == clist;
  }

  // ----- One request -----

  /** The clamp of the original does not change what the request means: only a completion that
      reports a negative remainder would. */
  predicate ReadAlike(r: Report) {
    r.left >= 0 || r.event != Completed
  }

  lemma SeedersAgree(t: Torrent, c: CTorrent, u: Word32, r: Report, now: int)
    requires Similar(t, c) && |r.peerID| == 20 && ReadAlike(r)
    ensures var key, ckey := GoKey(r.peerID, u, t.id), CppKey(r.peerID, u, t.id);
      Same(AnnouncedTorrent(t, key, u, r).seeders, CAnnounced(c, ckey, Clamped(r), now).seeders, t.id)
  {
    hide Same;
    var i, q := Ident(u, r.peerID), CPeer(now);
    var p := Refreshed(Found(t, GoKey(r.peerID, u, t.id), r), u, r);
    SameHolds(t.leechers, c.leechers, t.id, i);
    if r.left <= 0 {
      if r.event == Stopped {
        SameDrop(t.seeders, c.seeders, t.id, i);
      } else {
        SameAdd(t.seeders, c.seeders, t.id, i, p, q);
        SameInsert(t.seeders, c.seeders, t.id, i, p, q);
      }
    }
  }

  lemma LeechersAgree(t: Torrent, c: CTorrent, u: Word32, r: Report, now: int)
    requires Similar(t, c) && |r.peerID| == 20 && ReadAlike(r)
    ensures var key, ckey := GoKey(r.peerID, u, t.id), CppKey(r.peerID, u, t.id);
      Same(AnnouncedTorrent(t, key, u, r).leechers, CAnnounced(c, ckey, Clamped(r), now).leechers, t.id)
  {
    hide Same;
    var i, q := Ident(u, r.peerID), CPeer(now);
    var p := Refreshed(Found(t, GoKey(r.peerID, u, t.id), r), u, r);
    SameHolds(t.seeders, c.seeders, t.id, i);
    SameDrop(t.leechers, c.leechers, t.id, i);
    if r.left > 0 {
      SameAdd(t.leechers, c.leechers, t.id, i, p, q);
    }
  }

  lemma AnnounceAgrees(t: Torrent, c: CTorrent, u: Word32, r: Report, now: int)
    requires Similar(t, c) && |r.peerID| == 20 && ReadAlike(r)
    ensures Similar(AnnouncedTorrent(t, GoKey(r.peerID, u, t.id), u, r),
                    CAnnounced(c, CppKey(r.peerID, u, t.id), Clamped(r), now))
  {
    SeedersAgree(t, c, u, r, now);
    LeechersAgree(t, c, u, r, now);
    hide Same;
    var i, q := Ident(u, r.peerID), CPeer(now);
    SameHolds(t.seeders, c.seeders, t.id, i);
    SameHolds(t.leechers, c.leechers, t.id, i);
  }

  /** The exact boundary: one request keeps the two trackers alike if and only if it is not a
      completion with a negative remainder, or the peer was a seeder and nothing else. */
  lemma AnnounceAgreesIff(t: Torrent, c: CTorrent, u: Word32, r: Report, now: int)
    requires Similar(t, c) && |r.peerID| == 20
    ensures var key, ckey := GoKey(r.peerID, u, t.id), CppKey(r.peerID, u, t.id);
      Similar(AnnouncedTorrent(t, key, u, r), CAnnounced(c, ckey, Clamped(r), now))
      <==> ReadAlike(r) || (key in t.seeders && key !in t.leechers)
  {
    hide Same;
    var key, ckey := GoKey(r.peerID, u, t.id), CppKey(r.peerID, u, t.id);
    var i, q := Ident(u, r.peerID), CPeer(now);
    SameHolds(t.seeders, c.seeders, t.id, i);
    SameHolds(t.leechers, c.leechers, t.id, i);
    if ReadAlike(r) {
      AnnounceAgrees(t, c, u, r, now);
    } else if key in t.seeders && key !in t.leechers {
      SameAdd(t.seeders, c.seeders, t.id, i, Refreshed(Found(t, key, r), u, r), q);
      assert c.leechers - {ckey} == c.leechers;
    }
  }

  // ----- Runs -----

  datatype Request = Request(hash: InfoHash, passkey: Passkey, r: Report, now: int)

  function RunGo(s: Tracker, reqs: seq<Request>): Tracker {
    if reqs == [] then s
    else
      var q := reqs[|reqs| - 1];
      AnnounceRuns.Apply(RunGo(s, reqs[..|reqs| - 1]), AnnounceRuns.Announcing(q.hash, q.passkey, q.r, true))
  }

  /** The original is handed the user ID the passkey stands for. */
  ghost function RunCpp(c: State, users: map<Passkey, User>, reqs: seq<Request>): State {
    if reqs == [] then c
    else
      var q := reqs[|reqs| - 1];
      var c' := RunCpp(c, users, reqs[..|reqs| - 1]);
      if q.passkey !in users then c'
      else CppTracker.Apply(c', CppTracker.Announced(q.hash, users[q.passkey].id, q.r, q.now, true))
  }

  predicate SameAccounts(users: map<Passkey, User>, users': map<Passkey, User>) {
    users.Keys == users'.Keys && forall p :: p in users ==> users[p].id == users'[p].id
  }

  lemma StepSimulates(s: Tracker, c: State, q: Request, u: Word32)
    requires Simulates(s, c) && q.passkey in s.users && s.users[q.passkey].id == u
    requires ReadAlike(q.r)
    ensures Simulates(AnnounceRuns.Apply(s, AnnounceRuns.Announcing(q.hash, q.passkey, q.r, true)),
                      CppTracker.Apply(c, CppTracker.Announced(q.hash, u, q.r, q.now, true)))
    ensures SameAccounts(s.users, AnnounceRuns.Apply(s, AnnounceRuns.Announcing(q.hash, q.passkey, q.r, true)).users)
  {
    hide Similar, AnnouncedTorrent, CAnnounced, GoKey, CppKey, Recorded, SplitOf, DeltaOf, Found;
    if q.hash in s.torrents && Acceptable(q.r, true) {
      var t, ct := s.torrents[q.hash], c.torrents[q.hash];
      assert t.id == ct.id by { SimilarID(t, ct); }
      AnnounceAgrees(t, ct, u, q.r, q.now);
    }
  }

  lemma SimilarID(t: Torrent, c: CTorrent)
    requires Similar(t, c)
    ensures t.id == c.id
  {
  }

  /** For every run of requests, the two trackers list the same seeders and leechers as
      (user, peer_id) pairs and agree on the snatch count of every torrent. */
  lemma {:induction false} GoSimulatesCpp(s: Tracker, c: State, reqs: seq<Request>)
    requires Simulates(s, c)
    requires forall i :: 0 <= i < |reqs| ==> ReadAlike(reqs[i].r)
    ensures Simulates(RunGo(s, reqs), RunCpp(c, s.users, reqs))
    ensures SameAccounts(s.users, RunGo(s, reqs).users)
  {
    if reqs != [] {
      var front, q := reqs[..|reqs| - 1], reqs[|reqs| - 1];
      GoSimulatesCpp(s, c, front);
      hide Simulates;
      if q.passkey in s.users {
        StepSimulates(RunGo(s, front), RunCpp(c, s.users, front), q, s.users[q.passkey].id);
      }
    }
  }

  // ----- Where they part ways -----

  const PEER_ID: seq<Byte> := seq(20, _ => 65)

  lemma NegativeLeftTorrent(t: Torrent, c: CTorrent, key: Key, ckey: Key, u: Word32, r: Report, now: int)
    requires t.seeders == map[] && t.leechers == map[] && t.completed == 0
    requires c.seeders == map[] && c.leechers == map[] && c.completed == 0
    requires r.left == -1 && r.event == Completed
    ensures AnnouncedTorrent(t, key, u, r).completed == 0 && CAnnounced(c, ckey, Clamped(r), now).completed == 1
  {
  }

  lemma OneRequest(s: Tracker, c: State, q: Request)
    requires q.passkey in s.users
    ensures RunGo(s, [q]) == AnnounceRuns.Apply(s, AnnounceRuns.Announcing(q.hash, q.passkey, q.r, true))
    ensures RunCpp(c, s.users, [q]) == CppTracker.Apply(c, CppTracker.Announced(q.hash, s.users[q.passkey].id, q.r, q.now, true))
  {
    assert [q][..0] == [];
    assert RunGo(s, []) == s && RunCpp(c, s.users, []) == c;
    hide AnnounceRuns.Apply, CppTracker.Apply;
  }

  lemma BothEdit(s: Tracker, c: State, q: Request)
    requires q.passkey in s.users && q.hash in s.torrents && q.hash in c.torrents
    requires Acceptable(q.r, true) && Admits(q.r, true)
    ensures
      var u := s.users[q.passkey].id;
      var e := AnnounceRuns.Apply(s, AnnounceRuns.Announcing(q.hash, q.passkey, q.r, true));
      var e' := CppTracker.Apply(c, CppTracker.Announced(q.hash, u, q.r, q.now, true));
      var t, ct := s.torrents[q.hash], c.torrents[q.hash];
      && q.hash in e.torrents && e.torrents[q.hash] == AnnouncedTorrent(t, GoKey(q.r.peerID, u, t.id), u, q.r)
      && q.hash in e'.torrents && e'.torrents[q.hash] == CAnnounced(ct, CppKey(q.r.peerID, u, ct.id), Clamped(q.r), q.now)
  {
    hide AnnouncedTorrent, CAnnounced, GoKey, CppKey;
  }

  /** A fresh peer that completes with a remainder of -1 is no snatch to the port, which tests for zero, and one to
      the original, which reads it as zero. */
  lemma NegativeLeftDiverges(s: Tracker, c: State, q: Request)
    requires Simulates(s, c) && q.passkey in s.users && q.hash in s.torrents && q.hash in c.torrents
    requires
      var t, ct := s.torrents[q.hash], c.torrents[q.hash];
      t.seeders == map[] && t.leechers == map[] && t.completed == 0 && ct.seeders == map[] && ct.leechers == map[]
    requires q.r == Report(PEER_ID, 0, 0, -1, 0, Completed, true)
    ensures
      var e, e' := RunGo(s, [q]), RunCpp(c, s.users, [q]);
      && q.hash in e.torrents && e.torrents[q.hash].completed == 0
      && q.hash in e'.torrents && e'.torrents[q.hash].completed == 1
  {
    var u, t, ct := s.users[q.passkey].id, s.torrents[q.hash], c.torrents[q.hash];
    SameCount(t, ct);
    OneRequest(s, c, q);
    BothEdit(s, c, q);
    hide AnnouncedTorrent, CAnnounced, GoKey, CppKey, RunGo, RunCpp, AnnounceRuns.Apply, CppTracker.Apply;
    NegativeLeftTorrent(t, ct, GoKey(PEER_ID, u, t.id), CppKey(PEER_ID, u, ct.id), u, q.r, q.now);
  }

  lemma SameCount(t: Torrent, c: CTorrent)
    requires Similar(t, c)
    ensures t.completed == c.completed
  {
  }

  /** There are such trackers: both with one empty torrent. */
  lemma EmptySimulates(hash: InfoHash, p: Passkey, u: Word32)
    ensures Simulates(Tracker(map[hash := Torrent(1, 0, 0, Normal, map[], map[], {})], map[p := User(u, true, 0, 0)], 0, 0,
                              Journal([], [])),
                      State(map[hash := CTorrent(1, 0, map[], map[])], 0, 0, 0, 0))
  {
  }
}
