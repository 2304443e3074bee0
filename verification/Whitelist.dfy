/** The client whitelist: the trie against the linear scan it replaces. */
module Whitelist {
  import opened PeerKeys

  type Prefix = seq<Byte>

  /** The whitelist rule: an empty list allows everyone, otherwise some prefix must match. */
  ghost predicate Allowed(prefixes: seq<Prefix>, peerID: seq<Byte>) {
    prefixes == [] || exists p :: p in prefixes && p <= peerID
  }

  // ----- Linear scan -----

  function Kept(prefixes: seq<Prefix>, prefix: Prefix): (r: seq<Prefix>) {
    if prefixes == [] then []
    else
      var front, p := Kept(prefixes[..|prefixes| - 1], prefix), prefixes[|prefixes| - 1];
      if p == prefix then front else front + [p]
  }

  class Linear {
    var prefixes: seq<Prefix>

    constructor ()
      ensures prefixes == []
    {
      prefixes := [];
    }

    method IsAllowed(peerID: seq<Byte>) returns (ok: bool)
      ensures ok <==> Allowed(prefixes, peerID)
    {
      if |prefixes| == 0 {
        return true;
      }
      for i := 0 to |prefixes|
        invariant forall j :: 0 <= j < i ==> !(prefixes[j] <= peerID)
      {
        if |peerID| >= |prefixes[i]| && peerID[..|prefixes[i]|] == prefixes[i] {
          assert prefixes[i] in prefixes && prefixes[i] <= peerID;
          return true;
        }
      }
      return false;
    }

    method Add(prefix: Prefix)
      modifies this
      ensures prefixes == if prefix in old(prefixes) then old(prefixes) else old(prefixes) + [prefix]
    {
      for i := 0 to |prefixes|
        invariant prefixes == old(prefixes) && prefix !in prefixes[..i]
      {
        if prefixes[i] == prefix {
          return;
        }
      }
      prefixes := prefixes + [prefix];
    }

    method Remove(prefix: Prefix)
      modifies this
      ensures prefixes == Kept(old(prefixes), prefix)
    {
      var out := [];
      for i := 0 to |prefixes|
        invariant prefixes == old(prefixes) && out == Kept(prefixes[..i], prefix)
      {
        assert prefixes[..i + 1][..i] == prefixes[..i];
        if prefixes[i] != prefix {
          out := out + [prefixes[i]];
        }
      }
      assert prefixes[..|prefixes|] == prefixes;
      prefixes := out;
    }
  }

  /** Removal takes out every copy of the prefix and nothing else. */
  lemma {:induction false} KeptContents(prefixes: seq<Prefix>, prefix: Prefix)
    ensures multiset(Kept(prefixes, prefix)) == multiset(prefixes)[prefix := 0]
  {
    if prefixes != [] {
      var front, p := prefixes[..|prefixes| - 1], prefixes[|prefixes| - 1];
      KeptContents(front, prefix);
      assert prefixes == front + [p];
    }
  }

  // ----- Trie -----

  /** Nodes live in an arena; a child is a position in it. */
  datatype Node = Node(children: map<Byte, nat>, isPrefix: bool)

  type Index = map<Prefix, nat>

  /** `at` gives every node under the path that leads to it; the edges spell the paths. */
  ghost predicate Shaped(nodes: seq<Node>, at: Index) {
    && [] in at && at[[]] == 0
    && (forall p :: p in at ==> at[p] < |nodes|)
    && (forall p, q :: p in at && q in at && at[p] == at[q] ==> p == q)
    && (forall p {:trigger Hangs(nodes, at, p)} :: p in at && p != [] ==> Hangs(nodes, at, p))
    && (forall p, c :: p in at && c in nodes[at[p]].children ==> p + [c] in at)
  }

  /** The node of `p` is a child of the node of `p` without its last byte. */
  ghost predicate Hangs(nodes: seq<Node>, at: Index, p: Prefix)
    requires p in at && p != []
  {
    var parent, c := p[..|p| - 1], p[|p| - 1];
    && parent in at && at[parent] < |nodes|
    && c in nodes[at[parent]].children && nodes[at[parent]].children[c] == at[p]
  }

  lemma {:induction false} PrefixClosed(nodes: seq<Node>, at: Index, p: Prefix, i: nat)
    requires Shaped(nodes, at) && p in at && i <= |p|
    ensures p[..i] in at
    decreases |p|
  {
    if i == |p| {
      assert p[..i] == p;
    } else {
      assert Hangs(nodes, at, p);
      PrefixClosed(nodes, at, p[..|p| - 1], i);
      assert p[..|p| - 1][..i] == p[..i];
    }
  }

  /** Following an edge follows the path. */
  lemma EdgeLeads(nodes: seq<Node>, at: Index, p: Prefix, c: Byte)
    requires Shaped(nodes, at) && p in at
    ensures at[p] < |nodes| && (c in nodes[at[p]].children <==> p + [c] in at)
    ensures p + [c] in at ==> nodes[at[p]].children[c] == at[p + [c]]
  {
    if p + [c] in at {
      assert Hangs(nodes, at, p + [c]);
      assert (p + [c])[..|p|] == p;
    }
  }

  lemma FirstEdge(nodes: seq<Node>, at: Index, p: Prefix)
    requires Shaped(nodes, at) && p in at && p != []
    ensures p[0] in nodes[0].children
  {
    PrefixClosed(nodes, at, p, 1);
    assert Hangs(nodes, at, p[..1]);
  }

  /** A listed prefix that matches beyond the path so far continues along the next edge. */
  lemma MatchContinues(nodes: seq<Node>, at: Index, a: Prefix, peerID: seq<Byte>, i: nat)
    requires Shaped(nodes, at) && i < |peerID| && a in at
    requires a <= peerID && i <= |a| && a != peerID[..i]
    ensures |a| >= i + 1 && peerID[..i + 1] in at
  {
    assert a == peerID[..|a|];
    PrefixClosed(nodes, at, a, i + 1);
    assert a[..i + 1] == peerID[..i + 1];
  }

  /** Hanging a fresh node below `p` keeps the shape. */
  lemma GrowShaped(nodes: seq<Node>, at: Index, p: Prefix, c: Byte)
    requires Shaped(nodes, at) && p in at && p + [c] !in at
    ensures Shaped(Grown(nodes, at[p], c), at[p + [c] := |nodes|])
  {
    var nodes', at' := Grown(nodes, at[p], c), at[p + [c] := |nodes|];
    hide Hangs;
    EdgeLeads(nodes, at, p, c);
    forall q | q in at' && q != [] ensures Hangs(nodes', at', q) {
      if q == p + [c] {
        HangsNow(nodes, at, p, c);
      } else {
        HangsStill(nodes, at, p, c, q);
      }
    }
    forall q, b | q in at' && b in nodes'[at'[q]].children ensures q + [b] in at' {
      EdgeStill(nodes, at, p, c, q, b);
    }
  }

  lemma EdgeStill(nodes: seq<Node>, at: Index, p: Prefix, c: Byte, q: Prefix, b: Byte)
    requires Shaped(nodes, at) && p in at && p + [c] !in at && (q in at || q == p + [c])
    requires b in Grown(nodes, at[p], c)[at[p + [c] := |nodes|][q]].children
    ensures q + [b] in at[p + [c] := |nodes|]
  {
    if q == p {
      assert b == c || b in nodes[at[q]].children;
    } else if q != p + [c] {
      assert Grown(nodes, at[p], c)[at[q]] == nodes[at[q]];
    }
  }

  lemma HangsNow(nodes: seq<Node>, at: Index, p: Prefix, c: Byte)
    requires p in at && at[p] < |nodes| && p + [c] !in at
    ensures Hangs(Grown(nodes, at[p], c), at[p + [c] := |nodes|], p + [c])
  {
    assert (p + [c])[..|p|] == p;
  }

  lemma HangsStill(nodes: seq<Node>, at: Index, p: Prefix, c: Byte, q: Prefix)
    requires Shaped(nodes, at) && p in at && c !in nodes[at[p]].children
    requires q in at && q != [] && p + [c] !in at
    ensures Hangs(Grown(nodes, at[p], c), at[p + [c] := |nodes|], q)
  {
    assert Hangs(nodes, at, q);
    var parent := q[..|q| - 1];
    if parent == p {
      assert q[|q| - 1] != c;
    }
  }

  /** The flagged nodes are those of the added prefixes. */
  ghost predicate MarkedBy(nodes: seq<Node>, at: Index, added: seq<Prefix>) {
    && (forall a :: a in added ==> a in at)
    && (forall p :: p in at ==> at[p] < |nodes| && (nodes[at[p]].isPrefix <==> p in added))
  }

  lemma MarkedAt(nodes: seq<Node>, at: Index, added: seq<Prefix>, p: Prefix)
    requires MarkedBy(nodes, at, added) && p in at
    ensures at[p] < |nodes| && (nodes[at[p]].isPrefix <==> p in added)
  {
  }

  lemma AddedIsThere(nodes: seq<Node>, at: Index, added: seq<Prefix>, a: Prefix)
    requires MarkedBy(nodes, at, added) && a in added
    ensures a in at
  {
  }

  /** Without edges at the root only the empty prefix can have been added, or nothing. */
  lemma RootOnly(nodes: seq<Node>, at: Index, added: seq<Prefix>, peerID: seq<Byte>)
    requires Shaped(nodes, at) && MarkedBy(nodes, at, added) && (added == [] ==> nodes[0].children == map[])
    ensures [] in at && at[[]] == 0 < |nodes| && peerID[..0] == []
    ensures |nodes[0].children| == 0 ==> Allowed(added, peerID)
    ensures |nodes[0].children| != 0 ==> added != []
  {
    if |nodes[0].children| == 0 && added != [] && added[0] != [] {
      FirstEdge(nodes, at, added[0]);
    }
  }

  function Flagged(nodes: seq<Node>, n: nat): seq<Node>
    requires n < |nodes|
  {
    nodes[n := nodes[n].(isPrefix := true)]
  }

  lemma MarkShaped(nodes: seq<Node>, at: Index, n: nat)
    requires Shaped(nodes, at) && n < |nodes|
    ensures Shaped(Flagged(nodes, n), at)
  {
    var nodes' := Flagged(nodes, n);
    assert forall i :: 0 <= i < |nodes| ==> nodes'[i].children == nodes[i].children;
    forall p | p in at && p != [] ensures Hangs(nodes', at, p) {
      assert Hangs(nodes, at, p);
    }
  }

  /** One step of the walk, when the path so far is not itself a listed prefix. */
  lemma StepOn(nodes: seq<Node>, at: Index, added: seq<Prefix>, peerID: seq<Byte>, i: nat)
    requires Shaped(nodes, at) && MarkedBy(nodes, at, added) && i < |peerID|
    requires peerID[..i] in at && peerID[..i] !in added
    requires forall a :: a in added && a <= peerID ==> |a| >= i
    ensures var n := at[peerID[..i]];
      n < |nodes| && (peerID[i] in nodes[n].children <==> peerID[..i + 1] in at)
    ensures peerID[..i + 1] in at ==>
      nodes[at[peerID[..i]]].children[peerID[i]] == at[peerID[..i + 1]] < |nodes|
    ensures forall a :: a in added && a <= peerID ==> |a| >= i + 1 && peerID[..i + 1] in at
  {
    hide Shaped, MarkedBy;
    assert peerID[..i + 1] == peerID[..i] + [peerID[i]];
    MarkedAt(nodes, at, added, peerID[..i]);
    EdgeLeads(nodes, at, peerID[..i], peerID[i]);
    if peerID[..i + 1] in at {
      MarkedAt(nodes, at, added, peerID[..i + 1]);
    }
    forall a | a in added && a <= peerID ensures |a| >= i + 1 && peerID[..i + 1] in at {
      AddedIsThere(nodes, at, added, a);
      MatchContinues(nodes, at, a, peerID, i);
    }
  }

  function Grown(nodes: seq<Node>, n: nat, c: Byte): seq<Node>
    requires n < |nodes|
  {
    nodes[n := nodes[n].(children := nodes[n].children[c := |nodes|])] + [Node(map[], false)]
  }

  class Trie {
    var nodes: seq<Node>
    ghost var at: Index
    ghost var added: seq<Prefix>  // every prefix added, in order

    ghost predicate Valid()
      reads this
    {
      Shaped(nodes, at) && MarkedBy(nodes, at, added) && (added == [] ==> nodes[0].children == map[])
    }

    constructor ()
      ensures Valid() && added == []
    {
      nodes, at, added := [Node(map[], false)], map[[] := 0], [];
    }

    method Add(prefix: Prefix)
      requires Valid()
      modifies this
      ensures Valid() && added == old(added) + [prefix]
    {
      RootOnly(nodes, at, added, prefix);
      hide Shaped, MarkedBy;
      var node := 0;
      for i := 0 to |prefix|
        invariant Shaped(nodes, at) && MarkedBy(nodes, at, added) && added == old(added)
        invariant prefix[..i] in at && at[prefix[..i]] == node < |nodes|
      {
        var c := prefix[i];
        assert prefix[..i + 1] == prefix[..i] + [c];
        EdgeLeads(nodes, at, prefix[..i], c);
        if c !in nodes[node].children {
          Grow(prefix[..i], node, c);
        }
        MarkedAt(nodes, at, added, prefix[..i]);
        MarkedAt(nodes, at, added, prefix[..i + 1]);
        EdgeLeads(nodes, at, prefix[..i], c);
        node := nodes[node].children[c];
      }
      assert prefix[..|prefix|] == prefix;
      Mark(prefix, node);
    }

    method Grow(ghost p: Prefix, node: nat, c: Byte)
      requires Shaped(nodes, at) && MarkedBy(nodes, at, added) && p in at && at[p] == node && p + [c] !in at
      modifies this
      ensures Shaped(nodes, at) && MarkedBy(nodes, at, added) && added == old(added)
      ensures at == old(at)[p + [c] := |old(nodes)|]
    {
      GrowShaped(nodes, at, p, c);
      ghost var was := nodes;
      nodes := Grown(nodes, node, c);
      at := at[p + [c] := |was|];
      assert forall i :: 0 <= i < |was| ==> nodes[i].isPrefix == was[i].isPrefix;
    }

    method Mark(ghost prefix: Prefix, node: nat)
      requires Shaped(nodes, at) && MarkedBy(nodes, at, added) && prefix in at && at[prefix] == node
      modifies this
      ensures Shaped(nodes, at) && MarkedBy(nodes, at, added) && at == old(at)
      ensures added == old(added) + [prefix]
    {
      MarkShaped(nodes, at, node);
      assert forall p :: p in at && at[p] == node ==> p == prefix;
      hide Shaped;
      nodes := Flagged(nodes, node);
      added := added + [prefix];
    }

    method IsAllowed(peerID: seq<Byte>) returns (ok: bool)
      requires Valid()
      ensures ok <==> Allowed(added, peerID)
    {
      RootOnly(nodes, at, added, peerID);
      if |nodes[0].children| == 0 {
        return true;
      }
      hide Shaped, MarkedBy;
      var node := 0;
      for i := 0 to |peerID|
        invariant peerID[..i] in at && at[peerID[..i]] == node < |nodes|
        invariant forall a :: a in added && a <= peerID ==> |a| >= i
      {
        MarkedAt(nodes, at, added, peerID[..i]);
        if nodes[node].isPrefix {
          assert peerID[..i] <= peerID;
          return true;
        }
        StepOn(nodes, at, added, peerID, i);
        var c := peerID[i];
        if c !in nodes[node].children {
          return false;
        }
        node := nodes[node].children[c];
      }
      assert peerID[..|peerID|] == peerID;
      MarkedAt(nodes, at, added, peerID);
      assert forall a :: a in added && a <= peerID ==> a == peerID;
      return nodes[node].isPrefix;
    }
  }

  method BuildTrieFromSlice(prefixes: seq<Prefix>) returns (trie: Trie)
    ensures trie.Valid() && trie.added == prefixes
  {
    trie := new Trie();
    for i := 0 to |prefixes|
      invariant trie.Valid() && fresh(trie) && trie.added == prefixes[..i]
    {
      trie.Add(prefixes[i]);
    }
  }

  /** For every prefix list and every peer ID the trie gives the answer of the linear scan. */
  method TrieMatchesScan(list: Linear, peerID: seq<Byte>) returns (byTrie: bool, byScan: bool)
    ensures byTrie == byScan
    ensures byTrie <==> Allowed(list.prefixes, peerID)
  {
    var trie := BuildTrieFromSlice(list.prefixes);
    byTrie := trie.IsAllowed(peerID);
    byScan := list.IsAllowed(peerID);
  }
}
