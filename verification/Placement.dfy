/** Ranking nodes and placing replicas greedily over failure domains. */
module Placement {
  import opened Options

  datatype Candidate = Candidate(node: nat, domain: string, score: real)

  // ----- Specification -----

  function Domains(s: seq<Candidate>): set<string> {
    set c | c in s :: c.domain
  }

  function Nodes(s: seq<Candidate>): set<nat> {
    set c | c in s :: c.node
  }

  ghost predicate DistinctNodes(s: seq<Candidate>) {
    forall i, j :: 0 <= i < j < |s| ==> s[i].node != s[j].node
  }

  /** First pass: the first candidate of each domain, up to `needed`. */
  function Firsts(s: seq<Candidate>, needed: nat): (r: seq<Candidate>)
    ensures |r| <= needed
  {
    if s == [] then []
    else
      var r, c := Firsts(s[..|s| - 1], needed), s[|s| - 1];
      if |r| < needed && c.domain !in Domains(r) then r + [c] else r
  }

  /** Second pass: the best candidates not selected yet, up to `needed`. */
  function Filled(sel: seq<Candidate>, s: seq<Candidate>, needed: nat): (r: seq<Candidate>)
    ensures sel <= r && |r| <= Max(needed, |sel|)
  {
    if s == [] then sel
    else
      var r, c := Filled(sel, s[..|s| - 1], needed), s[|s| - 1];
      if |r| < needed && c.node !in Nodes(r) then r + [c] else r
  }

  function Placed(ranked: seq<Candidate>, needed: nat): seq<Candidate> {
    Filled(Firsts(ranked, needed), ranked, needed)
  }

  // ----- What the two passes achieve -----

  lemma DomainsAppend(s: seq<Candidate>, c: Candidate)
    ensures Domains(s + [c]) == Domains(s) + {c.domain}
    ensures Nodes(s + [c]) == Nodes(s) + {c.node}
  {
    forall d | d in Domains(s) + {c.domain} ensures d in Domains(s + [c]) {
      if d == c.domain {
        assert c in s + [c];
      } else {
        var x :| x in s && x.domain == d;
        assert x in s + [c];
      }
    }
    forall n | n in Nodes(s) + {c.node} ensures n in Nodes(s + [c]) {
      if n == c.node {
        assert c in s + [c];
      } else {
        var x :| x in s && x.node == n;
        assert x in s + [c];
      }
    }
  }

  lemma {:induction false} AtMostOneDomainEach(s: seq<Candidate>)
    ensures |Domains(s)| <= |s|
  {
    if s == [] {
      assert Domains(s) == {};
    } else {
      var f, c := s[..|s| - 1], s[|s| - 1];
      AtMostOneDomainEach(f);
      DomainsAppend(f, c);
      assert s == f + [c];
    }
  }

  lemma LastIsNew(f: seq<Candidate>, c: Candidate)
    requires DistinctNodes(f + [c])
    ensures DistinctNodes(f) && c.node !in Nodes(f)
  {
    var s := f + [c];
    assert s[|f|] == c && forall i :: 0 <= i < |f| ==> s[i] == f[i];
  }

  lemma {:induction false} NodesCount(s: seq<Candidate>)
    requires DistinctNodes(s)
    ensures |Nodes(s)| == |s|
  {
    if s == [] {
      assert Nodes(s) == {};
    } else {
      hide Nodes, Domains, DistinctNodes;
      var f, c := s[..|s| - 1], s[|s| - 1];
      assert s == f + [c];
      LastIsNew(f, c);
      NodesCount(f);
      DomainsAppend(f, c);
    }
  }

  /** The first pass covers as many domains as it has picks, and stops short of `needed` only when
      every domain is covered. */
  lemma {:induction false} FirstsCover(s: seq<Candidate>, needed: nat)
    ensures var r := Firsts(s, needed);
      && Domains(r) <= Domains(s)
      && |Domains(r)| == |r|
      && (|r| < needed ==> Domains(r) == Domains(s))
  {
    if s == [] {
      assert Domains(s) == {};
    } else {
      var f, c := s[..|s| - 1], s[|s| - 1];
      FirstsCover(f, needed);
      DomainsAppend(f, c);
      DomainsAppend(Firsts(f, needed), c);
      assert s == f + [c];
    }
  }

  /** Each first-pass pick is the highest-ranked candidate of its domain. */
  lemma {:induction false} FirstsAreHighest(s: seq<Candidate>, needed: nat, k: nat)
    requires k < |Firsts(s, needed)|
    ensures exists i ::
      0 <= i < |s| && s[i] == Firsts(s, needed)[k] && (forall j :: 0 <= j < i ==> s[j].domain != s[i].domain)
  {
    var f, c := s[..|s| - 1], s[|s| - 1];
    var r := Firsts(f, needed);
    if k < |r| {
      FirstsAreHighest(f, needed, k);
      var i :| 0 <= i < |f| && f[i] == r[k] && forall j :: 0 <= j < i ==> f[j].domain != f[i].domain;
      assert s[i] == Firsts(s, needed)[k];
    } else {
      FirstsCover(f, needed);
      assert forall j :: 0 <= j < |f| ==> f[j] in f && s[j] == f[j];
      assert s[|s| - 1] == Firsts(s, needed)[k];
    }
  }

  lemma {:induction false} FirstsFromInput(s: seq<Candidate>, needed: nat)
    requires DistinctNodes(s)
    ensures DistinctNodes(Firsts(s, needed))
    ensures forall c :: c in Firsts(s, needed) ==> c in s
  {
    hide Domains;
    if s != [] {
      var f, c := s[..|s| - 1], s[|s| - 1];
      FirstsFromInput(f, needed);
      var r := Firsts(f, needed);
      forall i | 0 <= i < |r| ensures r[i].node != c.node && r[i] in s {
        assert r[i] in f;
      }
    }
  }

  /** The second pass adds distinct candidates of the input and stops short of `needed` only when
      nothing is left. */
  lemma {:induction false} FilledFills(sel: seq<Candidate>, s: seq<Candidate>, needed: nat)
    requires DistinctNodes(sel)
    ensures var r := Filled(sel, s, needed);
      && DistinctNodes(r)
      && (forall c :: c in r ==> c in sel || c in s)
      && (|r| < needed ==> Nodes(s) <= Nodes(r))
  {
    if s == [] {
      assert Nodes(s) == {};
    } else {
      var f, c := s[..|s| - 1], s[|s| - 1];
      FilledFills(sel, f, needed);
      var r := Filled(sel, f, needed);
      DomainsAppend(f, c);
      DomainsAppend(r, c);
      assert s == f + [c];
      if |r| < needed && c.node !in Nodes(r) {
        assert forall i :: 0 <= i < |r| ==> r[i] in r;
      }
    }
  }

  lemma SubsetDomains(s: seq<Candidate>, t: seq<Candidate>)
    requires forall c :: c in s ==> c in t
    ensures Domains(s) <= Domains(t) && Nodes(s) <= Nodes(t)
  {
  }

  lemma SubsetCount<T>(a: set<T>, b: set<T>)
    requires a <= b
    ensures |a| <= |b|
  {
    assert b == a + (b - a);
  }

  /** With no node repeated, min(needed, n) distinct nodes. */
  lemma PlacedNodes(ranked: seq<Candidate>, needed: nat)
    requires DistinctNodes(ranked)
    ensures var r := Placed(ranked, needed);
      |r| == Min(needed, |ranked|) && DistinctNodes(r) && forall c :: c in r ==> c in ranked
  {
    hide Domains, Nodes, Filled, Firsts;
    var f, r := Firsts(ranked, needed), Placed(ranked, needed);
    FirstsFromInput(ranked, needed);
    FilledFills(f, ranked, needed);
    SubsetDomains(r, ranked);
    NodesCount(r);
    NodesCount(ranked);
    SubsetCount(Nodes(r), Nodes(ranked));
    if |r| < needed {
      SubsetCount(Nodes(ranked), Nodes(r));
    }
  }

  lemma {:induction false} FromInput(s: seq<Candidate>, needed: nat)
    ensures forall c :: c in Firsts(s, needed) ==> c in s
  {
    hide Domains;
    if s != [] {
      FromInput(s[..|s| - 1], needed);
    }
  }

  lemma {:induction false} FilledFrom(sel: seq<Candidate>, s: seq<Candidate>, needed: nat)
    ensures forall c :: c in Filled(sel, s, needed) ==> c in sel || c in s
  {
    hide Nodes;
    if s != [] {
      FilledFrom(sel, s[..|s| - 1], needed);
    }
  }

  /** For every list, repeated nodes included: candidates of the list only, at most `needed`, covering
      min(needed, number of domains) failure domains. */
  lemma PlacedCovers(ranked: seq<Candidate>, needed: nat)
    ensures var r := Placed(ranked, needed);
      && |r| <= needed && (forall c :: c in r ==> c in ranked)
      && |Domains(r)| == Min(needed, |Domains(ranked)|)
  {
    hide Domains, Nodes, Filled, Firsts;
    var f, r := Firsts(ranked, needed), Placed(ranked, needed);
    FirstsCover(ranked, needed);
    FromInput(ranked, needed);
    FilledFrom(f, ranked, needed);
    SubsetDomains(r, ranked);
    SubsetDomains(f, r);
    SubsetCount(Domains(f), Domains(r));
    SubsetCount(Domains(r), Domains(ranked));
    AtMostOneDomainEach(r);
  }

  /** No selection of that size covers more domains. */
  lemma PlacedIsOptimal(ranked: seq<Candidate>, needed: nat, other: seq<Candidate>)
    requires |other| <= needed && forall c :: c in other ==> c in ranked
    ensures |Domains(other)| <= |Domains(Placed(ranked, needed))|
  {
    PlacedCovers(ranked, needed);
    AtMostOneDomainEach(other);
    SubsetDomains(other, ranked);
    SubsetCount(Domains(other), Domains(ranked));
  }

  // ----- When a node is placed twice -----

  /** The candidate at `i` is the first of its domain, and fewer than `needed` domains come before it. */
  ghost predicate Heads(s: seq<Candidate>, needed: nat, i: nat)
    requires i < |s|
  {
    s[i].domain !in Domains(s[..i]) && |Domains(s[..i])| < needed
  }

  /** No node heads two of the first `needed` domains. */
  ghost predicate HeadsOneDomainEach(s: seq<Candidate>, needed: nat) {
    forall i, j :: 0 <= i < j < |s| && Heads(s, needed, i) && Heads(s, needed, j) ==> s[i].node != s[j].node
  }

  lemma HeadsPrefix(f: seq<Candidate>, c: Candidate, needed: nat, i: nat)
    requires i < |f|
    ensures Heads(f + [c], needed, i) <==> Heads(f, needed, i)
  {
    assert (f + [c])[..i] == f[..i];
  }

  /** The first pass takes exactly the heads. */
  lemma FirstsStep(f: seq<Candidate>, c: Candidate, needed: nat)
    ensures Firsts(f + [c], needed) ==
            if Heads(f + [c], needed, |f|) then Firsts(f, needed) + [c] else Firsts(f, needed)
  {
    FirstsCover(f, needed);
    SubsetCount(Domains(Firsts(f, needed)), Domains(f));
    assert (f + [c])[..|f|] == f;
    hide Domains;
  }

  lemma {:induction false} FirstsNodes(s: seq<Candidate>, needed: nat, n: nat)
    ensures n in Nodes(Firsts(s, needed)) <==> exists i :: 0 <= i < |s| && Heads(s, needed, i) && s[i].node == n
  {
    if s != [] {
      var f, c := s[..|s| - 1], s[|s| - 1];
      assert s == f + [c];
      FirstsNodes(f, needed, n);
      FirstsStep(f, c, needed);
      DomainsAppend(Firsts(f, needed), c);
      forall i | 0 <= i < |f| ensures Heads(s, needed, i) <==> Heads(f, needed, i) {
        HeadsPrefix(f, c, needed, i);
      }
      hide Heads, Firsts, Nodes, Domains;
      assert forall i :: 0 <= i < |f| ==> f[i] == s[i];
    }
  }

  lemma DistinctAppend(r: seq<Candidate>, c: Candidate)
    ensures DistinctNodes(r + [c]) <==> DistinctNodes(r) && c.node !in Nodes(r)
  {
    if DistinctNodes(r + [c]) {
      LastIsNew(r, c);
    }
    assert forall i :: 0 <= i < |r| ==> r[i] in r && r[i].node in Nodes(r);
  }

  lemma {:induction false} FirstsDistinctIff(s: seq<Candidate>, needed: nat)
    ensures DistinctNodes(Firsts(s, needed)) <==> HeadsOneDomainEach(s, needed)
  {
    if s != [] {
      var f, c := s[..|s| - 1], s[|s| - 1];
      assert s == f + [c];
      FirstsDistinctIff(f, needed);
      FirstsStep(f, c, needed);
      FirstsNodes(f, needed, c.node);
      DistinctAppend(Firsts(f, needed), c);
      forall i | 0 <= i < |f| ensures Heads(s, needed, i) <==> Heads(f, needed, i) {
        HeadsPrefix(f, c, needed, i);
      }
      hide Heads, Firsts, Nodes, Domains, DistinctNodes;
      assert forall i :: 0 <= i < |f| ==> f[i] == s[i];
      assert s[|f|] == c;
    }
  }

  lemma {:induction false} FilledDistinctIff(sel: seq<Candidate>, s: seq<Candidate>, needed: nat)
    ensures DistinctNodes(Filled(sel, s, needed)) <==> DistinctNodes(sel)
  {
    if s != [] {
      FilledDistinctIff(sel, s[..|s| - 1], needed);
      DistinctAppend(Filled(sel, s[..|s| - 1], needed), s[|s| - 1]);
      hide DistinctNodes, Nodes;
    }
  }

  /** The second pass looks at nodes, the first at domains only: the placement repeats no node exactly when
      no node heads two of the first `needed` domains. */
  lemma PlacedDistinctIff(ranked: seq<Candidate>, needed: nat)
    ensures DistinctNodes(Placed(ranked, needed)) <==> HeadsOneDomainEach(ranked, needed)
  {
    hide DistinctNodes, HeadsOneDomainEach, Firsts, Filled;
    FirstsDistinctIff(ranked, needed);
    FilledDistinctIff(Firsts(ranked, needed), ranked, needed);
  }

  /** A node listed twice, in two domains, is placed twice. */
  lemma DuplicateNodePlacedTwice()
    ensures exists ranked :: !DistinctNodes(ranked) && !DistinctNodes(Placed(ranked, 2))
  {
    var a, b := Candidate(1, "a", 1.0), Candidate(1, "b", 0.5);
    var ranked := [a, b];
    assert ranked[..1] == [a] && [a][..0] == [];
    assert Firsts([], 2) == [] && Domains([]) == {};
    assert Firsts([a], 2) == [a];
    DomainsAppend([], a);
    assert [] + [a] == [a];
    assert Firsts(ranked, 2) == [a, b];
    var r := Placed(ranked, 2);
    assert r[0] == a && r[1] == b;
  }

  // ----- The code -----

  method GreedyPlace(ranked: seq<Candidate>, needed: nat) returns (selected: seq<Candidate>)
    ensures selected == Placed(ranked, needed)
  {
    selected := FirstPass(ranked, needed);
    selected := SecondPass(selected, ranked, needed);
  }

  /** One node per failure domain. */
  method FirstPass(ranked: seq<Candidate>, needed: nat) returns (selected: seq<Candidate>)
    ensures selected == Firsts(ranked, needed)
  {
    var covered: set<string> := {};
    selected := [];
    assert Domains([]) == {};
    hide Domains, Nodes;
    var i := 0;
    while i < |ranked| && |selected| < needed
      invariant 0 <= i <= |ranked|
      invariant selected == Firsts(ranked[..i], needed) && covered == Domains(selected)
    {
      var c := ranked[i];
      assert ranked[..i + 1][..i] == ranked[..i];
      DomainsAppend(selected, c);
      if c.domain !in covered {
        selected := selected + [c];
        covered := covered + {c.domain};
      }
      i := i + 1;
    }
    FirstsDone(ranked, needed, i);
  }

  /** Fill the remaining slots from the highest-scored candidates. */
  method SecondPass(sel: seq<Candidate>, ranked: seq<Candidate>, needed: nat) returns (selected: seq<Candidate>)
    ensures selected == Filled(sel, ranked, needed)
  {
    hide Nodes;
    selected := sel;
    var i := 0;
    while i < |ranked| && |selected| < needed
      invariant 0 <= i <= |ranked|
      invariant selected == Filled(sel, ranked[..i], needed)
    {
      var c := ranked[i];
      assert ranked[..i + 1][..i] == ranked[..i];
      var already := Contains(selected, c.node);
      if !already {
        selected := selected + [c];
      }
      i := i + 1;
    }
    FilledDone(sel, ranked, needed, i);
  }

  method Contains(selected: seq<Candidate>, node: nat) returns (found: bool)
    ensures found <==> node in Nodes(selected)
  {
    for i := 0 to |selected|
      invariant forall j :: 0 <= j < i ==> selected[j].node != node
    {
      if selected[i].node == node {
        return true;
      }
    }
    return false;
  }

  /** Leaving the first loop early changes nothing. */
  lemma {:induction false} FirstsDone(s: seq<Candidate>, needed: nat, i: nat)
    requires i <= |s| && (i == |s| || |Firsts(s[..i], needed)| >= needed)
    ensures Firsts(s, needed) == Firsts(s[..i], needed)
  {
    if i == |s| {
      assert s[..i] == s;
    } else {
      assert s[..|s| - 1][..i] == s[..i];
      FirstsDone(s[..|s| - 1], needed, i);
    }
  }

  lemma {:induction false} FilledDone(sel: seq<Candidate>, s: seq<Candidate>, needed: nat, i: nat)
    requires i <= |s| && (i == |s| || |Filled(sel, s[..i], needed)| >= needed)
    ensures Filled(sel, s, needed) == Filled(sel, s[..i], needed)
  {
    if i == |s| {
      assert s[..i] == s;
    } else {
      assert s[..|s| - 1][..i] == s[..i];
      FilledDone(sel, s[..|s| - 1], needed, i);
    }
  }

  // ----- Ranking -----

  datatype Weights = Weights(compute: real, artifact: real, queue: real, network: real, reliability: real)

  datatype Input = Input(compute: real, artifact: real, queue: real, network: real, reliability: real)

  /** An unavailable queue or network input counts as zero. */
  function Score(w: Weights, in': Input): real {
    w.compute * in'.compute + w.artifact * in'.artifact
    + w.queue * (if in'.queue < 0.0 then 0.0 else in'.queue)
    + w.network * (if in'.network < 0.0 then 0.0 else in'.network)
    + w.reliability * in'.reliability
  }

  function Available(x: real): real { if x < 0.0 then 0.0 else x }

  /** One more unit of a weight adds the input it weighs, whatever the other weights are. */
  lemma ScoreWeighs(w: Weights, x: Input)
    ensures Score(Weights(0.0, 0.0, 0.0, 0.0, 0.0), x) == 0.0
    ensures Score(w.(compute := w.compute + 1.0), x) == Score(w, x) + x.compute
    ensures Score(w.(artifact := w.artifact + 1.0), x) == Score(w, x) + x.artifact
    ensures Score(w.(queue := w.queue + 1.0), x) == Score(w, x) + Available(x.queue)
    ensures Score(w.(network := w.network + 1.0), x) == Score(w, x) + Available(x.network)
    ensures Score(w.(reliability := w.reliability + 1.0), x) == Score(w, x) + x.reliability
  {
  }

  ghost predicate Descending(s: seq<Candidate>) {
    forall i, j :: 0 <= i < j < |s| ==> s[i].score >= s[j].score
  }

  method SwapAt(a: array<Candidate>, i: nat, j: nat)
    requires i < a.Length && j < a.Length
    modifies a
    ensures a[..] == old(a[..])[i := old(a[j])][j := old(a[i])]
    ensures multiset(a[..]) == old(multiset(a[..]))
  {
    a[i], a[j] := a[j], a[i];
  }

  /** Move the element at `i` left past every strictly lower score. */
  method Insert(a: array<Candidate>, i: nat)
    requires i < a.Length && Descending(a[..i])
    modifies a
    ensures Descending(a[..i + 1])
    ensures multiset(a[..]) == old(multiset(a[..]))
  {
    var j := i;
    while j > 0 && a[j].score > a[j - 1].score
      invariant j <= i
      invariant forall p, q :: 0 <= p < q <= i && q != j ==> a[p].score >= a[q].score
      invariant multiset(a[..]) == old(multiset(a[..]))
    {
      SwapAt(a, j, j - 1);
      j := j - 1;
    }
  }

  /** The in-place insertion sort shared by both rankings. */
  method SortDescending(a: array<Candidate>)
    modifies a
    ensures Descending(a[..])
    ensures multiset(a[..]) == old(multiset(a[..]))
  {
    var i := 1;
    while i < a.Length
      invariant 1 <= i && (i <= a.Length || a.Length == 0)
      invariant Descending(a[..Min(i, a.Length)])
      invariant multiset(a[..]) == old(multiset(a[..]))
    {
      Insert(a, i);
      i := i + 1;
    }
    assert a[..] == a[..a.Length];
  }

  lemma {:induction false} OnceEach(s: seq<Candidate>, x: Candidate)
    requires DistinctNodes(s)
    ensures multiset(s)[x] <= 1
  {
    if s != [] {
      var f, c := s[..|s| - 1], s[|s| - 1];
      OnceEach(f, x);
      assert s == f + [c];
      if x == c {
        assert forall i :: 0 <= i < |f| ==> f[i] == s[i] && f[i] != c;
        assert x !in f;
      }
    }
  }

  lemma TwiceInThere(t: seq<Candidate>, i: nat, j: nat)
    requires i < j < |t| && t[i] == t[j]
    ensures multiset(t)[t[i]] >= 2
  {
    assert t == t[..j] + t[j..];
    assert t[i] == t[..j][i] && t[j] == t[j..][0];
    assert t[i] in multiset(t[..j]) && t[i] in multiset(t[j..]);
  }

  /** A rearrangement of candidates with distinct nodes still has distinct nodes. */
  lemma SortedDistinct(s: seq<Candidate>, t: seq<Candidate>)
    requires DistinctNodes(s) && multiset(s) == multiset(t)
    ensures DistinctNodes(t)
  {
    forall i, j | 0 <= i < j < |t| ensures t[i].node != t[j].node {
      if t[i].node == t[j].node {
        assert t[i] in multiset(t) && t[j] in multiset(t);
        var p :| 0 <= p < |s| && s[p] == t[i];
        var q :| 0 <= q < |s| && s[q] == t[j];
        assert p == q;
        OnceEach(s, t[i]);
        TwiceInThere(t, i, j);
      }
    }
  }

  function CandidateFor(w: Weights, inputs: map<nat, Input>, domains: map<nat, string>, id: nat): Candidate
    requires id in inputs
  {
    Candidate(id, if id in domains then domains[id] else "", Score(w, inputs[id]))
  }

  /** A candidate carries its node's own score and domain, or no domain if none is known. */
  lemma CandidateCarries(w: Weights, inputs: map<nat, Input>, domains: map<nat, string>, id: nat)
    requires id in inputs
    ensures
      var c := CandidateFor(w, inputs, domains, id);
      c.node == id && c.score == Score(w, inputs[id]) && (id in domains ==> c.domain == domains[id])
      && (id !in domains ==> c.domain == "")
  {
  }

  /** One candidate per node, best score first; map iteration order is arbitrary. */
  method RankNodes(w: Weights, inputs: map<nat, Input>, domains: map<nat, string>) returns (ranked: seq<Candidate>)
    ensures Descending(ranked) && DistinctNodes(ranked) && |ranked| == |inputs|
    ensures forall c :: c in ranked <==> c.node in inputs && c == CandidateFor(w, inputs, domains, c.node)
  {
    var out := Collect(w, inputs, domains);
    hide Score;
    var a := new Candidate[|out|](i requires 0 <= i < |out| => out[i]);
    assert a[..] == out;
    SortDescending(a);
    ranked := a[..];
    SortedDistinct(out, ranked);
    forall c ensures c in ranked <==> c in out {
      assert c in multiset(ranked) <==> c in multiset(out);
    }
    assert |multiset(ranked)| == |multiset(out)|;
  }

  method Collect(w: Weights, inputs: map<nat, Input>, domains: map<nat, string>) returns (out: seq<Candidate>)
    ensures DistinctNodes(out) && |out| == |inputs|
    ensures forall c :: c in out <==> c.node in inputs && c == CandidateFor(w, inputs, domains, c.node)
  {
    hide Score;
    out := [];
    var todo := inputs.Keys;
    while todo != {}
      invariant todo <= inputs.Keys && |out| + |todo| == |inputs|
      invariant DistinctNodes(out)
      invariant forall c :: c in out <==> c.node in inputs && c.node !in todo && c == CandidateFor(w, inputs, domains, c.node)
      decreases todo
    {
      var id :| id in todo;
      todo := todo - {id};
      assert forall i :: 0 <= i < |out| ==> out[i] in out;
      out := out + [CandidateFor(w, inputs, domains, id)];
    }
  }
}
