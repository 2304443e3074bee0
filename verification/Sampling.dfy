/** Reservoir sampling with the random draws as an argument: exact statements about all draw
    sequences. */
module Sampling {
  import opened Seqs

  // ----- Reservoir sampling -----

  /** Draw number `t` is taken from [0, k + t], as `rand.Intn(i + 1)` with i == k + t. */
  ghost predicate IsDraws(k: nat, d: seq<nat>) {
    forall t :: 0 <= t < |d| ==> d[t] <= k + t
  }

  /** Stream positions held in the reservoir after k + |d| elements. */
  function Reservoir(k: nat, d: seq<nat>): (r: seq<nat>)
    ensures |r| == k
    decreases |d|
  {
    if d == [] then seq(k, i => i)
    else
      var r, j := Reservoir(k, d[..|d| - 1]), d[|d| - 1];
      if j < k then r[j := k + |d| - 1] else r
  }

  /** No stream position is taken twice. */
  lemma {:induction false} ReservoirDistinct(k: nat, d: seq<nat>)
    ensures Distinct(Reservoir(k, d))
    ensures forall i :: 0 <= i < k ==> Reservoir(k, d)[i] < k + |d|
    decreases |d|
  {
    if d != [] {
      ReservoirDistinct(k, d[..|d| - 1]);
    }
  }

  /** All draw sequences for a reservoir of `k` over a stream of `n`. */
  ghost function AllDraws(k: nat, n: nat): set<seq<nat>>
    requires k <= n
  {
    if n == k then {[]} else Extended(Each(AllDraws(k, n - 1), Below(n)))
  }

  ghost function Below(n: nat): (s: set<nat>)
    ensures forall j: nat :: j in s <==> j < n
    ensures |s| == n
  {
    if n == 0 then {} else Below(n - 1) + {n - 1}
  }

  ghost function Each(ds: set<seq<nat>>, js: set<nat>): map<seq<nat>, set<nat>> {
    map d | d in ds :: js
  }

  /** Each sequence extended by one draw out of its own set of draws. */
  ghost function Extended(choices: map<seq<nat>, set<nat>>): set<seq<nat>> {
    set d, j | d in choices && j in choices[d] :: d + [j]
  }

  lemma InExtended(choices: map<seq<nat>, set<nat>>, x: seq<nat>)
    ensures x in Extended(choices) <==>
      |x| > 0 && x[..|x| - 1] in choices && x[|x| - 1] in choices[x[..|x| - 1]]
  {
    if x in Extended(choices) {
      var d, j :| d in choices && j in choices[d] && x == d + [j];
      assert x[..|x| - 1] == d;
    } else if |x| > 0 {
      assert x == x[..|x| - 1] + [x[|x| - 1]];
    }
  }

  lemma {:induction false} AllDrawsAreDraws(k: nat, n: nat, d: seq<nat>)
    requires k <= n
    ensures d in AllDraws(k, n) <==> |d| == n - k && IsDraws(k, d)
    decreases n
  {
    hide Extended, IsDraws, Below;
    if n > k {
      InDraws(k, n, d);
      hide AllDraws;
      if |d| > 0 {
        AllDrawsAreDraws(k, n - 1, d[..|d| - 1]);
        DrawsSplit(k, d);
      }
    } else if d == [] {
      DrawsEmpty(k);
    }
  }

  lemma InDraws(k: nat, n: nat, d: seq<nat>)
    requires k < n
    ensures d in AllDraws(k, n) <==> |d| > 0 && d[..|d| - 1] in AllDraws(k, n - 1) && d[|d| - 1] < n
  {
    hide Extended, Below;
    InExtended(Each(AllDraws(k, n - 1), Below(n)), d);
  }

  lemma DrawsEmpty(k: nat)
    ensures IsDraws(k, [])
  {
  }

  lemma DrawsSplit(k: nat, d: seq<nat>)
    requires |d| > 0
    ensures IsDraws(k, d) <==> IsDraws(k, d[..|d| - 1]) && d[|d| - 1] <= k + |d| - 1
  {
    if IsDraws(k, d[..|d| - 1]) && d[|d| - 1] <= k + |d| - 1 {
      forall t | 0 <= t < |d| ensures d[t] <= k + t {
        if t < |d| - 1 {
          assert d[..|d| - 1][t] == d[t];
        }
      }
    }
  }

  // ----- Counting -----

  ghost function AppendEach(d: seq<nat>, js: set<nat>): set<seq<nat>> {
    set j | j in js :: d + [j]
  }

  lemma {:induction false} AppendEachSize(d: seq<nat>, js: set<nat>)
    ensures |AppendEach(d, js)| == |js|
  {
    if js == {} {
      assert AppendEach(d, js) == {};
    } else {
      var j :| j in js;
      AppendEachSize(d, js - {j});
      assert AppendEach(d, js) == AppendEach(d, js - {j}) + {d + [j]};
      forall i | i in js - {j} ensures d + [i] != d + [j] {
        assert (d + [i])[|d|] != (d + [j])[|d|];
      }
    }
  }

  lemma OneMore(a: int, c: int)
    ensures a * c + c == (a + 1) * c
  {
  }

  /** If every sequence has `c` ways to go on, extending multiplies the number by `c`. */
  lemma {:induction false} ExtendedSize(choices: map<seq<nat>, set<nat>>, c: nat)
    requires forall d :: d in choices ==> |choices[d]| == c
    ensures |Extended(choices)| == |choices| * c
    decreases |choices|
  {
    if choices == map[] {
      assert Extended(choices) == {};
    } else {
      hide Extended, AppendEach;
      var d :| d in choices;
      var rest := choices - {d};
      assert |rest| == |choices| - 1 by {
        assert rest.Keys == choices.Keys - {d};
      }
      ExtendedSize(rest, c);
      AppendEachSize(d, choices[d]);
      ExtendedSplits(choices, d);
      OneMore(|rest|, c);
    }
  }

  lemma ExtendedSplits(choices: map<seq<nat>, set<nat>>, d: seq<nat>)
    requires d in choices
    ensures Extended(choices) == Extended(choices - {d}) + AppendEach(d, choices[d])
    ensures Extended(choices - {d}) !! AppendEach(d, choices[d])
  {
    hide Extended;
    forall x: seq<nat>
      ensures x in Extended(choices) <==> x in Extended(choices - {d}) || x in AppendEach(d, choices[d])
      ensures !(x in Extended(choices - {d}) && x in AppendEach(d, choices[d]))
    {
      InExtended(choices, x);
      InExtended(choices - {d}, x);
      if x in AppendEach(d, choices[d]) {
        assert x[..|x| - 1] == d;
      } else if |x| > 0 {
        assert x == x[..|x| - 1] + [x[|x| - 1]];
      }
    }
  }

  lemma AllDrawsSize(k: nat, n: nat)
    requires k < n
    ensures |AllDraws(k, n)| == |AllDraws(k, n - 1)| * n
  {
    var choices := Each(AllDraws(k, n - 1), Below(n));
    ExtendedSize(choices, n);
    assert choices.Keys == AllDraws(k, n - 1);
  }

  /** The draw sequences that put stream position `m` into the reservoir. */
  ghost function Selecting(k: nat, n: nat, m: nat): set<seq<nat>>
    requires k <= n
  {
    set d | d in AllDraws(k, n) && m in Reservoir(k, d)
  }

  /** Once selected, position `m` survives every draw but the one that hits its slot. */
  ghost function Surviving(k: nat, n: nat, m: nat): map<seq<nat>, set<nat>>
    requires k <= n
  {
    map d | d in Selecting(k, n, m) :: Below(n + 1) - {IndexOf(Reservoir(k, d), m)}
  }

  lemma LastDraw(k: nat, d: seq<nat>, j: nat)
    ensures Reservoir(k, d + [j]) == if j < k then Reservoir(k, d)[j := k + |d|] else Reservoir(k, d)
  {
    assert (d + [j])[..|d|] == d;
  }

  lemma SelectingOld(k: nat, n: nat, m: nat)
    requires k <= n && m < n
    ensures Selecting(k, n + 1, m) == Extended(Surviving(k, n, m))
  {
    forall x: seq<nat> ensures x in Selecting(k, n + 1, m) <==> x in Extended(Surviving(k, n, m)) {
      SelectsOld(k, n, m, x);
    }
  }

  lemma SelectsOld(k: nat, n: nat, m: nat, x: seq<nat>)
    requires k <= n && m < n
    ensures x in Selecting(k, n + 1, m) <==> x in Extended(Surviving(k, n, m))
  {
    hide Extended;
    InExtended(Each(AllDraws(k, n), Below(n + 1)), x);
    InExtended(Surviving(k, n, m), x);
    if |x| > 0 && x[..|x| - 1] in AllDraws(k, n) {
      var d, j := x[..|x| - 1], x[|x| - 1];
      assert x == d + [j];
      AllDrawsAreDraws(k, n, d);
      LastDraw(k, d, j);
      ReservoirDistinct(k, d);
      var r, r' := Reservoir(k, d), Reservoir(k, x);
      hide AllDraws, Reservoir;
      if m in r {
        var i := IndexOf(r, m);
        assert j != i ==> r'[i] == m;
      }
    }
  }

  lemma SelectingNew(k: nat, n: nat)
    requires k <= n
    ensures Selecting(k, n + 1, n) == Extended(Each(AllDraws(k, n), Below(k)))
  {
    forall x: seq<nat> ensures x in Selecting(k, n + 1, n) <==> x in Extended(Each(AllDraws(k, n), Below(k))) {
      SelectsNew(k, n, x);
    }
  }

  lemma SelectsNew(k: nat, n: nat, x: seq<nat>)
    requires k <= n
    ensures x in Selecting(k, n + 1, n) <==> x in Extended(Each(AllDraws(k, n), Below(k)))
  {
    hide Extended;
    InExtended(Each(AllDraws(k, n), Below(n + 1)), x);
    InExtended(Each(AllDraws(k, n), Below(k)), x);
    if |x| > 0 && x[..|x| - 1] in AllDraws(k, n) {
      var d, j := x[..|x| - 1], x[|x| - 1];
      assert x == d + [j];
      AllDrawsAreDraws(k, n, d);
      LastDraw(k, d, j);
      ReservoirDistinct(k, d);
      hide AllDraws, Reservoir;
      if j < k {
        assert Reservoir(k, x)[j] == n;
      }
    }
  }

  lemma SurvivingSize(k: nat, n: nat, m: nat)
    requires k <= n
    ensures |Extended(Surviving(k, n, m))| == |Selecting(k, n, m)| * n
  {
    var choices := Surviving(k, n, m);
    forall d | d in choices ensures |choices[d]| == n {
      assert IndexOf(Reservoir(k, d), m) in Below(n + 1);
    }
    ExtendedSize(choices, n);
    assert choices.Keys == Selecting(k, n, m);
  }

  lemma FilledAlways(k: nat, m: nat)
    requires m < k
    ensures |Selecting(k, k, m)| == |AllDraws(k, k)|
  {
    assert Reservoir(k, [])[m] == m;
    assert Selecting(k, k, m) == AllDraws(k, k);
  }

  /** Each stream position is in the reservoir in exactly the fraction k/n of all draw sequences. */
  ghost predicate Uniform(k: nat, n: nat, m: nat)
    requires k <= n
  {
    n * |Selecting(k, n, m)| == k * |AllDraws(k, n)|
  }

  lemma UniformNew(k: nat, n: nat)
    requires k < n
    ensures Uniform(k, n, n - 1)
  {
    hide AllDraws, Selecting;
    AllDrawsSize(k, n);
    NewestSize(k, n);
    RescaleNew(n, k, |Selecting(k, n, n - 1)|, |AllDraws(k, n - 1)|, |AllDraws(k, n)|);
  }

  lemma UniformOld(k: nat, n: nat, m: nat)
    requires k < n && m < n - 1 && Uniform(k, n - 1, m)
    ensures Uniform(k, n, m)
  {
    hide AllDraws, Selecting, Extended;
    AllDrawsSize(k, n);
    SelectingOld(k, n - 1, m);
    SurvivingSize(k, n - 1, m);
    Rescale(n, k, |Selecting(k, n - 1, m)|, |Selecting(k, n, m)|, |AllDraws(k, n - 1)|, |AllDraws(k, n)|);
  }

  /** Exact uniformity of the sample. */
  lemma {:induction false} ReservoirUniform(k: nat, n: nat, m: nat)
    requires k <= n && m < n
    ensures Uniform(k, n, m)
    decreases n
  {
    if n == k {
      FilledAlways(k, m);
    } else if m == n - 1 {
      UniformNew(k, n);
    } else {
      hide Uniform;
      ReservoirUniform(k, n - 1, m);
      UniformOld(k, n, m);
    }
  }

  lemma NewestSize(k: nat, n: nat)
    requires k < n
    ensures |Selecting(k, n, n - 1)| == |AllDraws(k, n - 1)| * k
  {
    hide Extended, AllDraws, Selecting, Below;
    SelectingNew(k, n - 1);
    var choices := Each(AllDraws(k, n - 1), Below(k));
    assert choices.Keys == AllDraws(k, n - 1);
    ExtendedSize(choices, k);
  }

  lemma RescaleNew(n: int, k: int, sel: int, all: int, all': int)
    requires sel == all * k && all' == all * n
    ensures n * sel == k * all'
  {
    assert n * (all * k) == k * (all * n);
  }

  lemma Rescale(n: int, k: int, sel: int, sel': int, all: int, all': int)
    requires (n - 1) * sel == k * all && sel' == sel * (n - 1) && all' == all * n
    ensures n * sel' == k * all'
  {
    assert n * (sel * (n - 1)) == n * ((n - 1) * sel);
    assert n * (k * all) == k * (all * n);
  }

  method ReservoirSample<T>(peers: array<T>, k: int, draws: seq<nat>) returns (sample: array<T>)
    requires 0 < k < peers.Length ==> |draws| == peers.Length - k && IsDraws(k, draws)
    ensures k <= 0 ==> sample.Length == 0
    ensures 0 < k && k >= peers.Length ==> sample == peers
    ensures 0 < k < peers.Length ==> fresh(sample) && sample.Length == k
    ensures 0 < k < peers.Length ==> forall i :: 0 <= i < k ==>
      Reservoir(k, draws)[i] < peers.Length && sample[i] == peers[Reservoir(k, draws)[i]]
  {
    if k <= 0 {
      return new T[0];
    }
    if k >= peers.Length {
      return peers;
    }
    sample := new T[k](i requires 0 <= i < k <= peers.Length reads peers => peers[i]);
    ghost var r := Reservoir(k, []);
    assert draws[..0] == [];
    for i := k to peers.Length
      invariant fresh(sample) && sample.Length == k
      invariant r == Reservoir(k, draws[..i - k])
      invariant forall x :: 0 <= x < k ==> r[x] < i && sample[x] == peers[r[x]]
    {
      var j := draws[i - k];
      assert draws[..i + 1 - k] == draws[..i - k] + [j];
      LastDraw(k, draws[..i - k], j);
      if j < k {
        sample[j] := peers[i];
        r := r[j := i];
      }
    }
    assert draws[..peers.Length - k] == draws;
  }
}
