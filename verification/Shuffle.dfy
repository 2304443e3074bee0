/** The Fisher-Yates shuffle with the random draws as an argument. */
module Shuffle {
  import opened Seqs

  /** Draw number `t` is taken from [0, n - 1 - t]: the loop counts down. */
  ghost predicate IsShuffleDraws(n: nat, d: seq<nat>) {
    |d| == (if n == 0 then 0 else n - 1) && forall t :: 0 <= t < |d| ==> d[t] <= n - 1 - t
  }

  function Swap<T>(s: seq<T>, i: nat, j: nat): (r: seq<T>)
    requires i < |s| && j < |s|
    ensures |r| == |s|
  {
    s[i := s[j]][j := s[i]]
  }

  ghost function Shuffled<T>(s: seq<T>, d: seq<nat>): (r: seq<T>)
    requires IsShuffleDraws(|s|, d)
    ensures |r| == |s|
    decreases |s|
  {
    if |s| <= 1 then s
    else
      var s' := Swap(s, |s| - 1, d[0]);
      Shuffled(s'[..|s| - 1], d[1..]) + [s'[|s| - 1]]
  }

  lemma SwapPermutes<T>(s: seq<T>, i: nat, j: nat)
    requires i < |s| && j < |s|
    ensures multiset(Swap(s, i, j)) == multiset(s)
  {
    var t := s[i := s[j]];
    assert multiset(t) == multiset(s) - multiset{s[i]} + multiset{s[j]};
    assert i != j ==> t[j] == s[j];
  }

  /** The shuffle loses and duplicates nothing, whatever the elements. */
  lemma {:induction false} ShufflePermutes<T>(s: seq<T>, d: seq<nat>)
    requires IsShuffleDraws(|s|, d)
    ensures multiset(Shuffled(s, d)) == multiset(s)
    decreases |s|
  {
    if |s| > 1 {
      var s' := Swap(s, |s| - 1, d[0]);
      SwapPermutes(s, |s| - 1, d[0]);
      ShufflePermutes(s'[..|s| - 1], d[1..]);
      assert s' == s'[..|s| - 1] + [s'[|s| - 1]];
    }
  }

  /** `t` is a permutation of the distinct elements of `s`. */
  ghost predicate Arranges<T>(t: seq<T>, s: seq<T>) {
    |t| == |s| && Distinct(t) && forall i :: 0 <= i < |t| ==> t[i] in s
  }

  /** `s` without the element at `j`, the way the shuffle leaves it. */
  ghost function Without<T>(s: seq<T>, j: nat): (f: seq<T>)
    requires j < |s|
    ensures |f| == |s| - 1
  {
    Swap(s, |s| - 1, j)[..|s| - 1]
  }

  lemma WithoutDistinct<T>(s: seq<T>, j: nat)
    requires Distinct(s) && j < |s|
    ensures Distinct(Without(s, j))
    ensures forall x :: x in s && x != s[j] ==> x in Without(s, j)
  {
    forall x | x in s && x != s[j] ensures x in Without(s, j) {
      var i := IndexOf(s, x);
      assert Without(s, j)[if i == |s| - 1 then j else i] == x;
    }
  }

  lemma RestArranges<T>(s: seq<T>, t: seq<T>)
    requires |s| > 0 && Distinct(s) && Arranges(t, s)
    ensures var j := IndexOf(s, t[|t| - 1]);
      Distinct(Without(s, j)) && Arranges(t[..|t| - 1], Without(s, j))
  {
    WithoutDistinct(s, IndexOf(s, t[|t| - 1]));
  }

  /** The draws that turn `s` into `t`. */
  ghost function DrawsFor<T>(s: seq<T>, t: seq<T>): (d: seq<nat>)
    requires Distinct(s) && Arranges(t, s)
    ensures IsShuffleDraws(|s|, d)
    decreases |s|
  {
    if |s| <= 1 then []
    else
      RestArranges(s, t);
      var j := IndexOf(s, t[|t| - 1]);
      [j] + DrawsFor(Without(s, j), t[..|t| - 1])
  }

  lemma DrawsForStep<T>(s: seq<T>, t: seq<T>)
    requires |s| > 1 && Distinct(s) && Arranges(t, s)
    ensures var j, d := IndexOf(s, t[|t| - 1]), DrawsFor(s, t);
      && Distinct(Without(s, j)) && Arranges(t[..|t| - 1], Without(s, j))
      && d[0] == j && d[1..] == DrawsFor(Without(s, j), t[..|t| - 1])
  {
    RestArranges(s, t);
  }

  lemma ShuffledStep<T>(s: seq<T>, d: seq<nat>)
    requires |s| > 1 && IsShuffleDraws(|s|, d)
    ensures IsShuffleDraws(|s| - 1, d[1..])
    ensures Shuffled(s, d) == Shuffled(Without(s, d[0]), d[1..]) + [s[d[0]]]
  {
  }

  lemma {:induction false} DrawsForReaches<T>(s: seq<T>, t: seq<T>)
    requires Distinct(s) && Arranges(t, s)
    ensures Shuffled(s, DrawsFor(s, t)) == t
    decreases |s|
  {
    if |s| <= 1 {
      assert |s| == 1 ==> t[0] == s[0];
    } else {
      assert |t| == |s| && t[|t| - 1] in s;
      hide DrawsFor, Shuffled, Without, Distinct, IsShuffleDraws, Arranges;
      DrawsForStep(s, t);
      ShuffledStep(s, DrawsFor(s, t));
      DrawsForReaches(Without(s, IndexOf(s, t[|t| - 1])), t[..|t| - 1]);
      assert t == t[..|t| - 1] + [t[|t| - 1]];
    }
  }

  lemma {:induction false} ShuffleArranges<T>(s: seq<T>, d: seq<nat>)
    requires Distinct(s) && IsShuffleDraws(|s|, d)
    ensures Arranges(Shuffled(s, d), s)
    decreases |s|
  {
    if |s| > 1 {
      var t, f := Shuffled(s, d), Without(s, d[0]);
      WithoutDistinct(s, d[0]);
      ShuffledStep(s, d);
      ShuffleArranges(f, d[1..]);
      forall i | 0 <= i < |t| - 1 ensures t[i] in s && t[i] != s[d[0]] {
        var k := IndexOf(f, t[i]);
        assert f[k] == s[if k == d[0] then |s| - 1 else k];
      }
    }
  }

  lemma {:induction false} DrawsForOnly<T>(s: seq<T>, d: seq<nat>)
    requires Distinct(s) && IsShuffleDraws(|s|, d)
    ensures Arranges(Shuffled(s, d), s)
    ensures DrawsFor(s, Shuffled(s, d)) == d
    decreases |s|
  {
    ShuffleArranges(s, d);
    if |s| > 1 {
      var t := Shuffled(s, d);
      ShuffledStep(s, d);
      assert IndexOf(s, t[|t| - 1]) == d[0];
      WithoutDistinct(s, d[0]);
      DrawsForOnly(Without(s, d[0]), d[1..]);
      hide DrawsFor, Shuffled, Without, Distinct, IsShuffleDraws;
      DrawsForStep(s, t);
      assert t[..|t| - 1] == Shuffled(Without(s, d[0]), d[1..]);
      assert DrawsFor(s, t) == [DrawsFor(s, t)[0]] + DrawsFor(s, t)[1..];
      assert d == [d[0]] + d[1..];
    }
  }

  /** Exact uniformity of the shuffle: every permutation of distinct peers comes from exactly one
      draw sequence. */
  lemma ShuffleBijective<T>(s: seq<T>, t: seq<T>)
    requires Distinct(s) && Arranges(t, s)
    ensures IsShuffleDraws(|s|, DrawsFor(s, t)) && Shuffled(s, DrawsFor(s, t)) == t
    ensures forall d :: IsShuffleDraws(|s|, d) && Shuffled(s, d) == t ==> d == DrawsFor(s, t)
  {
    DrawsForReaches(s, t);
    forall d | IsShuffleDraws(|s|, d) && Shuffled(s, d) == t ensures d == DrawsFor(s, t) {
      DrawsForOnly(s, d);
    }
  }

  /** One iteration on the whole array `p`: position `i` gets its final element. */
  lemma ShuffleStep<T>(p: seq<T>, i: nat, d: seq<nat>)
    requires 0 < i < |p| && IsShuffleDraws(i + 1, d)
    ensures IsShuffleDraws(i, d[1..])
    ensures var p' := Swap(p, i, d[0]);
      Shuffled(p[..i + 1], d) + p[i + 1..] == Shuffled(p'[..i], d[1..]) + p'[i..]
  {
    var p', s := Swap(p, i, d[0]), p[..i + 1];
    var s' := Swap(s, i, d[0]);
    assert s'[..i] == p'[..i];
    assert [s'[i]] + p[i + 1..] == p'[i..];
  }

  method FisherYatesShuffle<T>(peers: array<T>, draws: seq<nat>)
    requires IsShuffleDraws(peers.Length, draws)
    modifies peers
    ensures peers[..] == Shuffled(old(peers[..]), draws)
  {
    if peers.Length == 0 {
      return;
    }
    ghost var p, d := peers[..], draws;
    var i := peers.Length - 1;
    assert p[..i + 1] == p;
    while i > 0
      invariant 0 <= i < peers.Length
      invariant peers[..] == p
      invariant |d| == i && d == draws[|draws| - i..] && IsShuffleDraws(i + 1, d)
      invariant Shuffled(old(peers[..]), draws) == Shuffled(p[..i + 1], d) + p[i + 1..]
    {
      var j := draws[peers.Length - 1 - i];
      assert j == d[0];
      ShuffleStep(p, i, d);
      peers[i], peers[j] := peers[j], peers[i];
      assert peers[..] == Swap(p, i, j);
      p, d := Swap(p, i, j), d[1..];
      i := i - 1;
    }
  }
}
