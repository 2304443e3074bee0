/** The demand heatmap: a ring buffer with a histogram against "the last N recorded networks". */
module Heatmap {
  import opened PeerKeys

  type Net = n: int | 0 <= n < 0x1_0000

  /** The first two octets. */
  function NetOf(ip: seq<Byte>): Net
    requires |ip| >= 2
  {
    (ip[0] as int) * 256 + ip[1] as int
  }

  /** Two addresses are of one network exactly when their first two bytes agree. */
  lemma SameNetIff(a: seq<Byte>, b: seq<Byte>)
    requires |a| >= 2 && |b| >= 2
    ensures NetOf(a) == NetOf(b) <==> a[..2] == b[..2]
    ensures NetOf(a) / 256 == a[0] as int && NetOf(a) % 256 == a[1] as int
  {
    assert a[..2] == [a[0], a[1]] && b[..2] == [b[0], b[1]];
  }

  /** The last `cap` elements of a history. */
  function Window(history: seq<Net>, cap: nat): (w: seq<Net>) {
    if |history| <= cap then history else history[|history| - cap..]
  }

  /** `counts` is the multiset of `w`, without zero entries. */
  ghost predicate IsHistogram(counts: map<Net, nat>, w: seq<Net>) {
    && (forall n :: n in counts <==> n in w)
    && (forall n :: n in counts ==> counts[n] == multiset(w)[n])
  }

  function Dropped(counts: map<Net, nat>, n: Net): map<Net, nat>
    requires n in counts
  {
    if counts[n] > 1 then counts[n := counts[n] - 1] else counts - {n}
  }

  function Bumped(counts: map<Net, nat>, n: Net): map<Net, nat> {
    counts[n := (if n in counts then counts[n] else 0) + 1]
  }

  lemma DropOldest(counts: map<Net, nat>, w: seq<Net>)
    requires |w| > 0 && IsHistogram(counts, w)
    ensures IsHistogram(Dropped(counts, w[0]), w[1..])
  {
    assert w == [w[0]] + w[1..];
    var counts' := Dropped(counts, w[0]);
    forall n: Net
      ensures n in counts' <==> n in w[1..]
      ensures n in counts' ==> counts'[n] == multiset(w[1..])[n]
    {
      assert multiset(w)[n] == multiset(w[1..])[n] + if n == w[0] then 1 else 0;
      assert n in w[1..] <==> multiset(w[1..])[n] > 0;
    }
  }

  lemma AddNewest(counts: map<Net, nat>, w: seq<Net>, n: Net)
    requires IsHistogram(counts, w)
    ensures IsHistogram(Bumped(counts, n), w + [n])
  {
  }

  /** What stays of a window when one more record comes in. */
  function Remaining(w: seq<Net>, cap: nat): seq<Net> {
    if 0 < |w| == cap then w[1..] else w
  }

  lemma WindowSlides(history: seq<Net>, n: Net, cap: nat)
    requires cap > 0
    ensures Window(history + [n], cap) == Remaining(Window(history, cap), cap) + [n]
  {
  }

  /** The ring read from its oldest record. */
  function Contents(ring: seq<Net>, head: nat, size: nat): (w: seq<Net>)
    requires head <= |ring| && size <= |ring|
  {
    if size < |ring| then ring[..size] else ring[head..] + ring[..head]
  }

  lemma NextIndex(i: nat, n: nat)
    requires i < n
    ensures (i + 1) % n == if i + 1 == n then 0 else i + 1
  {
    if i + 1 < n {
      SmallModulus(i + 1, n);
    }
  }

  lemma SmallModulus(i: nat, n: nat)
    requires i < n
    ensures i % n == i
  {
  }

  /** Overwriting the slot at `head` drops the oldest record of a full ring and appends. */
  lemma RingPush(ring: seq<Net>, head: nat, size: nat, net: Net)
    requires head < |ring| && size <= |ring| && (size < |ring| ==> head == size)
    ensures var w := Contents(ring, head, size);
      Contents(ring[head := net], if head + 1 == |ring| then 0 else head + 1, if size < |ring| then size + 1 else size)
      == Remaining(w, |ring|) + [net]
    ensures size == |ring| ==> Contents(ring, head, size) != [] && Contents(ring, head, size)[0] == ring[head]
  {
    var r := ring[head := net];
    if size == |ring| {
      if head + 1 < |ring| {
        assert r[head + 1..] == ring[head + 1..];
        assert r[..head + 1] == ring[..head] + [net];
      } else {
        assert r[0..] + r[..0] == ring[..head] + [net];
      }
    } else if size + 1 == |ring| {
      assert r[0..] + r[..0] == ring[..size] + [net];
    }
  }

  class DemandHeatmap {
    const ring: array<Net>
    var head: nat
    var size: nat
    var netCount: map<Net, nat>
    var total: int
    ghost var history: seq<Net>

    ghost function Recent(): (w: seq<Net>)
      reads this
    {
      Window(history, ring.Length)
    }

    ghost predicate Valid()
      reads this, ring
    {
      var w := Recent();
      && size == |w| == total && size <= ring.Length
      && (if ring.Length == 0 then head == 0 else head < ring.Length)
      && (size < ring.Length ==> head == size)
      && w == Contents(ring[..], head, size)
      && IsHistogram(netCount, w)
    }

    constructor (cap: int)
      ensures Valid() && fresh(ring) && history == []
      ensures ring.Length == if cap <= 0 then 0 else cap
    {
      ring := new Net[if cap <= 0 then 0 else cap](_ => 0);
      head, size, netCount, total, history := 0, 0, map[], 0, [];
    }

    /** Record one announce; the oldest record makes room when the ring is full. */
    method Record(clientIP: seq<Byte>)
      requires Valid()
      modifies this, ring
      ensures Valid()
      ensures history ==
        if ring.Length == 0 || |clientIP| < 2 then old(history)
        else old(history) + [NetOf(clientIP)]
    {
      if ring.Length == 0 || |clientIP| < 2 {
        return;
      }
      Push(NetOf(clientIP));
    }

    method Push(net: Net)
      requires Valid() && ring.Length > 0
      modifies this, ring
      ensures Valid() && history == old(history) + [net]
    {
      hide IsHistogram, Contents, Window, Remaining;
      ghost var w := Recent();
      WindowSlides(history, net, ring.Length);
      RingPush(ring[..], head, size, net);
      MakeRoom(w);
      w := Remaining(w, ring.Length);
      AddNewest(netCount, w, net);
      Write(net);
      netCount := netCount[net := (if net in netCount then netCount[net] else 0) + 1];
      total := total + 1;
      history := history + [net];
      assert Recent() == w + [net];
    }

    /** Take the record that is about to be overwritten out of the histogram, if the ring is full. */
    method MakeRoom(ghost w: seq<Net>)
      requires 0 < ring.Length && head < ring.Length && size == |w| == total && size <= ring.Length
      requires size == ring.Length ==> w[0] == ring[head]
      requires IsHistogram(netCount, w)
      modifies this`netCount, this`total, this`size
      ensures IsHistogram(netCount, Remaining(w, ring.Length))
      ensures total == |Remaining(w, ring.Length)| && size == total + 1
      ensures size == if old(size) < ring.Length then old(size) + 1 else old(size)
    {
      if size == ring.Length {
        var oldest := ring[head];
        DropOldest(netCount, w);
        if netCount[oldest] > 1 {
          netCount := netCount[oldest := netCount[oldest] - 1];
        } else {
          netCount := netCount - {oldest};
        }
        total := total - 1;
      } else {
        size := size + 1;
      }
    }

    /** Overwrite the slot at the head and move the head on. */
    method Write(net: Net)
      requires head < ring.Length
      modifies this`head, ring
      ensures ring[..] == old(ring[..])[old(head) := net]
      ensures head == if old(head) + 1 == ring.Length then 0 else old(head) + 1
    {
      NextIndex(head, ring.Length);
      ring[head] := net;
      head := (head + 1) % ring.Length;
    }

    /** A most frequent network of the window; map iteration order is arbitrary. */
    method ModalNet() returns (best: Net, found: bool)
      requires Valid()
      ensures found <==> Recent() != []
      ensures found ==> best in Recent() && forall n :: multiset(Recent())[n] <= multiset(Recent())[best]
    {
      if total == 0 {
        return 0, false;
      }
      best := 0;
      var bestCount := 0;
      var todo := netCount.Keys;
      assert Recent()[0] in todo;
      while todo != {}
        invariant todo <= netCount.Keys
        invariant forall n :: n in netCount && n !in todo ==> netCount[n] <= bestCount
        invariant bestCount > 0 ==> best in netCount && netCount[best] == bestCount
        decreases todo
      {
        var n :| n in todo;
        todo := todo - {n};
        if netCount[n] > bestCount {
          bestCount := netCount[n];
          best := n;
        }
      }
      assert netCount[Recent()[0]] > 0;
      return best, true;
    }

    /** The share of a network in the window. */
    method NetFraction(net: Net) returns (f: real)
      requires Valid()
      ensures 0.0 <= f <= 1.0
      ensures Recent() == [] ==> f == 0.0
      ensures Recent() != [] ==> f == multiset(Recent())[net] as real / |Recent()| as real
    {
      if total == 0 {
        return 0.0;
      }
      var count := if net in netCount then netCount[net] else 0;
      assert count == multiset(Recent())[net];
      CountAtMost(Recent(), net);
      f := Share(count, total);
    }
  }

  function Share(count: nat, total: nat): (f: real)
    requires count <= total && total > 0
    ensures 0.0 <= f <= 1.0 && f == count as real / total as real
  {
    count as real / total as real
  }

  lemma {:induction false} CountAtMost(w: seq<Net>, n: Net)
    ensures multiset(w)[n] <= |w|
  {
    if w != [] {
      CountAtMost(w[1..], n);
      assert w == [w[0]] + w[1..];
    }
  }
}
