/** Fixed-point credits and scarcity prices: the 64-bit code against exact arithmetic. */
module Pricing {

  const CREDIT_SCALE: int := 1_000_000
  const GB: int := 0x4000_0000
  const MAX_INT64: int := 0x7FFF_FFFF_FFFF_FFFF

  type Int64 = x: int | -0x8000_0000_0000_0000 <= x <= 0x7FFF_FFFF_FFFF_FFFF

  predicate Fits(x: int) {
    -0x8000_0000_0000_0000 <= x <= MAX_INT64
  }

  /** Two's-complement overflow. */
  function Wrap64(x: int): (w: Int64)
    ensures Fits(x) ==> w == x
  {
    (x + 0x8000_0000_0000_0000) % 0x1_0000_0000_0000_0000 - 0x8000_0000_0000_0000
  }

  /** Go's division truncates toward zero. */
  function Quot(a: int, b: int): int
    requires b > 0
  {
    if a >= 0 then a / b else -((-a) / b)
  }

  function Abs(x: int): int {
    if x >= 0 then x else -x
  }

  // ----- MulFrac -----

  /** The code: split the credit by the denominator, then multiply the parts. */
  function MulFrac(c: Int64, num: Int64, denom: Int64): (r: Int64)
    requires denom > 0
  {
    if num == 0 || c == 0 then 0
    else
      var q := Quot(c, denom);
      var rem := c - q * denom;
      Wrap64(Wrap64(q * num) + Quot(Wrap64(rem * num), denom))
  }

  function MulMillis(c: Int64, millis: Int64): (r: Int64) {
    MulFrac(c, millis, 1000)
  }

  /** The reference: truncation of the exact product. */
  function Exact(c: int, num: int, denom: int): int
    requires denom > 0
  {
    Quot(c * num, denom)
  }

  lemma Multiple(k: int, d: int)
    requires d > 0
    ensures k >= 1 ==> k * d >= d
    ensures k <= -1 ==> k * d <= -d
  {
  }

  lemma DivUnique(m: int, n: int, y: int, z: int, d: int)
    requires d > 0 && m * d + n == y * d + z && 0 <= n < d && 0 <= z < d
    ensures m == y
  {
    assert (m - y) * d == m * d - y * d;
    Multiple(m - y, d);
  }

  lemma DivIs(x: int, d: int, y: int, z: int)
    requires d > 0 && x == y * d + z && 0 <= z < d
    ensures x / d == y
  {
    DivUnique(x / d, x % d, y, z, d);
  }

  /** Whole multiples of the divisor come out of a division unchanged. */
  lemma DivShift(a: int, b: int, d: int)
    requires d > 0
    ensures (a * d + b) / d == a + b / d
  {
    var y, z := a + b / d, b % d;
    assert y * d == a * d + b / d * d;
    DivIs(a * d + b, d, y, z);
  }

  lemma SplitNonNegative(c: int, num: int, denom: int)
    requires c >= 0 && num > 0 && denom > 0
    ensures c / denom * num + (c - c / denom * denom) * num / denom == c * num / denom
  {
    var q := c / denom;
    var rem := c - q * denom;
    assert c * num == (q * denom + rem) * num == q * num * denom + rem * num;
    DivShift(q * num, rem * num, denom);
  }

  lemma QuotNegates(x: int, d: int)
    requires d > 0
    ensures Quot(-x, d) == -Quot(x, d)
  {
  }

  lemma Negates(a: int, b: int)
    ensures (-a) * b == -(a * b)
  {
  }

  lemma NonNegative(a: int, b: int)
    requires a >= 0 && b >= 0
    ensures a * b >= 0
  {
  }

  lemma SplitPositive(c: int, num: int, denom: int)
    requires c >= 0 && num > 0 && denom > 0
    ensures Quot(c, denom) * num + Quot((c - Quot(c, denom) * denom) * num, denom) == Exact(c, num, denom)
  {
    var rem := c - c / denom * denom;
    NonNegative(rem, num);
    NonNegative(c, num);
    SplitNonNegative(c, num, denom);
  }

  /** Splitting loses nothing: for positive fractions the split form is the truncated product. */
  lemma SplitIsExact(c: int, num: int, denom: int)
    requires num > 0 && denom > 0
    ensures Quot(c, denom) * num + Quot((c - Quot(c, denom) * denom) * num, denom) == Exact(c, num, denom)
  {
    if c >= 0 {
      SplitPositive(c, num, denom);
    } else {
      hide Quot;
      var a := -c;
      SplitPositive(a, num, denom);
      var q := Quot(a, denom);
      QuotNegates(a, denom);
      Negates(q, denom);
      var rem := a - q * denom;
      assert c - Quot(c, denom) * denom == -rem;
      Negates(rem, num);
      QuotNegates(rem * num, denom);
      Negates(q, num);
      Negates(a, num);
      QuotNegates(a * num, denom);
    }
  }

  /** The code is exact whenever its three intermediate results fit into 64 bits. */
  lemma MulFracExact(c: Int64, num: Int64, denom: Int64)
    requires num >= 0 && denom > 0
    requires var q := Quot(c, denom);
      Fits(q * num) && Fits((c - q * denom) * num) && Fits(Exact(c, num, denom))
    ensures MulFrac(c, num, denom) == Exact(c, num, denom)
  {
    if num == 0 || c == 0 {
      assert c * num == 0;
    } else {
      SplitIsExact(c, num, denom);
    }
  }

  lemma PartsBelow(a: int, d: int)
    requires a >= 0 && d > 0
    ensures 0 <= a / d <= a && 0 <= a - a / d * d <= a
  {
    NonNegative(a / d, d - 1);
    assert a / d * d == a / d * (d - 1) + a / d;
  }

  lemma ProductFits(a: int, b: int, num: int)
    requires 0 <= a <= b && num >= 0 && b * num <= MAX_INT64
    ensures Fits(a * num) && Fits(-a * num)
  {
    NonNegative(a, num);
    Grows(a, b, num);
    Negates(a, num);
  }

  lemma QuotBelow(x: int, d: int)
    requires x >= 0 && d > 0
    ensures 0 <= x / d <= x
  {
    PartsBelow(x, d);
  }

  /** The code is exact whenever the plain product of the magnitudes fits into 64 bits. */
  lemma SmallProductExact(c: Int64, num: Int64, denom: Int64)
    requires num >= 0 && denom > 0 && Abs(c) * num <= MAX_INT64
    ensures MulFrac(c, num, denom) == Exact(c, num, denom)
  {
    var a := Abs(c);
    PartsBelow(a, denom);
    var q := a / denom;
    var rem := a - q * denom;
    ProductFits(q, a, num);
    ProductFits(rem, a, num);
    NonNegative(a, num);
    QuotBelow(a * num, denom);
    Negates(a, num);
    Negates(q, denom);
    assert c - Quot(c, denom) * denom == if c >= 0 then rem else -rem;
    MulFracExact(c, num, denom);
  }

  /** A transfer is charged exactly whenever price times bytes fits into 64 bits. */
  lemma TransferExact(price: Int64, bytes: Int64)
    requires price >= 0 && bytes >= 0 && price * bytes <= MAX_INT64
    ensures MulFrac(price, bytes, GB) == price * bytes / GB
  {
    hide MulFrac;
    NonNegative(price, bytes);
    SmallProductExact(price, bytes, GB);
  }

  /** Prices up to 500 CC per GB and transfers up to 16 GiB never leave 64 bits. */
  lemma TransferFits(price: Int64, bytes: Int64)
    requires 0 <= price <= 500 * CREDIT_SCALE && 0 <= bytes <= 16 * GB
    ensures 0 <= price * bytes <= MAX_INT64
    ensures MulFrac(price, bytes, GB) == price * bytes / GB
  {
    NonNegative(price, bytes);
    Grows(price, 500 * CREDIT_SCALE, bytes);
    TransferExact(price, bytes);
  }

  lemma Grows(a: int, b: int, c: int)
    requires a <= b && c >= 0
    ensures a * c <= b * c
  {
  }

  /** The remainder's product and the amount itself fit into 64 bits. */
  predicate TransferIsExact(price: Int64, bytes: Int64) {
    price % GB * bytes <= MAX_INT64 && price * bytes / GB <= MAX_INT64
  }

  lemma WrapsBelow(p: int) returns (k: int)
    requires p > MAX_INT64
    ensures k >= 1 && Wrap64(p) == p - k * 0x1_0000_0000_0000_0000
  {
    k := (p + 0x8000_0000_0000_0000) / 0x1_0000_0000_0000_0000;
  }

  lemma WrapsBy(p: int) returns (k: int)
    ensures Wrap64(p) == p - k * 0x1_0000_0000_0000_0000
  {
    k := (p + 0x8000_0000_0000_0000) / 0x1_0000_0000_0000_0000;
  }

  lemma WrapInner(a: int, b: int)
    ensures Wrap64(Wrap64(a) + b) == Wrap64(a + b)
  {
    var k := WrapsBy(a);
    WrapShift(a + b, k);
  }

  lemma WrapShift(x: int, k: int)
    ensures Wrap64(x - k * 0x1_0000_0000_0000_0000) == Wrap64(x)
  {
  }

  lemma DivMonotone(a: int, b: int)
    requires a <= b
    ensures a / GB <= b / GB
  {
  }

  /** A wrapped product is short by 2^33 to 2^63 + 2^33 after the division. */
  lemma ShortWhenWrapped(x: int)
    requires MAX_INT64 < x <= (GB - 1) * MAX_INT64
    ensures 0x2_0000_0000 <= x / GB - Quot(Wrap64(x), GB) <= 0x8000_0000_0000_0000 + 0x2_0000_0000
  {
    var k := WrapsBelow(x);
    var w := Wrap64(x);
    hide Wrap64;
    DivMonotone(0x8000_0000_0000_0000, x);
    DivMonotone(x, (GB - 1) * MAX_INT64);
    if w >= 0 {
      assert x == w + k * 0x4_0000_0000 * GB;
      DivShift(k * 0x4_0000_0000, w, GB);
    }
  }

  lemma FarWhenShort(e: int, d: int)
    requires 0x2_0000_0000 <= d <= 0x8000_0000_0000_0000 + 0x2_0000_0000
    ensures Wrap64(e - d) <= e - 0x2_0000_0000 || Wrap64(e - d) >= e + 0x2_0000_0000
  {
    var k := WrapsBy(e - d);
    hide Wrap64;
  }

  lemma RemainderBelow(price: Int64, bytes: Int64)
    requires price >= 0 && bytes >= 0
    ensures 0 <= price % GB * bytes <= (GB - 1) * MAX_INT64
  {
    NonNegative(price % GB, bytes);
    Grows(price % GB, GB - 1, bytes);
    Grows(bytes, MAX_INT64, GB - 1);
  }

  /** The settled amount, off by what the remainder's product loses. */
  lemma AsSettled(price: Int64, bytes: Int64)
    requires price > 0 && bytes > 0
    ensures var x := price % GB * bytes;
      MulFrac(price, bytes, GB) == Wrap64(price * bytes / GB - (x / GB - Quot(Wrap64(x), GB)))
  {
    var q, x := price / GB, price % GB * bytes;
    assert price * bytes == q * bytes * GB + x by {
      assert price == q * GB + price % GB;
      assert q * bytes * GB == q * GB * bytes;
    }
    DivShift(q * bytes, x, GB);
    WrapInner(q * bytes, Quot(Wrap64(x), GB));
    hide Wrap64;
  }

  /** What is not exact is off by at least 2^33 base units. */
  lemma InexactIsFar(price: Int64, bytes: Int64)
    requires price >= 0 && bytes >= 0 && !TransferIsExact(price, bytes)
    ensures var e := price * bytes / GB;
      MulFrac(price, bytes, GB) <= e - 0x2_0000_0000 || MulFrac(price, bytes, GB) >= e + 0x2_0000_0000
  {
    AsSettled(price, bytes);
    RemainderBelow(price, bytes);
    var e, x := price * bytes / GB, price % GB * bytes;
    hide MulFrac, Quot;
    if x > MAX_INT64 {
      ShortWhenWrapped(x);
      FarWhenShort(e, x / GB - Quot(Wrap64(x), GB));
    } else {
      NoLoss(x);
      var k := WrapsBelow(e);
    }
  }

  lemma NoLoss(x: int)
    requires 0 <= x <= MAX_INT64
    ensures x / GB - Quot(Wrap64(x), GB) == 0
  {
  }

  /** A settled amount is right exactly when the remainder's product and the amount fit into 64 bits. */
  lemma TransferExactIff(price: Int64, bytes: Int64)
    requires price >= 0 && bytes >= 0
    ensures MulFrac(price, bytes, GB) == price * bytes / GB <==> TransferIsExact(price, bytes)
  {
    if !TransferIsExact(price, bytes) {
      InexactIsFar(price, bytes);
    } else if price > 0 && bytes > 0 {
      AsSettled(price, bytes);
      RemainderBelow(price, bytes);
      NonNegative(price, bytes);
      hide MulFrac;
      NoLoss(price % GB * bytes);
    }
  }

  // ----- Settling in pieces -----

  function SumOf(parts: seq<Int64>): int {
    if parts == [] then 0 else SumOf(parts[..|parts| - 1]) + parts[|parts| - 1]
  }

  /** The amounts settled for the pieces, added up. */
  function SettledInPieces(price: Int64, parts: seq<Int64>): int {
    if parts == [] then 0 else SettledInPieces(price, parts[..|parts| - 1]) + MulFrac(price, parts[|parts| - 1], GB)
  }

  /** The exact amount, rounded down. */
  function Due(price: int, bytes: int): int {
    price * bytes / GB
  }

  lemma FloorsAdd(a: int, b: int)
    ensures a / GB + b / GB <= (a + b) / GB <= a / GB + b / GB + 1
  {
  }

  lemma DuesAdd(price: int, a: int, b: int)
    ensures Due(price, a) + Due(price, b) <= Due(price, a + b) <= Due(price, a) + Due(price, b) + 1
  {
    assert price * (a + b) == price * a + price * b;
    FloorsAdd(price * a, price * b);
  }

  ghost predicate PiecesExact(price: Int64, parts: seq<Int64>) {
    forall i :: 0 <= i < |parts| ==> parts[i] >= 0 && TransferIsExact(price, parts[i])
  }

  lemma {:induction false} PiecesFloor(price: Int64, parts: seq<Int64>)
    requires price >= 0 && |parts| > 0 && PiecesExact(price, parts)
    ensures SumOf(parts) >= 0
    ensures SettledInPieces(price, parts) <= Due(price, SumOf(parts)) < SettledInPieces(price, parts) + |parts|
  {
    var front, last := parts[..|parts| - 1], parts[|parts| - 1];
    TransferExactIff(price, last);
    assert MulFrac(price, last, GB) == Due(price, last);
    hide MulFrac, TransferIsExact, Due;
    if |parts| == 1 {
      assert front == [];
    } else {
      PiecesFloor(price, front);
      DuesAdd(price, SumOf(front), last);
    }
  }

  /** Settling the same bytes in k pieces never costs more than settling once, and less than k base units
      less, exactly when the single settlement is right. */
  lemma PiecesDifferByLessThanCountIff(price: Int64, parts: seq<Int64>)
    requires price >= 0 && 0 < |parts| <= 0x2_0000_0000
    requires PiecesExact(price, parts) && SumOf(parts) <= MAX_INT64
    ensures SumOf(parts) >= 0
    ensures SettledInPieces(price, parts) <= MulFrac(price, SumOf(parts), GB) < SettledInPieces(price, parts) + |parts|
            <==> TransferIsExact(price, SumOf(parts))
  {
    PiecesFloor(price, parts);
    TransferExactIff(price, SumOf(parts));
    hide MulFrac, TransferIsExact, PiecesExact, SumOf, SettledInPieces;
    if !TransferIsExact(price, SumOf(parts)) {
      InexactIsFar(price, SumOf(parts));
    }
  }

  /** 9 GiB at 500 CC per GB are 4500 CC; twice that in one settlement comes out negative, not clamped. */
  lemma TransferWraps()
    ensures MulFrac(500 * CREDIT_SCALE, 9 * GB, GB) == 4500 * CREDIT_SCALE
    ensures MulFrac(500 * CREDIT_SCALE, 18 * GB, GB) < 0
  {
  }

  // ----- Scarcity prices -----

  datatype Resource = Upload | Download | Seeding | Storage | Network

  datatype Price = Price(base: Int64, min: Int64, max: Int64)

  datatype Table = Table(prices: map<Resource, Price>, scarcityFactor: Int64, maxMultiplier: Int64)

  function Clamp(c: int, min: int, max: int): int {
    if c < min then min else if c > max then max else c
  }

  function Ceiling(t: Table): (m: Int64)
    ensures m > 1000
  {
    if t.maxMultiplier <= 1000 then 3000 else t.maxMultiplier
  }

  function Utilisation(seeders: nat, leechers: nat): int {
    leechers * 1000 / (seeders + leechers + 1)
  }

  function Raw(factor: Int64, util: int): Int64 {
    Wrap64(1000 + Quot(Wrap64(factor * util), if 1000 - util <= 0 then 1 else 1000 - util))
  }

  /** Scarcity multiplier in thousandths; never below 1000. */
  function Multiplier(t: Table, seeders: nat, leechers: nat): (m: Int64)
    ensures 1000 <= m <= Ceiling(t)
  {
    var raw := Raw(t.scarcityFactor, Utilisation(seeders, leechers));
    if raw > Ceiling(t) then Ceiling(t) else if raw < 1000 then 1000 else raw
  }

  function Effective(t: Table, rt: Resource, seeders: nat, leechers: nat): (price: Int64) {
    if rt !in t.prices then 0
    else
      var p := t.prices[rt];
      Clamp(MulMillis(p.base, Multiplier(t, seeders, leechers)), p.min, p.max)
  }

  function ChargeForDownload(t: Table, bytes: Int64, seeders: nat, leechers: nat): Int64 {
    if bytes <= 0 then 0 else MulFrac(Effective(t, Download, seeders, leechers), bytes, GB)
  }

  function CreditForUpload(t: Table, bytes: Int64, seeders: nat, leechers: nat): Int64 {
    if bytes <= 0 then 0 else MulFrac(Effective(t, Upload, seeders, leechers), bytes, GB)
  }

  /** A price stays within its floor and ceiling, in every swarm, exactly when they are in order. */
  lemma PriceInRangeIff(t: Table, rt: Resource, seeders: nat, leechers: nat)
    requires rt in t.prices
    ensures var p := t.prices[rt];
      p.min <= Effective(t, rt, seeders, leechers) <= p.max <==> p.min <= p.max
  {
  }

  // ----- Monotonicity -----

  lemma CrossDivide(a: int, b: int, c: int, d: int)
    requires 0 <= a && 0 <= c && b > 0 && d > 0 && a * d <= c * b
    ensures a / b <= c / d
  {
    var q := a / b;
    NonNegative(q, d);
    assert q * b <= a;
    Grows(q * b, a, d);
    assert q * d * b == q * b * d <= c * b;
    CancelRight(q * d, c, b);
    QuotientAtLeast(q, d, c);
  }

  lemma CancelRight(x: int, y: int, b: int)
    requires b > 0 && x * b <= y * b
    ensures x <= y
  {
    if x > y {
      assert (x - y) * b == x * b - y * b;
      Multiple(x - y, b);
    }
  }

  lemma QuotientAtLeast(q: int, d: int, c: int)
    requires d > 0 && q * d <= c
    ensures q <= c / d
  {
    assert (c / d + 1) * d == c / d * d + d;
    if q > c / d {
      Grows(c / d + 1, q, d);
    }
  }

  lemma DivBelow(a: int, d: int, k: int)
    requires d > 0 && a < k * d
    ensures a / d < k
  {
    if a / d >= k {
      Grows(k, a / d, d);
    }
  }

  /** Fewer seeders or more leechers: the cross-multiplied shares compare the same way. */
  lemma ShareRises(s: nat, s': nat, l: nat, l': nat)
    requires s' <= s && l <= l'
    ensures l * (s' + l' + 1) <= l' * (s + l + 1)
  {
    Grows(l, l', s' + 1);
    Grows(s' + 1, s + 1, l');
    assert l * (s' + l' + 1) == l * l' + l * (s' + 1);
    assert l' * (s + l + 1) == l' * l + l' * (s + 1);
  }

  lemma UtilisationRises(s: nat, s': nat, l: nat, l': nat)
    requires s' <= s && l <= l'
    ensures 0 <= Utilisation(s, l) <= Utilisation(s', l') <= 999
  {
    ShareRises(s, s', l, l');
    var b, d := s + l + 1, s' + l' + 1;
    assert l * 1000 * d == 1000 * (l * d) && l' * 1000 * b == 1000 * (l' * b);
    CrossDivide(l * 1000, b, l' * 1000, d);
    DivBelow(l' * 1000, d, 1000);
  }

  lemma OddsRise(u: int, v: int)
    requires 0 <= u <= v <= 999
    ensures 0 <= u * (1000 - v) <= v * (1000 - u)
  {
    NonNegative(u, 1000 - v);
    assert u * (1000 - v) == 1000 * u - u * v;
    assert v * (1000 - u) == 1000 * v - u * v;
  }

  lemma CrossScaled(f: int, u: int, b: int, v: int, d: int)
    requires f * u >= 0 && f * v >= 0 && b > 0 && d > 0 && (u * d) * f <= (v * b) * f
    ensures 0 <= f * u / b <= f * v / d
  {
    assert f * u * d == (u * d) * f;
    assert f * v * b == (v * b) * f;
    CrossDivide(f * u, b, f * v, d);
    QuotBelow(f * u, b);
  }

  lemma PositiveFactorRises(factor: int, u: int, v: int)
    requires factor >= 0 && 0 <= u <= v <= 999
    ensures 0 <= factor * u / (1000 - u) <= factor * v / (1000 - v)
  {
    NonNegative(factor, u);
    NonNegative(factor, v);
    OddsRise(u, v);
    Grows(u * (1000 - v), v * (1000 - u), factor);
    CrossScaled(factor, u, 1000 - u, v, 1000 - v);
  }

  /** The factor times any utilisation stays within 64 bits. */
  predicate SmallFactor(factor: Int64) {
    Abs(factor) * 999 + 1000 <= MAX_INT64
  }

  lemma RawFits(f: int, u: int)
    requires f >= 0 && f * 999 + 1000 <= MAX_INT64 && 0 <= u <= 999
    ensures 0 <= f * u && f * u / (1000 - u) + 1000 <= f * u + 1000 <= MAX_INT64
  {
    NonNegative(f, u);
    Grows(u, 999, f);
    QuotBelow(f * u, 1000 - u);
  }

  /** Both the product and its shrinking denominator push the raw multiplier up. A negative factor
      leaves it at or below 1000, where the clamp flattens it. */
  lemma RawRises(factor: Int64, u: int, v: int)
    requires 0 <= u <= v <= 999 && SmallFactor(factor)
    ensures factor >= 0 ==> 1000 <= Raw(factor, u) <= Raw(factor, v)
    ensures factor < 0 ==> Raw(factor, u) <= 1000 && Raw(factor, v) <= 1000
  {
    var f := Abs(factor);
    RawFits(f, u);
    RawFits(f, v);
    PositiveFactorRises(f, u, v);
    Negates(f, u);
    Negates(f, v);
    hide Wrap64;
  }

  lemma MultiplierRises(t: Table, s: nat, s': nat, l: nat, l': nat)
    requires s' <= s && l <= l' && SmallFactor(t.scarcityFactor)
    ensures Multiplier(t, s, l) <= Multiplier(t, s', l')
  {
    UtilisationRises(s, s', l, l');
    hide Raw, Utilisation;
    RawRises(t.scarcityFactor, Utilisation(s, l), Utilisation(s', l'));
  }

  /** The base price scaled by the largest multiplier stays within 64 bits. */
  predicate Bounded(p: Price, t: Table) {
    Abs(p.base) * Ceiling(t) / 1000 <= MAX_INT64 && 999 * Ceiling(t) <= MAX_INT64 && SmallFactor(t.scarcityFactor)
  }

  lemma ScaledPartsFit(a: int, m: int)
    requires a >= 0 && 1000 <= m && a * m / 1000 <= MAX_INT64 && 999 * m <= MAX_INT64
    ensures Fits(a / 1000 * m) && Fits(-(a / 1000 * m))
    ensures Fits((a - a / 1000 * 1000) * m) && Fits(-((a - a / 1000 * 1000) * m))
  {
    var q, rem := a / 1000, a - a / 1000 * 1000;
    NonNegative(q, m);
    NonNegative(rem, m);
    Grows(rem, 999, m);
    Grows(q * 1000, a, m);
    assert q * 1000 * m == q * m * 1000;
    DivShift(q * m, 0, 1000);
    MonotoneThousandths(q * m * 1000, a * m);
  }

  lemma MonotoneThousandths(x: int, y: int)
    requires x <= y
    ensures x / 1000 <= y / 1000
  {
  }

  lemma MillisExact(p: Price, t: Table, m: Int64)
    requires 1000 <= m <= Ceiling(t) && Bounded(p, t)
    ensures MulMillis(p.base, m) == Exact(p.base, m, 1000)
  {
    hide MulFrac;
    var a := Abs(p.base);
    NonNegative(a, m);
    Grows(m, Ceiling(t), a);
    MonotoneThousandths(a * m, a * Ceiling(t));
    ScaledPartsFit(a, m);
    Negates(a, m);
    Negates(a / 1000, m);
    Negates(a / 1000, 1000);
    Negates(a - a / 1000 * 1000, m);
    MulFracExact(p.base, m, 1000);
  }

  lemma ExactFollowsSign(base: int, m: int, m': int)
    requires 0 <= m <= m'
    ensures base >= 0 ==> Exact(base, m, 1000) <= Exact(base, m', 1000)
    ensures base <= 0 ==> Exact(base, m, 1000) >= Exact(base, m', 1000)
  {
    var a := Abs(base);
    NonNegative(a, m);
    Grows(m, m', a);
    Negates(a, m);
    Negates(a, m');
  }

  /** For a price table in order with a base of at least zero, the effective price never falls as
      leechers join and never rises as seeders join. */
  lemma PriceMonotone(t: Table, rt: Resource, s: nat, s': nat, l: nat, l': nat)
    requires s' <= s && l <= l'
    requires rt in t.prices && t.prices[rt].min <= t.prices[rt].max
    requires t.prices[rt].base >= 0 && Bounded(t.prices[rt], t)
    ensures Effective(t, rt, s, l) <= Effective(t, rt, s', l')
  {
    MultiplierRises(t, s, s', l, l');
    hide Multiplier, MulMillis, Exact;
    MillisExact(t.prices[rt], t, Multiplier(t, s, l));
    MillisExact(t.prices[rt], t, Multiplier(t, s', l'));
    ExactFollowsSign(t.prices[rt].base, Multiplier(t, s, l), Multiplier(t, s', l'));
  }

  /** A negative base turns the law around: scarcity then lowers the price. */
  lemma NegativeBaseAntitone(t: Table, rt: Resource, s: nat, s': nat, l: nat, l': nat)
    requires s' <= s && l <= l'
    requires rt in t.prices && t.prices[rt].min <= t.prices[rt].max
    requires t.prices[rt].base <= 0 && Bounded(t.prices[rt], t)
    ensures Effective(t, rt, s, l) >= Effective(t, rt, s', l')
  {
    MultiplierRises(t, s, s', l, l');
    hide Multiplier, MulMillis, Exact;
    MillisExact(t.prices[rt], t, Multiplier(t, s, l));
    MillisExact(t.prices[rt], t, Multiplier(t, s', l'));
    ExactFollowsSign(t.prices[rt].base, Multiplier(t, s, l), Multiplier(t, s', l'));
  }

  // ----- Beyond the bounds -----

  /** A swarm of 999 peers at exactly this utilisation. */
  lemma SwarmAt(u: int)
    requires 0 <= u <= 999
    ensures Utilisation(999 - u, u) == u
  {
  }

  /** Raised by at least one thousandth. */
  lemma RawAbove(factor: Int64, u: int)
    requires factor >= 1000 && 1 <= u <= 998 && factor * u <= MAX_INT64
    ensures Raw(factor, u) > 1000
  {
    var p := factor * u;
    Grows(1, u, factor);
    QuotBelow(p, 1000 - u);
    HalfFits(p, 1000 - u);
    AtLeastOne(p, 1000 - u);
  }

  lemma HalfFits(p: int, d: int)
    requires 0 <= p <= MAX_INT64 && d >= 2
    ensures 1000 + p / d <= MAX_INT64
  {
    if p / d > p / 2 {
      Grows(2, d, p / d);
    }
  }

  lemma AtLeastOne(p: int, d: int)
    requires p >= 1000 && 0 < d < 1000
    ensures p / d >= 1
  {
    DivBelowOne(p, d);
  }

  lemma DivBelowOne(p: int, d: int)
    requires d > 0 && p >= d
    ensures p / d >= 1
  {
    if p / d <= 0 {
      Grows(p / d, 0, d);
    }
  }

  /** The product, or at the last utilisation the sum, leaves 64 bits by less than another 2^63. */
  predicate WrapsAt(factor: Int64, u: int) {
    factor * u > MAX_INT64 || (u == 999 && factor * u + 1000 > MAX_INT64)
  }

  lemma RawWrapped(factor: Int64, u: int)
    requires factor >= 0 && 2 <= u <= 999 && factor * (u - 1) <= MAX_INT64 && WrapsAt(factor, u)
    ensures Raw(factor, u) <= 1000
  {
    var p := factor * u;
    assert p == factor * (u - 1) + factor;
    if p > MAX_INT64 {
      assert Wrap64(p) == p - 0x1_0000_0000_0000_0000 < 0;
      NegativeQuot(Wrap64(p), 1000 - u);
    } else {
      assert Wrap64(1000 + p) == 1000 + p - 0x1_0000_0000_0000_0000;
    }
  }

  lemma NegativeQuot(x: int, d: int)
    requires -0x8000_0000_0000_0000 <= x < 0 && 0 < d <= 1000
    ensures -0x8000_0000_0000_0000 <= Quot(x, d) <= 0
  {
    QuotBelow(-x, d);
  }

  /** The first utilisation at which a large factor wraps. */
  lemma FirstWrap(factor: Int64) returns (u: int)
    requires factor >= 0 && !SmallFactor(factor)
    ensures 2 <= u <= 999 && WrapsAt(factor, u) && factor * (u - 1) <= MAX_INT64
  {
    u := 2;
    while !WrapsAt(factor, u)
      invariant 2 <= u <= 999 && factor * (u - 1) <= MAX_INT64
      decreases 999 - u
    {
      u := u + 1;
    }
  }

  /** The multiplier never falls as leechers join or seeders leave. */
  ghost predicate MultiplierMonotone(t: Table) {
    forall s: nat, s': nat, l: nat, l': nat :: s' <= s && l <= l' ==> Multiplier(t, s, l) <= Multiplier(t, s', l')
  }

  lemma MultiplierFalls(t: Table, u: int)
    requires t.scarcityFactor >= 1000 && 2 <= u <= 999
    requires t.scarcityFactor * (u - 1) <= MAX_INT64 && WrapsAt(t.scarcityFactor, u)
    ensures Multiplier(t, 1000 - u, u - 1) > Multiplier(t, 999 - u, u) == 1000
  {
    SwarmAt(u - 1);
    SwarmAt(u);
    RawAbove(t.scarcityFactor, u - 1);
    RawWrapped(t.scarcityFactor, u);
    hide Raw, Utilisation;
  }

  /** For a factor of at least zero the multiplier is monotone exactly when its largest product fits. */
  lemma MultiplierMonotoneIff(t: Table)
    requires t.scarcityFactor >= 0
    ensures MultiplierMonotone(t) <==> SmallFactor(t.scarcityFactor)
  {
    hide Multiplier;
    if SmallFactor(t.scarcityFactor) {
      forall s: nat, s': nat, l: nat, l': nat | s' <= s && l <= l' ensures Multiplier(t, s, l) <= Multiplier(t, s', l') {
        MultiplierRises(t, s, s', l, l');
      }
    } else {
      var u := FirstWrap(t.scarcityFactor);
      MultiplierFalls(t, u);
      assert 999 - u <= 1000 - u && u - 1 <= u;
    }
  }

  /** A price above its floor follows: with a base of 1000 it falls to 1000 in the scarcer swarm. */
  lemma WrappedFactorFalls(t: Table) returns (u: int)
    requires Upload in t.prices && t.prices[Upload] == Price(1000, 0, MAX_INT64)
    requires t.scarcityFactor >= 0 && !SmallFactor(t.scarcityFactor)
    ensures 2 <= u <= 999 && Effective(t, Upload, 1000 - u, u - 1) > Effective(t, Upload, 999 - u, u)
  {
    hide Multiplier, MulMillis, Effective, WrapsAt;
    u := FirstWrap(t.scarcityFactor);
    MultiplierFalls(t, u);
    Thousand(Multiplier(t, 1000 - u, u - 1));
    Thousand(Multiplier(t, 999 - u, u));
    Unclamped(t, Upload, 1000 - u, u - 1);
    Unclamped(t, Upload, 999 - u, u);
  }

  lemma Unclamped(t: Table, rt: Resource, s: nat, l: nat)
    requires rt in t.prices && t.prices[rt].min <= MulMillis(t.prices[rt].base, Multiplier(t, s, l)) <= t.prices[rt].max
    ensures Effective(t, rt, s, l) == MulMillis(t.prices[rt].base, Multiplier(t, s, l))
  {
    hide MulMillis, Multiplier;
  }

  lemma Thousand(m: Int64)
    requires m >= 1000
    ensures MulMillis(1000, m) == m
  {
    assert Quot(1000, 1000) == 1;
  }

  lemma LargestInThousandths()
    ensures Quot(MAX_INT64, 1000) == 9_223_372_036_854_775
    ensures Wrap64(9_223_372_036_854_775 * 3000) == MAX_INT64 - 2423
    ensures Quot(Wrap64(807 * 3000), 1000) == 2421
    ensures Wrap64(9_223_372_036_854_775 * 1000) == MAX_INT64 - 807
    ensures Quot(Wrap64(807 * 1000), 1000) == 807
  {
  }

  lemma LargestScaled()
    ensures MulMillis(MAX_INT64, 3000) == MAX_INT64 - 2 && MulMillis(MAX_INT64, 1000) == MAX_INT64
  {
    LargestInThousandths();
    assert Wrap64(MAX_INT64 - 2) == MAX_INT64 - 2 && Wrap64(MAX_INT64) == MAX_INT64;
    hide Quot, Wrap64;
  }

  lemma DoubledFactor(prices: map<Resource, Price>)
    ensures Multiplier(Table(prices, 2000, 3000), 0, 0) == 1000 && Multiplier(Table(prices, 2000, 3000), 0, 1) == 3000
  {
    hide Utilisation, Raw;
    SmallSwarms();
    RawDoubled();
  }

  lemma SmallSwarms()
    ensures Utilisation(0, 0) == 0 && Utilisation(0, 1) == 500
  {
  }

  lemma RawDoubled()
    ensures Raw(2000, 0) == 1000 && Raw(2000, 500) == 3000
  {
    assert 2000 * 0 == 0 && 2000 * 500 == 1_000_000;
    assert Wrap64(0) == 0 && Wrap64(1_000_000) == 1_000_000;
    assert Quot(0, 1000) == 0 && Quot(1_000_000, 500) == 2000;
    assert Wrap64(1000) == 1000 && Wrap64(3000) == 3000;
    hide Wrap64, Quot;
  }

  /** A base that only fits unscaled falls too: here from the first leecher on. */
  lemma WrappedBaseFalls()
    ensures var t := Table(map[Upload := Price(MAX_INT64, 0, MAX_INT64)], 2000, 3000);
      Effective(t, Upload, 0, 0) > Effective(t, Upload, 0, 1)
  {
    var t := Table(map[Upload := Price(MAX_INT64, 0, MAX_INT64)], 2000, 3000);
    hide Multiplier, MulMillis, Effective;
    DoubledFactor(t.prices);
    LargestScaled();
    Unclamped(t, Upload, 0, 0);
    Unclamped(t, Upload, 0, 1);
  }

  /** The multiplier ranges over exactly 1000 to the ceiling: 1000 without leechers, and the ceiling, which is 3000
      where none above 1000 is set, once the factor allows for it. */
  lemma MultiplierRange(t: Table, s: nat, l: nat)
    requires t.scarcityFactor >= 0 && SmallFactor(t.scarcityFactor)
    ensures Multiplier(t, s, 0) == 1000
    ensures 1000 <= Multiplier(t, s, l) <= if t.maxMultiplier > 1000 then t.maxMultiplier else 3000
    ensures
      var top := if t.maxMultiplier > 1000 then t.maxMultiplier else 3000;
      t.scarcityFactor * 999 + 1000 >= top ==> Multiplier(t, 0, 999) == top
  {
    SwarmAt(999);
    RawFits(t.scarcityFactor, 0);
    RawFits(t.scarcityFactor, 999);
    NobodyLeeches(s);
  }

  lemma NobodyLeeches(s: nat)
    ensures Utilisation(s, 0) == 0
  {
  }

  /** What has no price costs and earns nothing. */
  lemma UnpricedIsFree(t: Table, bytes: Int64, s: nat, l: nat)
    ensures Download !in t.prices ==> ChargeForDownload(t, bytes, s, l) == 0
    ensures Upload !in t.prices ==> CreditForUpload(t, bytes, s, l) == 0
  {
  }

  // ----- The default table -----

  function FromCC(cc: int): (c: Int64)
    requires -9_000_000 <= cc <= 9_000_000
  {
    cc * CREDIT_SCALE
  }

  function DefaultTable(): Table {
    Table(map[Upload := Price(FromCC(10), FromCC(5), FromCC(100)),
              Download := Price(FromCC(50), FromCC(10), FromCC(500)),
              Seeding := Price(FromCC(5), FromCC(1), FromCC(50)),
              Storage := Price(FromCC(2), FromCC(1), FromCC(20)),
              Network := Price(FromCC(20), FromCC(5), FromCC(200))], 2000, 3000)
  }

  /** In every swarm a downloaded GB costs at least 50 CC, an uploaded GB earns at most 30 CC. */
  lemma DefaultPrices(s: nat, l: nat)
    ensures FromCC(10) <= Effective(DefaultTable(), Upload, s, l) <= FromCC(30)
    ensures FromCC(50) <= Effective(DefaultTable(), Download, s, l) <= FromCC(150)
  {
    var t := DefaultTable();
    var m := Multiplier(t, s, l);
    hide Multiplier;
    MillisExact(t.prices[Upload], t, m);
    MillisExact(t.prices[Download], t, m);
  }

  /** The largest transfer whose charge at the highest default price fits into 64 bits, above 57 GiB. */
  const MINT_LIMIT: int := MAX_INT64 / 150_000_000

  /** Up to there, in any swarm, the upload credit is at most the download charge. */
  lemma MatchedTransfersMintNothing(bytes: Int64, s: nat, l: nat)
    requires bytes <= MINT_LIMIT
    ensures CreditForUpload(DefaultTable(), bytes, s, l) <= ChargeForDownload(DefaultTable(), bytes, s, l)
  {
    if bytes > 0 {
      DefaultPrices(s, l);
      var up, down := Effective(DefaultTable(), Upload, s, l), Effective(DefaultTable(), Download, s, l);
      hide Effective, MulFrac;
      Grows(up, down, bytes);
      Grows(down, FromCC(150), bytes);
      TransferExact(up, bytes);
      TransferExact(down, bytes);
    }
  }

  lemma ScarcestDefaultPrices()
    ensures Effective(DefaultTable(), Upload, 0, 1000) == 30_000_000
    ensures Effective(DefaultTable(), Download, 0, 1000) == 150_000_000
  {
    assert Utilisation(0, 1000) == 999;
    assert Multiplier(DefaultTable(), 0, 1000) == 3000;
  }

  /** Above it, under full scarcity, the charge wraps and is not positive while the credit is. */
  lemma ScarceTransfersMint(bytes: Int64)
    requires MINT_LIMIT < bytes <= 2 * MINT_LIMIT
    ensures ChargeForDownload(DefaultTable(), bytes, 0, 1000) <= 0 < CreditForUpload(DefaultTable(), bytes, 0, 1000)
  {
    ScarcestDefaultPrices();
    hide Effective;
    TransferExact(30_000_000, bytes);
    var p := 150_000_000 * bytes;
    assert Wrap64(p) == p - 0x1_0000_0000_0000_0000 < 0;
  }

  /** Matched transfers mint nothing in any swarm exactly up to that size. */
  lemma MintsNothingIff(bytes: Int64)
    requires bytes <= 2 * MINT_LIMIT
    ensures (forall s: nat, l: nat ::
      CreditForUpload(DefaultTable(), bytes, s, l) <= ChargeForDownload(DefaultTable(), bytes, s, l))
      <==> bytes <= MINT_LIMIT
  {
    hide CreditForUpload, ChargeForDownload;
    if bytes <= MINT_LIMIT {
      forall s: nat, l: nat
        ensures CreditForUpload(DefaultTable(), bytes, s, l) <= ChargeForDownload(DefaultTable(), bytes, s, l)
      {
        MatchedTransfersMintNothing(bytes, s, l);
      }
    } else {
      ScarceTransfersMint(bytes);
    }
  }

  lemma WholeTurns(k: int)
    ensures Wrap64(k * 0x1_0000_0000_0000_0000) == 0
  {
    WrapShift(k * 0x1_0000_0000_0000_0000, k);
  }

  lemma GiantAmount(m: Int64, each: Int64)
    requires 1000 <= m <= 3000 && (each == 10_000 || each == 50_000)
    ensures MulFrac(each * m, 0x4000_0000_0000_0000, GB) == 0
  {
    var k := (each / 16) * m * 4;
    assert each * m * 0x4000_0000_0000_0000 == k * 0x1_0000_0000_0000_0000;
    WholeTurns(k);
    assert Quot(each * m, GB) == 0;
    hide Wrap64;
    assert Wrap64(0) == 0 by { WholeTurns(0); }
  }

  /** Past twice the limit size decides nothing any more: 2^62 bytes cost and earn nothing in every swarm. */
  lemma GiantTransferIsFree(s: nat, l: nat)
    ensures CreditForUpload(DefaultTable(), 0x4000_0000_0000_0000, s, l) == 0
    ensures ChargeForDownload(DefaultTable(), 0x4000_0000_0000_0000, s, l) == 0
  {
    var t := DefaultTable();
    var m := Multiplier(t, s, l);
    hide Multiplier, MulFrac;
    MillisExact(t.prices[Upload], t, m);
    MillisExact(t.prices[Download], t, m);
    GiantAmount(m, 10_000);
    GiantAmount(m, 50_000);
  }
}
