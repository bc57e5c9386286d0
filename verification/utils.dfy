/** The small helpers of `utils.js`: clamping, interpolation, rectangle
    overlap, random picks and hex colour shading. */
module Utils {
  import opened Num

  /** An axis-aligned rectangle `{x, y, w, h}` (y grows downwards). */
  datatype Rect = Rect(x: real, y: real, w: real, h: real)

  /** `clamp(v, a, b) = max(a, min(b, v))`. */
  function Clamp(v: real, a: real, b: real): (r: real)
    ensures a <= b ==> a <= r <= b
    ensures a <= v <= b ==> r == v
    ensures a <= b && v < a ==> r == a
    ensures a <= b && v > b ==> r == b
  {
    Max(a, Min(b, v))
  }

  /** The same clamp on the integer colour channels of `shade`. */
  function ClampInt(v: int, a: int, b: int): (r: int)
    ensures a <= b ==> a <= r <= b
    ensures a <= v <= b ==> r == v
  {
    MaxInt(a, MinInt(b, v))
  }

  /** `lerp(a, b, t) = a + (b - a) * t`. */
  function Lerp(a: real, b: real, t: real): (r: real)
    ensures t == 0.0 ==> r == a
    ensures t == 1.0 ==> r == b
  {
    a + (b - a) * t
  }

  /** `overlap(x1,y1,w1,h1,x2,y2,w2,h2)`: strict interval intersection on both axes. */
  predicate Overlap(p: Rect, q: Rect) {
    p.x < q.x + q.w && p.x + p.w > q.x && p.y < q.y + q.h && p.y + p.h > q.y
  }

  lemma OverlapSymmetric(p: Rect, q: Rect)
    ensures Overlap(p, q) <==> Overlap(q, p)
  {}

  /** Boxes that only touch along a vertical edge do not overlap. */
  lemma TouchingDoesNotOverlap(p: Rect, q: Rect)
    requires p.x + p.w == q.x
    ensures !Overlap(p, q) && !Overlap(q, p)
  {}

  /** A point lies in the closed box. */
  predicate Contains(r: Rect, px: real, py: real) {
    r.x <= px <= r.x + r.w && r.y <= py <= r.y + r.h
  }

  // ---------------------------------------------------------------------
  // Random picks

  /** `pick(arr) = arr[(random() * arr.length) | 0]`. */
  function Pick<T>(arr: seq<T>, u: Unit): (r: T)
    requires |arr| > 0
    ensures r in arr
  {
    var i := Floor(u * |arr| as real);
    assert 0 <= i < |arr| by {
      assert 0.0 <= u * |arr| as real < |arr| as real;
    }
    arr[i]
  }

  function Weights<T>(pairs: seq<(T, real)>): seq<real> {
    seq(|pairs|, i requires 0 <= i < |pairs| => pairs[i].1)
  }

  /** The sum of the first `n` weights. */
  function PrefixSum<T>(pairs: seq<(T, real)>, n: nat): real
    requires n <= |pairs|
  {
    if n == 0 then 0.0 else PrefixSum(pairs, n - 1) + pairs[n - 1].1
  }

  function Total<T>(pairs: seq<(T, real)>): real {
    PrefixSum(pairs, |pairs|)
  }

  predicate NonNegativeWeights<T>(pairs: seq<(T, real)>) {
    forall i :: 0 <= i < |pairs| ==> pairs[i].1 >= 0.0
  }

  /** The loop of `pickWeighted`: subtract each weight from `r` and return
      the first value that brings it to `<= 0`; fall back to the first pair. */
  function Scan<T>(pairs: seq<(T, real)>, i: nat, r: real): (k: nat)
    requires i <= |pairs|
    ensures k < |pairs| || k == |pairs|
    decreases |pairs| - i
  {
    if i == |pairs| then |pairs|
    else if r - pairs[i].1 <= 0.0 then i
    else Scan(pairs, i + 1, r - pairs[i].1)
  }

  /** The target `random() * total` that `pickWeighted` scans for. */
  function Target<T>(pairs: seq<(T, real)>, u: Unit): real {
    u * Total(pairs)
  }

  /** Index of the pair `pickWeighted` returns for draw `u`. */
  function PickWeightedIndex<T>(pairs: seq<(T, real)>, u: Unit): (k: nat)
    requires |pairs| > 0
    ensures k < |pairs|
  {
    if Scan(pairs, 0, Target(pairs, u)) == |pairs| then 0
    else Scan(pairs, 0, Target(pairs, u))
  }

  function PickWeighted<T>(pairs: seq<(T, real)>, u: Unit): (v: T)
    requires |pairs| > 0
    ensures exists k :: 0 <= k < |pairs| && v == pairs[k].0
  {
    pairs[PickWeightedIndex(pairs, u)].0
  }

  /** What the scan computes: the first index whose running sum reaches `r0`. */
  lemma {:induction false} ScanIsFirstReaching<T>(pairs: seq<(T, real)>, i: nat, r0: real)
    requires i <= |pairs|
    ensures var k := Scan(pairs, i, r0 - PrefixSum(pairs, i));
      && i <= k <= |pairs|
      && (k < |pairs| ==> PrefixSum(pairs, k + 1) >= r0)
      && (forall j :: i < j <= k ==> PrefixSum(pairs, j) < r0)
    decreases |pairs| - i
  {
    if i < |pairs| {
      var r := r0 - PrefixSum(pairs, i);
      if r - pairs[i].1 > 0.0 {
        assert r - pairs[i].1 == r0 - PrefixSum(pairs, i + 1);
        ScanIsFirstReaching(pairs, i + 1, r0);
      }
    }
  }

  /** When `r0` does not exceed the total, the scan stops inside the list. */
  lemma {:induction false} ScanStopsInside<T>(pairs: seq<(T, real)>, i: nat, r0: real)
    requires i < |pairs| && r0 <= Total(pairs)
    ensures Scan(pairs, i, r0 - PrefixSum(pairs, i)) < |pairs|
    decreases |pairs| - i
  {
    var r := r0 - PrefixSum(pairs, i);
    if r - pairs[i].1 > 0.0 {
      assert r - pairs[i].1 == r0 - PrefixSum(pairs, i + 1);
      if i + 1 == |pairs| {
        assert false;
      }
      ScanStopsInside(pairs, i + 1, r0);
    }
  }

  /** `k` is the first index whose running weight sum reaches `r0`. */
  predicate FirstReaching<T>(pairs: seq<(T, real)>, k: nat, r0: real) {
    && k < |pairs|
    && PrefixSum(pairs, k + 1) >= r0
    && (forall j :: 0 < j <= k ==> PrefixSum(pairs, j) < r0)
  }

  /** `pickWeighted` returns the first value whose running weight sum reaches
      `u * total`: with non-negative weights the fallback is never taken. */
  lemma PickWeightedIsFirstReaching<T>(pairs: seq<(T, real)>, u: Unit)
    requires |pairs| > 0 && NonNegativeWeights(pairs)
    ensures FirstReaching(pairs, PickWeightedIndex(pairs, u), Target(pairs, u))
  {
    TargetWithinTotal(pairs, u);
    ScanFromStart(pairs, Target(pairs, u));
  }

  /** With non-negative weights the target lies in [0, total]. */
  lemma TargetWithinTotal<T>(pairs: seq<(T, real)>, u: Unit)
    requires NonNegativeWeights(pairs)
    ensures 0.0 <= Target(pairs, u) <= Total(pairs)
  {
    TotalNonNegative(pairs, |pairs|);
    ScaledWithin(u, Total(pairs), Target(pairs, u));
  }

  /** Scanning the whole list for a target within the total finds the
      first index that reaches it. */
  lemma ScanFromStart<T>(pairs: seq<(T, real)>, r0: real)
    requires |pairs| > 0 && r0 <= Total(pairs)
    ensures FirstReaching(pairs, Scan(pairs, 0, r0), r0)
  {
    assert PrefixSum(pairs, 0) == 0.0;
    assert r0 - PrefixSum(pairs, 0) == r0;
    ScanIsFirstReaching(pairs, 0, r0);
    ScanStopsInside(pairs, 0, r0);
  }

  /** `u * t` for a draw `u`: a fraction of the length `t`. */
  function Scaled(u: Unit, t: real): (e: real)
    requires t >= 0.0
    ensures 0.0 <= e <= t
    ensures t > 0.0 ==> e < t
    ensures u == 0.0 ==> e == 0.0
  {
    var e := u * t;
    UnitScaleBelow(u, t);
    assert 0.0 <= e <= t && (t > 0.0 ==> e < t);
    e
  }

  /** A larger draw scales a length to at least as much. */
  lemma ScaledMonotone(t1: Unit, t2: Unit, d: real)
    requires t1 <= t2 && d >= 0.0
    ensures Scaled(t1, d) <= Scaled(t2, d)
  {
    NonNegativeProduct(t2 - t1, d);
    MulSubDistrib(t1, t2, d);
  }

  lemma NonNegativeProduct(x: real, y: real)
    requires x >= 0.0 && y >= 0.0
    ensures x * y >= 0.0
  {}

  lemma MulSubDistrib(a: real, b: real, d: real)
    ensures (b - a) * d == b * d - a * d
  {}

  lemma ScaledWithin(u: Unit, t: real, e: real)
    requires t >= 0.0 && e == u * t
    ensures 0.0 <= e <= t
  {
    UnitScaleBelow(u, t);
  }

  /** A draw scales a non-negative length into [0, length], strictly below
      it when the length is positive. */
  lemma UnitScaleBelow(u: Unit, t: real)
    requires t >= 0.0
    ensures 0.0 <= u * t <= t
    ensures t > 0.0 ==> u * t < t
  {
    var v := (1.0 - u) * t;
    assert v >= 0.0;
    assert t > 0.0 ==> v > 0.0;
    assert v == t - u * t;
  }

  /** A zero draw picks the first value. */
  lemma PickWeightedZero<T>(pairs: seq<(T, real)>)
    requires |pairs| > 0 && NonNegativeWeights(pairs)
    ensures PickWeighted(pairs, 0.0) == pairs[0].0
  {
    assert Target(pairs, 0.0) == 0.0;
    assert 0.0 - pairs[0].1 <= 0.0;
  }

  lemma {:induction false} TotalNonNegative<T>(pairs: seq<(T, real)>, n: nat)
    requires n <= |pairs| && NonNegativeWeights(pairs)
    ensures PrefixSum(pairs, n) >= 0.0
  {
    if n > 0 {
      TotalNonNegative(pairs, n - 1);
    }
  }

  // ---------------------------------------------------------------------
  // Hex colours

  function HexValue(c: char): Option<nat> {
    if '0' <= c <= '9' then Some(c as nat - '0' as nat)
    else if 'a' <= c <= 'f' then Some(c as nat - 'a' as nat + 10)
    else if 'A' <= c <= 'F' then Some(c as nat - 'A' as nat + 10)
    else None
  }

  predicate IsHexDigit(c: char) { HexValue(c).Some? }

  predicate IsLowerHexDigit(c: char) { '0' <= c <= '9' || 'a' <= c <= 'f' }

  function LowerHexDigit(n: nat): (c: char)
    requires n < 16
    ensures IsLowerHexDigit(c) && HexValue(c) == Some(n)
  {
    if n < 10 then ('0' as nat + n) as char else ('a' as nat + n - 10) as char
  }

  /** A hex colour `#rrggbb` as `shade` reads it: only characters 1..6 matter. */
  predicate IsHexColour(hex: string) {
    |hex| >= 7 && forall i :: 1 <= i < 7 ==> IsHexDigit(hex[i])
  }

  /** `parseInt(hex.slice(k, k + 2), 16)` on two hex digits. */
  function Channel(hex: string, k: nat): (n: nat)
    requires k + 2 <= |hex| && IsHexDigit(hex[k]) && IsHexDigit(hex[k + 1])
    ensures n < 256
  {
    HexValue(hex[k]).value * 16 + HexValue(hex[k + 1]).value
  }

  /** `n.toString(16).padStart(2, '0')` for a channel value. */
  function Hex2(n: nat): (s: string)
    requires n < 256
    ensures |s| == 2 && IsLowerHexDigit(s[0]) && IsLowerHexDigit(s[1])
  {
    [LowerHexDigit(n / 16), LowerHexDigit(n % 16)]
  }

  /** The lower-case form of a hex digit. */
  function LowerDigit(c: char): char
    requires IsHexDigit(c)
  {
    LowerHexDigit(HexValue(c).value)
  }

  /** The value two lower-case digits written by `Hex2` read back as. */
  lemma Hex2ReadsBack(n: nat)
    requires n < 256
    ensures HexValue(Hex2(n)[0]).value * 16 + HexValue(Hex2(n)[1]).value == n
  {}

  /** One channel of `shade`: `clamp(c + round(255 * delta / 100), 0, 255)`. */
  function ShadeChannel(c: nat, delta: real): (n: nat)
    ensures n < 256
    ensures c < 256 && delta >= 0.0 ==> c <= n
    ensures c < 256 && delta <= 0.0 ==> n <= c
  {
    ClampInt(c + Round(255.0 * delta / 100.0), 0, 255)
  }

  /** `shade(hex, delta)`: every channel moves by `round(255 * delta / 100)`,
      clamped to [0, 255], and is written back as two lower-case digits. */
  function Shade(hex: string, delta: real): (s: string)
    requires IsHexColour(hex)
    ensures |s| == 7 && s[0] == '#'
    ensures forall i :: 1 <= i < 7 ==> IsLowerHexDigit(s[i]) && IsHexDigit(s[i])
    ensures Channel(s, 1) == ShadeChannel(Channel(hex, 1), delta)
    ensures Channel(s, 3) == ShadeChannel(Channel(hex, 3), delta)
    ensures Channel(s, 5) == ShadeChannel(Channel(hex, 5), delta)
  {
    var r := Hex2(ShadeChannel(Channel(hex, 1), delta));
    var g := Hex2(ShadeChannel(Channel(hex, 3), delta));
    var b := Hex2(ShadeChannel(Channel(hex, 5), delta));
    Hex2ReadsBack(ShadeChannel(Channel(hex, 1), delta));
    Hex2ReadsBack(ShadeChannel(Channel(hex, 3), delta));
    Hex2ReadsBack(ShadeChannel(Channel(hex, 5), delta));
    ['#', r[0], r[1], g[0], g[1], b[0], b[1]]
  }

  /** `shade(hex, 0)` is `hex` with its six digits lower-cased. */
  lemma ShadeZeroLowercases(hex: string)
    requires IsHexColour(hex)
    ensures Shade(hex, 0.0) == ['#'] + seq(6, i requires 0 <= i < 6 => LowerDigit(hex[i + 1]))
  {
    var s := Shade(hex, 0.0);
    var t := ['#'] + seq(6, i requires 0 <= i < 6 => LowerDigit(hex[i + 1]));
    HexDigitsDetermine(s[1], s[2], hex[1], hex[2]);
    HexDigitsDetermine(s[3], s[4], hex[3], hex[4]);
    HexDigitsDetermine(s[5], s[6], hex[5], hex[6]);
    assert s == t;
  }

  /** Two lower-case digits that encode the same byte as two arbitrary hex
      digits are their lower-case forms. */
  lemma HexDigitsDetermine(a: char, b: char, x: char, y: char)
    requires IsLowerHexDigit(a) && IsLowerHexDigit(b) && IsHexDigit(x) && IsHexDigit(y)
    requires HexValue(a).value * 16 + HexValue(b).value == HexValue(x).value * 16 + HexValue(y).value
    ensures a == LowerDigit(x) && b == LowerDigit(y)
  {
    var va, vb, vx, vy := HexValue(a).value, HexValue(b).value, HexValue(x).value, HexValue(y).value;
    assert va == vx && vb == vy;
  }
}
