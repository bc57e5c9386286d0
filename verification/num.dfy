/** Numeric vocabulary shared by every module: JavaScript's rounding and
    remainder on numbers, 32-bit words, and the random draws that the game
    takes from `Math.random()`. */
module Num {

  datatype Option<+T> = None | Some(value: T)

  /** One `Math.random()` draw: a real in [0, 1). */
  type Unit = u: real | 0.0 <= u < 1.0

  /** An endless supply of draws; generators read it from a cursor. */
  type Stream = nat -> Unit

  /** A generated value and the stream cursor after the draws it used. */
  datatype Made<T> = Made(value: T, k: nat)


  function Min(a: real, b: real): real { if a <= b then a else b }
  function Max(a: real, b: real): real { if a >= b then a else b }
  function MinInt(a: int, b: int): int { if a <= b then a else b }
  function MaxInt(a: int, b: int): int { if a >= b then a else b }

  /** `Math.floor`. */
  function Floor(x: real): int { x.Floor }

  /** `Math.round`: halves round towards positive infinity. */
  function Round(x: real): (r: int)
    ensures x - 0.5 < r as real <= x + 0.5
  {
    (x + 0.5).Floor
  }

  lemma RoundMonotone(a: real, b: real)
    requires a <= b
    ensures Round(a) <= Round(b)
  {}

  /** Truncation towards zero, as `| 0` and JavaScript's `%` use it. */
  function Trunc(x: real): int {
    if x >= 0.0 then x.Floor else -((-x).Floor)
  }

  /** JavaScript's `a % p` on numbers: the remainder takes the sign of `a`. */
  function JsRem(a: real, p: real): (r: real)
    requires p > 0.0
    ensures -p < r < p
    ensures a >= 0.0 ==> 0.0 <= r
    ensures a < 0.0 ==> r <= 0.0
  {
    FloorRemBounds(a, p);
    FloorRemBounds(-a, p);
    NegDiv(a, p);
    a - p * (Trunc(a / p) as real)
  }

  lemma NegDiv(a: real, p: real)
    requires p > 0.0
    ensures (-a) / p == -(a / p)
  {
    var q := a / p;
    assert q * p == a;
    assert (-q) * p == -a;
  }

  /** The mathematical (Euclidean) remainder, the reference for JavaScript's
      `((a % p) + p) % p` idiom. */
  function EuclidRem(a: real, p: real): (r: real)
    requires p > 0.0
    ensures 0.0 <= r < p
  {
    FloorRemBounds(a, p);
    a - p * ((a / p).Floor as real)
  }

  lemma FloorRemBounds(a: real, p: real)
    requires p > 0.0
    ensures 0.0 <= a - p * ((a / p).Floor as real) < p
  {
    var q := a / p;
    var f := q.Floor as real;
    assert p * q == a;
    var d := f + 1.0 - q;
    var e := q - f;
    assert d > 0.0 && e >= 0.0;
    var pd := p * d;
    var pe := p * e;
    assert pd > 0.0 && pe >= 0.0;
    assert pd == p * f + p - p * q;
    assert pe == p * q - p * f;
  }

  /** A 32-bit word as an unsigned integer (`>>> 0`). */
  function U32(w: bv32): nat { w as nat }

  /** An integer reduced modulo 2^32, as `ToInt32` / `ToUint32` do. */
  function Word(n: int): bv32 { (n % 0x1_0000_0000) as bv32 }

  /** `w / 4294967295`: the closed-unit conversion used by the two
      hash-to-[0,1] helpers of the game (it reaches 1.0 for 0xFFFFFFFF). */
  function ClosedUnit(w: bv32): (r: real)
    ensures 0.0 <= r <= 1.0
    ensures r == 1.0 <==> w == 0xFFFF_FFFF
  {
    WordMaxIff(w);
    U32(w) as real / 4294967295.0
  }

  lemma WordMaxIff(w: bv32)
    ensures U32(w) <= 4294967295
    ensures U32(w) == 4294967295 <==> w == 0xFFFF_FFFF
  {
    if w as nat == 4294967295 {
      WordAtMax(w);
    }
  }

  lemma WordZeroIff(w: bv32)
    ensures U32(w) == 0 <==> w == 0
  {}

  lemma WordAtMax(w: bv32)
    requires w as nat == 4294967295
    ensures w == 0xFFFF_FFFF
  {}

  /** `w / 4294967296`: the half-open conversion used by the seeded PRNG. */
  function HalfOpenUnit(w: bv32): (r: real)
    ensures 0.0 <= r < 1.0
    ensures r == 0.0 <==> w == 0
  {
    WordZeroIff(w);
    U32(w) as real / 4294967296.0
  }
}
