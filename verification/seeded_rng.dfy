/** The seeded generator: a string seed hashed with 32-bit FNV-1a, then a
    xorshift32 state whose every draw is the new state over 2^32. */
module SeededRng {
  import opened Num

  /** A UTF-16 code unit, as `charCodeAt` returns it. */
  type CodeUnit = bv16

  const FnvOffset: bv32 := 0x811C_9DC5
  /** The state used when the hash is zero (xorshift never leaves zero). */
  const FallbackState: bv32 := 123456789

  /** One FNV-1a round: `h ^= c; h = Math.imul(h, 16777619)`; the prime
      16777619 is 0x01000193. */
  function FnvStep(h: bv32, c: CodeUnit): bv32 {
    (h ^ (c as bv32)) * 0x0100_0193
  }

  /** The reference fold: FNV-1a over the code units, left to right. */
  function Fnv1a(s: seq<CodeUnit>): bv32 {
    if |s| == 0 then FnvOffset else FnvStep(Fnv1a(s[..|s| - 1]), s[|s| - 1])
  }

  /** Published 32-bit FNV-1a test vectors: "" hashes to the offset basis,
      "a" to 0xe40c292c and "foobar" to 0xbf9cf968. */
  lemma Fnv1aKnownAnswers()
    ensures Fnv1a([]) == 0x811c_9dc5
    ensures Fnv1a([0x61]) == 0xe40c_292c
    ensures Fnv1a([0x66, 0x6f, 0x6f, 0x62, 0x61, 0x72]) == 0xbf9c_f968
  {
    Fnv1aSnoc([], 0x61);
    var p: seq<CodeUnit> := [];
    Fnv1aSnoc(p, 0x66); p := p + [0x66]; assert Fnv1a(p) == 0xe30c_2799;
    Fnv1aSnoc(p, 0x6f); p := p + [0x6f]; assert Fnv1a(p) == 0x6222_e842;
    Fnv1aSnoc(p, 0x6f); p := p + [0x6f]; assert Fnv1a(p) == 0xa9f3_7ed7;
    Fnv1aSnoc(p, 0x62); p := p + [0x62]; assert Fnv1a(p) == 0x3f50_76ef;
    Fnv1aSnoc(p, 0x61); p := p + [0x61]; assert Fnv1a(p) == 0x39aa_a18a;
    Fnv1aSnoc(p, 0x72); p := p + [0x72]; assert Fnv1a(p) == 0xbf9c_f968;
    assert p == [0x66, 0x6f, 0x6f, 0x62, 0x61, 0x72];
  }

  /** Hashing one more code unit is one more FNV step. */
  lemma Fnv1aSnoc(s: seq<CodeUnit>, c: CodeUnit)
    ensures Fnv1a(s + [c]) == FnvStep(Fnv1a(s), c)
  {
    assert (s + [c])[..|s|] == s;
  }

  /** The hashing loop of `createPRNG`. */
  method HashSeed(s: seq<CodeUnit>) returns (h: bv32)
    ensures h == Fnv1a(s)
  {
    h := FnvOffset;
    var i := 0;
    while i < |s|
      invariant 0 <= i <= |s|
      invariant h == Fnv1a(s[..i])
    {
      assert s[..i + 1][..i] == s[..i];
      h := FnvStep(h, s[i]);
      i := i + 1;
    }
    assert s[..i] == s;
  }

  /** `createPRNG(seed)`'s starting state: the hash, or the fallback when
      the hash is zero. */
  function InitialState(seed: seq<CodeUnit>): (x: bv32)
    ensures x != 0
    ensures Fnv1a(seed) != 0 ==> x == Fnv1a(seed)
    ensures Fnv1a(seed) == 0 ==> x == FallbackState
  {
    if Fnv1a(seed) != 0 then Fnv1a(seed) else FallbackState
  }

  /** The seed `createPRNG()` uses when called without one: "default". */
  const DefaultSeed: seq<CodeUnit> := [0x64, 0x65, 0x66, 0x61, 0x75, 0x6C, 0x74]

  /** `seedStr = "default"`: an absent seed falls back to the default. */
  function SeedOrDefault(seed: Option<seq<CodeUnit>>): (s: seq<CodeUnit>)
    ensures seed.Some? ==> s == seed.value
    ensures seed.None? ==> s == DefaultSeed
  {
    if seed.Some? then seed.value else DefaultSeed
  }

  /** One xorshift32 step: `x ^= x << 13; x ^= x >>> 17; x ^= x << 5`. */
  function Xorshift32(x: bv32): bv32 {
    var a := x ^ (x << 13);
    var b := a ^ (a >> 17);
    b ^ (b << 5)
  }

  /** A non-zero state stays non-zero, and only zero maps to zero. */
  lemma XorshiftNonZero(x: bv32)
    ensures x != 0 <==> Xorshift32(x) != 0
  {
    StepNonZero(x, Xorshift32(x));
  }

  lemma StepNonZero(x: bv32, y: bv32)
    requires y == (var a := x ^ (x << 13); var b := a ^ (a >> 17); b ^ (b << 5))
    ensures x != 0 <==> y != 0
  {}

  /** The state after `n` draws. */
  function StateAfter(x0: bv32, n: nat): (x: bv32)
    ensures x0 != 0 ==> x != 0
  {
    if n == 0 then x0
    else
      var p := StateAfter(x0, n - 1);
      XorshiftNonZero(p);
      Xorshift32(p)
  }

  /** Drawing `m` then `n` times is drawing `m + n` times: the generator
      carries no state besides the word. */
  lemma {:induction false} StateAfterAdds(x0: bv32, m: nat, n: nat)
    ensures StateAfter(StateAfter(x0, m), n) == StateAfter(x0, m + n)
  {
    if n > 0 {
      StateAfterAdds(x0, m, n - 1);
    }
  }

  /** A draw and the generator state after it. */
  datatype Drawn = Drawn(u: Unit, state: bv32)

  /** One call of the returned `prng()`: advance, then scale to [0, 1). */
  function Next(x: bv32): (r: Drawn)
    ensures r.state == Xorshift32(x)
    ensures r.u == HalfOpenUnit(r.state)
    ensures x != 0 ==> r.state != 0 && r.u > 0.0
  {
    var y := Xorshift32(x);
    XorshiftNonZero(x);
    Drawn(HalfOpenUnit(y), y)
  }

  /** The first `n` draws of `createPRNG(seed)`, by calling `prng()` `n` times. */
  method Draws(seed: seq<CodeUnit>, n: nat) returns (ds: seq<Unit>)
    ensures |ds| == n
    ensures forall i :: 0 <= i < n ==> 0.0 < ds[i] < 1.0
    ensures forall i :: 0 <= i < n ==> ds[i] == HalfOpenUnit(StateAfter(InitialState(seed), i + 1))
  {
    var h := HashSeed(seed);
    var x := if h != 0 then h else FallbackState;
    ds := [];
    while |ds| < n
      invariant |ds| <= n
      invariant x == StateAfter(InitialState(seed), |ds|)
      invariant forall i :: 0 <= i < |ds| ==> 0.0 < ds[i] && ds[i] == HalfOpenUnit(StateAfter(InitialState(seed), i + 1))
    {
      var next := Next(x);
      ds := ds + [next.u];
      x := next.state;
    }
  }
}
