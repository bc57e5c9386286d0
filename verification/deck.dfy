/** The under-deck wall: gap ids, the solid spans between gaps, the theme
    each span is painted with, the tile phase of a span, and the flags of
    the lazily built tile cache. Painting itself is not modelled. */
module Deck {
  import opened Num
  import opened Utils
  import opened Obstacles

  /** `THEME_REGISTRY.length`. */
  const ThemeCount: nat := 4
  const PilasterW: int := 18
  const BayW: int := 148
  /** One tile: a pilaster and a bay. */
  const Period: int := PilasterW + BayW

  /** The key `${tileH}|${period}|${themeCount}` of a cache build; the
      empty string of a fresh cache is `NoKey`. */
  datatype CacheKey = NoKey | Key(tileH: real, period: int, themeCount: int)

  /** `state.__ud`; `built[i]` says whether `cache[i]` holds a tile. */
  datatype TileCache = TileCache(
    pilasterW: int, bayW: int, period: int, tileH: real,
    built: seq<bool>, ready: bool, buildRequested: bool, key: CacheKey)

  /** The deck fields of the game state besides the gap list. `themes`
      holds each gap's `__theme`, keyed by the gap's id. */
  datatype DeckMeta = DeckMeta(
    scrollX: real, gapIdCounter: nat, themeSalt: int, themeCount: nat,
    firstSpanTheme: int, carryLeftTheme: int, ud: TileCache, themes: map<nat, int>)

  // ---------------------------------------------------------------------
  // initUnderDeck

  /** `initUnderDeck`: `u1` is the salt draw and `u2` the first-span draw. */
  function InitUnderDeck(u1: Unit, u2: Unit): (r: (seq<Gap>, DeckMeta))
    ensures r.0 == [] && r.1.scrollX == 0.0 && r.1.gapIdCounter == 1
    ensures 0 <= r.1.themeSalt < 0x7FFF_FFFF
    ensures r.1.themeCount == ThemeCount
    ensures 0 <= r.1.firstSpanTheme < ThemeCount && r.1.carryLeftTheme == r.1.firstSpanTheme
    ensures r.1.ud.period == 166 && |r.1.ud.built| == ThemeCount
    ensures forall i :: 0 <= i < |r.1.ud.built| ==> !r.1.ud.built[i]
    ensures !r.1.ud.ready && !r.1.ud.buildRequested && r.1.ud.key == NoKey
    ensures r.1.themes == map[]
  {
    var salt := Scaled(u1, 2147483647.0).Floor;
    var first := Scaled(u2, ThemeCount as real).Floor;
    var ud := TileCache(PilasterW, BayW, Period, 0.0, seq(ThemeCount, _ => false), false, false, NoKey);
    ([], DeckMeta(0.0, 1, salt, ThemeCount, first, first, ud, map[]))
  }

  // ---------------------------------------------------------------------
  // Gap ids

  /** The id the next unnumbered gap receives: `(counter || 1) + 1`. */
  function NextGid(counter: nat): (id: nat)
    ensures id > counter && id >= 2
  {
    (if counter == 0 then 1 else counter) + 1
  }

  /** The gaps after numbering and the id counter afterwards. */
  datatype Numbered = Numbered(gaps: seq<Gap>, counter: nat)

  /** The loop at the start of `drawDeck`: every gap without `__gid` gets the
      next counter value, left to right. */
  function AssignGids(gaps: seq<Gap>, counter: nat): (r: Numbered)
    ensures |r.gaps| == |gaps| && r.counter >= counter
    ensures forall i :: 0 <= i < |gaps| ==> r.gaps[i].x == gaps[i].x && r.gaps[i].w == gaps[i].w
    ensures forall i :: 0 <= i < |gaps| ==> r.gaps[i].gid.Some?
    ensures forall i :: 0 <= i < |gaps| && gaps[i].gid.Some? ==> r.gaps[i] == gaps[i]
    ensures forall i :: 0 <= i < |gaps| && gaps[i].gid.None? ==> counter < r.gaps[i].gid.value <= r.counter
    ensures forall i, j :: 0 <= i < j < |gaps| && gaps[i].gid.None? && gaps[j].gid.None? ==>
      r.gaps[i].gid.value < r.gaps[j].gid.value
    decreases |gaps|
  {
    if |gaps| == 0 then Numbered([], counter)
    else
      var g := gaps[0];
      var c := if g.gid.Some? then counter else NextGid(counter);
      var head := if g.gid.Some? then g else Gap(g.x, g.w, Some(c));
      var rest := AssignGids(gaps[1..], c);
      NumberedCons(gaps, counter, head, c, rest);
      Numbered([head] + rest.gaps, rest.counter)
  }

  /** The inductive step of `AssignGids`, kept apart so that the recursive
      function's own proof stays small. */
  lemma NumberedCons(gaps: seq<Gap>, counter: nat, head: Gap, c: nat, rest: Numbered)
    requires |gaps| > 0
    requires c == (if gaps[0].gid.Some? then counter else NextGid(counter))
    requires head == (if gaps[0].gid.Some? then gaps[0] else Gap(gaps[0].x, gaps[0].w, Some(c)))
    requires |rest.gaps| == |gaps| - 1 && rest.counter >= c
    requires forall i :: 0 <= i < |gaps| - 1 ==> rest.gaps[i].x == gaps[i + 1].x && rest.gaps[i].w == gaps[i + 1].w
    requires forall i :: 0 <= i < |gaps| - 1 ==> rest.gaps[i].gid.Some?
    requires forall i :: 0 <= i < |gaps| - 1 && gaps[i + 1].gid.Some? ==> rest.gaps[i] == gaps[i + 1]
    requires forall i :: 0 <= i < |gaps| - 1 && gaps[i + 1].gid.None? ==> c < rest.gaps[i].gid.value <= rest.counter
    requires forall i, j :: 0 <= i < j < |gaps| - 1 && gaps[i + 1].gid.None? && gaps[j + 1].gid.None? ==>
      rest.gaps[i].gid.value < rest.gaps[j].gid.value
    ensures var r := [head] + rest.gaps;
      && |r| == |gaps| && rest.counter >= counter
      && (forall i :: 0 <= i < |gaps| ==> r[i].x == gaps[i].x && r[i].w == gaps[i].w)
      && (forall i :: 0 <= i < |gaps| ==> r[i].gid.Some?)
      && (forall i :: 0 <= i < |gaps| && gaps[i].gid.Some? ==> r[i] == gaps[i])
      && (forall i :: 0 <= i < |gaps| && gaps[i].gid.None? ==> counter < r[i].gid.value <= rest.counter)
      && (forall i, j :: 0 <= i < j < |gaps| && gaps[i].gid.None? && gaps[j].gid.None? ==>
            r[i].gid.value < r[j].gid.value)
  {
    var r := [head] + rest.gaps;
    assert forall i :: 1 <= i < |gaps| ==> r[i] == rest.gaps[i - 1];
    forall i | 1 <= i < |gaps| && gaps[i].gid.None?
      ensures counter < r[i].gid.value <= rest.counter
    {
      assert r[i] == rest.gaps[i - 1];
      assert c < rest.gaps[i - 1].gid.value;
    }
    forall i, j | 0 <= i < j < |gaps| && gaps[i].gid.None? && gaps[j].gid.None?
      ensures r[i].gid.value < r[j].gid.value
    {
      assert r[j] == rest.gaps[j - 1];
      if i > 0 {
        assert r[i] == rest.gaps[i - 1];
      }
    }
  }

  /** Ids present in the list are distinct and none exceeds the counter. */
  predicate GidsFresh(gaps: seq<Gap>, counter: nat) {
    && (forall i :: 0 <= i < |gaps| && gaps[i].gid.Some? ==> gaps[i].gid.value <= counter)
    && (forall i, j :: 0 <= i < j < |gaps| && gaps[i].gid.Some? && gaps[j].gid.Some? ==>
          gaps[i].gid.value != gaps[j].gid.value)
  }

  /** Assignment keeps ids distinct and bounded by the counter, so every id
      names one gap. */
  lemma {:induction false} AssignKeepsGidsFresh(gaps: seq<Gap>, counter: nat)
    requires GidsFresh(gaps, counter)
    ensures GidsFresh(AssignGids(gaps, counter).gaps, AssignGids(gaps, counter).counter)
    decreases |gaps|
  {
    if |gaps| > 0 {
      var g := gaps[0];
      var c := if g.gid.Some? then counter else NextGid(counter);
      var tail := gaps[1..];
      assert GidsFresh(tail, c) by {
        forall i, j | 0 <= i < j < |tail| && tail[i].gid.Some? && tail[j].gid.Some?
          ensures tail[i].gid.value != tail[j].gid.value
        {
          assert tail[i] == gaps[i + 1] && tail[j] == gaps[j + 1];
        }
        forall i | 0 <= i < |tail| && tail[i].gid.Some?
          ensures tail[i].gid.value <= c
        {
          assert tail[i] == gaps[i + 1];
        }
      }
      AssignKeepsGidsFresh(tail, c);
      var r := AssignGids(gaps, counter);
      var rest := AssignGids(tail, c);
      assert r.gaps == [r.gaps[0]] + rest.gaps;
      forall j | 1 <= j < |gaps|
        ensures r.gaps[0].gid.value != r.gaps[j].gid.value
      {
        assert r.gaps[j] == rest.gaps[j - 1];
        if g.gid.Some? {
          if gaps[j].gid.Some? {
            assert tail[j - 1] == gaps[j];
          }
        }
      }
    }
  }

  // ---------------------------------------------------------------------
  // Theme hashing

  /** The 32-bit mix of `rand01` before the division. */
  function HashWord(n: bv32): bv32 {
    var a := (n ^ 61) ^ (n >> 16);
    var b := a + (a << 3);
    var c := b ^ (b >> 4);
    var d := c * 0x27d4_eb2d;
    d ^ (d >> 15)
  }

  /** `rand01`: the hash word over 2^32 - 1, so it reaches 1.0. */
  function Rand01(n: bv32): (r: real)
    ensures 0.0 <= r <= 1.0
    ensures r == 1.0 <==> HashWord(n) == 0xFFFF_FFFF
  {
    ClosedUnit(HashWord(n))
  }

  /** The word `pickThemeIndex` hashes: `Math.imul((gapId ^ salt) | 0, 0x9e3779b1)`. */
  function ThemeWord(gapId: int, salt: int): bv32 {
    (Word(gapId) ^ Word(salt)) * 0x9e37_79b1
  }

  /** `Math.floor(r * themeCount) | 0` for `r` in [0, 1]: below the count
      except at `r == 1`. */
  function ScaleToIndex(r: real, count: nat): (k: int)
    requires 0.0 <= r <= 1.0
    ensures 0 <= k <= count
    ensures k == count <==> count == 0 || r == 1.0
  {
    if r == 1.0 then
      assert r * count as real == count as real;
      count
    else
      var e := Scaled(r, count as real);
      assert e == r * count as real;
      e.Floor
  }

  /** `pickThemeIndex`: `floor(rand01(...) * themeCount)`. It lies in
      [0, themeCount], and reaches `themeCount` exactly when the hash word is
      all ones. */
  function PickThemeIndex(gapId: int, salt: int, count: nat): (k: int)
    ensures 0 <= k <= count
    ensures k == count <==> count == 0 || HashWord(ThemeWord(gapId, salt)) == 0xFFFF_FFFF
  {
    ScaleToIndex(Rand01(ThemeWord(gapId, salt)), count)
  }

  /** The one value of `gapId ^ salt` whose hash is all ones: 0xb83b08ac. */
  lemma HashAllOnesPreimage(x: bv32)
    ensures HashWord(x * 0x9e37_79b1) == 0xFFFF_FFFF <==> x == 0xb83b_08ac
  {
    var y := x * 0x9e37_79b1;
    var n := HashWord(y);
    UnfoldHashWord(y, n);
    AllOnesLeaf(x, y, n);
  }

  lemma UnfoldHashWord(y: bv32, n: bv32)
    requires n == HashWord(y)
    ensures n == (var a := (y ^ 61) ^ (y >> 16);
                  var b := a + (a << 3);
                  var c := b ^ (b >> 4);
                  var d := c * 0x27d4_eb2d;
                  d ^ (d >> 15))
  {}

  lemma AllOnesLeaf(x: bv32, y: bv32, n: bv32)
    requires y == x * 0x9e37_79b1
    requires n == (var a := (y ^ 61) ^ (y >> 16);
                   var b := a + (a << 3);
                   var c := b ^ (b >> 4);
                   var d := c * 0x27d4_eb2d;
                   d ^ (d >> 15))
    ensures n == 0xFFFF_FFFF <==> x == 0xb83b_08ac
  {}

  /** With a salt below 2^31 (as `initUnderDeck` draws it) and an id below
      2^31, the index is always a valid theme: the all-ones preimage has its
      top bit set, which `gapId ^ salt` cannot. */
  lemma ThemeIndexInRange(gapId: int, salt: int, count: nat)
    requires 0 <= gapId < 0x8000_0000 && 0 <= salt < 0x8000_0000 && count > 0
    ensures 0 <= PickThemeIndex(gapId, salt, count) < count
  {
    WordBelow(gapId);
    WordBelow(salt);
    XorBelow(Word(gapId), Word(salt));
    HashAllOnesPreimage(Word(gapId) ^ Word(salt));
  }

  lemma WordBelow(n: int)
    requires 0 <= n < 0x8000_0000
    ensures Word(n) < 0x8000_0000
  {
    assert n % 0x1_0000_0000 == n;
  }

  lemma XorBelow(a: bv32, b: bv32)
    requires a < 0x8000_0000 && b < 0x8000_0000
    ensures a ^ b < 0x8000_0000
  {}

  // ---------------------------------------------------------------------
  // Sorting a copy of the gaps by x

  predicate SortedByX(gs: seq<Gap>) {
    forall i, j :: 0 <= i < j < |gs| ==> gs[i].x <= gs[j].x
  }

  /** Inserts `g` after every element whose x is at most `g.x` (stable). */
  function InsertByX(sorted: seq<Gap>, g: Gap): (r: seq<Gap>)
    requires SortedByX(sorted)
    ensures |r| == |sorted| + 1
    ensures forall k :: 0 <= k < |r| ==> r[k] == g || r[k] in sorted
    ensures SortedByX(r)
    ensures multiset(r) == multiset(sorted) + multiset{g}
    decreases |sorted|
  {
    if |sorted| == 0 then [g]
    else if sorted[|sorted| - 1].x <= g.x then
      AppendAbove(sorted, g);
      sorted + [g]
    else
      var init := sorted[..|sorted| - 1];
      var last := sorted[|sorted| - 1];
      assert sorted == init + [last];
      assert SortedByX(init);
      var ins := InsertByX(init, g);
      InsertedBelowLast(sorted, g, ins);
      assert multiset(ins + [last]) == multiset(ins) + multiset{last};
      ins + [last]
  }

  /** Appending an element at or right of the last keeps the order. */
  lemma AppendAbove(sorted: seq<Gap>, g: Gap)
    requires SortedByX(sorted) && |sorted| > 0 && sorted[|sorted| - 1].x <= g.x
    ensures SortedByX(sorted + [g])
    ensures forall k :: 0 <= k < |sorted + [g]| ==> (sorted + [g])[k] == g || (sorted + [g])[k] in sorted
  {
    var r := sorted + [g];
    forall i, j | 0 <= i < j < |r| ensures r[i].x <= r[j].x {
      assert r[i] == sorted[i];
      if j < |sorted| {
        assert r[j] == sorted[j];
      }
    }
  }

  lemma InsertedBelowLast(sorted: seq<Gap>, g: Gap, ins: seq<Gap>)
    requires |sorted| > 0 && SortedByX(sorted) && g.x < sorted[|sorted| - 1].x
    requires SortedByX(ins)
    requires forall k :: 0 <= k < |ins| ==> ins[k] == g || ins[k] in sorted[..|sorted| - 1]
    ensures SortedByX(ins + [sorted[|sorted| - 1]])
    ensures forall k :: 0 <= k < |ins| ==> ins[k] == g || ins[k] in sorted
  {
    var last := sorted[|sorted| - 1];
    var r := ins + [last];
    forall i, j | 0 <= i < j < |r| ensures r[i].x <= r[j].x {
      if j < |ins| {
        assert r[i] == ins[i] && r[j] == ins[j];
      } else {
        assert r[i] == ins[i];
        if ins[i] != g {
          var k :| 0 <= k < |sorted| - 1 && sorted[..|sorted| - 1][k] == ins[i];
          assert sorted[k] == ins[i];
        }
      }
    }
    forall k | 0 <= k < |ins| && ins[k] != g ensures ins[k] in sorted {
      var m :| 0 <= m < |sorted| - 1 && sorted[..|sorted| - 1][m] == ins[k];
      assert sorted[m] == ins[k];
    }
  }

  /** `gaps.slice().sort((a, b) => a.x - b.x)`: a sorted copy, ordered by x. */
  function SortByX(gs: seq<Gap>): (r: seq<Gap>)
    ensures SortedByX(r)
    ensures multiset(r) == multiset(gs)
    ensures |r| == |gs|
    decreases |gs|
  {
    if |gs| == 0 then []
    else
      assert gs == gs[..|gs| - 1] + [gs[|gs| - 1]];
      InsertByX(SortByX(gs[..|gs| - 1]), gs[|gs| - 1])
  }

  // ---------------------------------------------------------------------
  // getWorldSpansThenClip

  /** A solid span of the wall with the gaps on either side of it. */
  datatype Span = Span(x: real, w: real, leftGap: Option<Gap>, rightGap: Option<Gap>)

  const FarLeft: real := -1_000_000_000.0
  const FarWidth: real := 1_000_000_000_000.0

  /** The padded screen interval a gap cuts out: `[round(x) - margin, round(x + w) + margin)`. */
  function PadLeft(g: Gap, margin: real): real { Round(g.x) as real - margin }
  function PadRight(g: Gap, margin: real): real { Round(g.x + g.w) as real + margin }

  predicate Avoids(s: Span, g: Gap, margin: real) {
    s.x + s.w <= PadLeft(g, margin) || PadRight(g, margin) <= s.x
  }

  predicate InSpan(s: Span, y: real) { s.x <= y < s.x + s.w }

  /** Spans strictly left to right, each ending before the next starts. */
  predicate Ascending(spans: seq<Span>) {
    forall i, j :: 0 <= i < j < |spans| ==> spans[i].x + spans[i].w <= spans[j].x
  }

  predicate NonNegativeWidths(gs: seq<Gap>) {
    forall i :: 0 <= i < |gs| ==> gs[i].w >= 0.0
  }

  /** The first loop of `getWorldSpansThenClip`, from `cursor` on, with
      `prev` the gap just passed; it ends with the open span after the last
      gap. */
  function WorldSpansFrom(list: seq<Gap>, cursor: real, prev: Option<Gap>, margin: real): (r: seq<Span>)
    ensures |r| >= 1
    ensures forall i :: 0 <= i < |r| ==> r[i].x >= cursor && r[i].w > 0.0
    ensures r[|r| - 1].rightGap.None? && r[|r| - 1].w == FarWidth
    decreases |list|
  {
    if |list| == 0 then [Span(cursor, FarWidth, prev, None)]
    else
      var g := list[0];
      var rest := WorldSpansFrom(list[1..], Max(cursor, PadRight(g, margin)), Some(g), margin);
      if PadLeft(g, margin) > cursor then [Span(cursor, PadLeft(g, margin) - cursor, prev, Some(g))] + rest
      else rest
  }

  /** The visible part of each world span (the second loop). */
  function Clip(spans: seq<Span>, screenW: real): (r: seq<Span>)
    ensures forall i :: 0 <= i < |r| ==> r[i].x >= 0.0 && r[i].w > 0.0 && r[i].x + r[i].w <= screenW
    ensures |r| <= |spans|
  {
    if |spans| == 0 then []
    else
      var s := spans[0];
      var vx := Max(0.0, s.x);
      var vw := Min(screenW, s.x + s.w) - vx;
      var rest := Clip(spans[1..], screenW);
      if vw > 0.0 then [Span(vx, vw, s.leftGap, s.rightGap)] + rest else rest
  }

  /** `getWorldSpansThenClip(W, gaps, margin)`. */
  function WorldSpansThenClip(screenW: real, gaps: seq<Gap>, margin: real): (r: seq<Span>)
    ensures |r| >= 1
    ensures |gaps| == 0 ==> r == [Span(0.0, screenW, None, None)]
    ensures forall i :: 0 <= i < |r| ==> r[i].x >= 0.0 && r[i].x + r[i].w <= screenW
    ensures screenW > 0.0 ==> forall i :: 0 <= i < |r| ==> r[i].w > 0.0
  {
    var list := SortByX(gaps);
    if |list| == 0 then [Span(0.0, screenW, None, None)]
    else
      var visible := Clip(WorldSpansFrom(list, FarLeft, None, margin), screenW);
      if |visible| == 0 then [Span(0.0, screenW, Some(list[|list| - 1]), None)] else visible
  }

  /** One pass of the span loop: an optional span before the first gap,
      then the spans after it. */
  lemma WorldSpansStep(list: seq<Gap>, cursor: real, prev: Option<Gap>, margin: real)
    requires |list| > 0
    ensures var g := list[0];
      WorldSpansFrom(list, cursor, prev, margin)
      == (if PadLeft(g, margin) > cursor then [Span(cursor, PadLeft(g, margin) - cursor, prev, Some(g))] else [])
         + WorldSpansFrom(list[1..], Max(cursor, PadRight(g, margin)), Some(g), margin)
  {}

  /** A span ending no later than every span of an ascending list may go
      in front of it. */
  lemma ConsAscending(s: Span, rest: seq<Span>)
    requires Ascending(rest)
    requires forall i :: 0 <= i < |rest| ==> s.x + s.w <= rest[i].x
    ensures Ascending([s] + rest)
  {
    var r := [s] + rest;
    forall i, j | 0 <= i < j < |r|
      ensures r[i].x + r[i].w <= r[j].x
    {
      assert r[j] == rest[j - 1];
      if i > 0 {
        assert r[i] == rest[i - 1];
      }
    }
  }

  /** The world spans are ascending: each starts where the previous gap's
      padded interval ends or later. */
  lemma {:induction false} WorldSpansAscending(list: seq<Gap>, cursor: real, prev: Option<Gap>, margin: real)
    requires NonNegativeWidths(list) && margin >= 0.0
    ensures Ascending(WorldSpansFrom(list, cursor, prev, margin))
    decreases |list|
  {
    if |list| > 0 {
      TailKeepsOrder(list);
      WorldSpansAscending(list[1..], Max(cursor, PadRight(list[0], margin)), Some(list[0]), margin);
      AscendingStep(list, cursor, prev, margin);
    }
  }

  /** The span before the first gap ends where that gap's padded interval
      starts, left of every later span. */
  lemma AscendingStep(list: seq<Gap>, cursor: real, prev: Option<Gap>, margin: real)
    requires |list| > 0 && list[0].w >= 0.0 && margin >= 0.0
    requires Ascending(WorldSpansFrom(list[1..], Max(cursor, PadRight(list[0], margin)), Some(list[0]), margin))
    ensures Ascending(WorldSpansFrom(list, cursor, prev, margin))
  {
    var g := list[0];
    var rest := WorldSpansFrom(list[1..], Max(cursor, PadRight(g, margin)), Some(g), margin);
    WorldSpansStep(list, cursor, prev, margin);
    if PadLeft(g, margin) > cursor {
      var c := Max(cursor, PadRight(g, margin));
      RoundMonotone(g.x, g.x + g.w);
      assert PadLeft(g, margin) <= c;
      assert forall i :: 0 <= i < |rest| ==> c <= rest[i].x;
      ConsAscending(Span(cursor, PadLeft(g, margin) - cursor, prev, Some(g)), rest);
    } else {
      assert [] + rest == rest;
    }
  }

  lemma TailKeepsOrder(list: seq<Gap>)
    requires |list| > 0 && NonNegativeWidths(list)
    ensures NonNegativeWidths(list[1..])
    ensures SortedByX(list) ==> SortedByX(list[1..])
  {
    assert forall i :: 0 <= i < |list[1..]| ==> list[1..][i] == list[i + 1];
  }

  /** Every world span avoids the padded interval of every gap of the sorted list. */
  lemma {:induction false} WorldSpansAvoidGaps(list: seq<Gap>, cursor: real, prev: Option<Gap>, margin: real)
    requires SortedByX(list) && NonNegativeWidths(list) && margin >= 0.0
    ensures forall i, j :: 0 <= i < |WorldSpansFrom(list, cursor, prev, margin)| && 0 <= j < |list| ==>
      Avoids(WorldSpansFrom(list, cursor, prev, margin)[i], list[j], margin)
    decreases |list|
  {
    if |list| > 0 {
      var g := list[0];
      var tail := list[1..];
      var c := Max(cursor, PadRight(g, margin));
      TailKeepsOrder(list);
      WorldSpansAvoidGaps(tail, c, Some(g), margin);
      var rest := WorldSpansFrom(tail, c, Some(g), margin);
      RestAvoidsAll(list, rest, c, margin);
      if PadLeft(g, margin) > cursor {
        var s := Span(cursor, PadLeft(g, margin) - cursor, prev, Some(g));
        FirstSpanAvoids(list, s, margin);
        var r := [s] + rest;
        assert r == WorldSpansFrom(list, cursor, prev, margin);
        forall i, j | 0 <= i < |r| && 0 <= j < |list| ensures Avoids(r[i], list[j], margin) {
          if i > 0 {
            assert r[i] == rest[i - 1];
          }
        }
      } else {
        assert rest == WorldSpansFrom(list, cursor, prev, margin);
      }
    }
  }

  /** The spans after the head gap start right of its padded interval, and
      avoid the later gaps by induction. */
  lemma RestAvoidsAll(list: seq<Gap>, rest: seq<Span>, c: real, margin: real)
    requires |list| > 0 && c >= PadRight(list[0], margin)
    requires forall i :: 0 <= i < |rest| ==> rest[i].x >= c
    requires forall i, j :: 0 <= i < |rest| && 0 <= j < |list| - 1 ==> Avoids(rest[i], list[1..][j], margin)
    ensures forall i, j :: 0 <= i < |rest| && 0 <= j < |list| ==> Avoids(rest[i], list[j], margin)
  {
    forall i, j | 0 <= i < |rest| && 0 <= j < |list| ensures Avoids(rest[i], list[j], margin) {
      if j > 0 {
        assert list[j] == list[1..][j - 1];
      }
    }
  }

  /** The span left of the head gap ends at that gap's padded start, which
      is at or left of every later gap's padded start. */
  lemma FirstSpanAvoids(list: seq<Gap>, s: Span, margin: real)
    requires |list| > 0 && SortedByX(list) && s.x + s.w == PadLeft(list[0], margin)
    ensures forall j :: 0 <= j < |list| ==> Avoids(s, list[j], margin)
  {
    forall j | 0 <= j < |list| ensures Avoids(s, list[j], margin) {
      RoundMonotone(list[0].x, list[j].x);
    }
  }

  /** Every point at or right of the cursor that lies outside every padded
      gap interval is inside some world span. */
  lemma {:induction false} WorldSpansCover(list: seq<Gap>, cursor: real, prev: Option<Gap>, margin: real, y: real)
    requires cursor <= y < cursor + FarWidth
    requires forall j :: 0 <= j < |list| ==> y < PadLeft(list[j], margin) || PadRight(list[j], margin) <= y
    ensures exists i :: (0 <= i < |WorldSpansFrom(list, cursor, prev, margin)| &&
      InSpan(WorldSpansFrom(list, cursor, prev, margin)[i], y))
    decreases |list|
  {
    if |list| == 0 {
      assert InSpan(WorldSpansFrom(list, cursor, prev, margin)[0], y);
    } else if y < PadLeft(list[0], margin) {
      CoverBeforeFirst(list, cursor, prev, margin, y);
    } else {
      var c := Max(cursor, PadRight(list[0], margin));
      TailAvoided(list, margin, y);
      WorldSpansCover(list[1..], c, Some(list[0]), margin, y);
      CoverAfterFirst(list, cursor, prev, margin, y);
    }
  }

  /** A point left of the first padded gap is in the span before it. */
  lemma CoverBeforeFirst(list: seq<Gap>, cursor: real, prev: Option<Gap>, margin: real, y: real)
    requires |list| > 0 && cursor <= y < PadLeft(list[0], margin)
    ensures exists i :: (0 <= i < |WorldSpansFrom(list, cursor, prev, margin)| &&
      InSpan(WorldSpansFrom(list, cursor, prev, margin)[i], y))
  {
    var g := list[0];
    WorldSpansStep(list, cursor, prev, margin);
    CoveredByHead([Span(cursor, PadLeft(g, margin) - cursor, prev, Some(g))],
                  WorldSpansFrom(list[1..], Max(cursor, PadRight(g, margin)), Some(g), margin), y);
  }

  /** A point covered by the spans after the first gap is covered. */
  lemma CoverAfterFirst(list: seq<Gap>, cursor: real, prev: Option<Gap>, margin: real, y: real)
    requires |list| > 0
    requires var c := Max(cursor, PadRight(list[0], margin));
      exists i :: (0 <= i < |WorldSpansFrom(list[1..], c, Some(list[0]), margin)| &&
        InSpan(WorldSpansFrom(list[1..], c, Some(list[0]), margin)[i], y))
    ensures exists i :: (0 <= i < |WorldSpansFrom(list, cursor, prev, margin)| &&
      InSpan(WorldSpansFrom(list, cursor, prev, margin)[i], y))
  {
    var g := list[0];
    WorldSpansStep(list, cursor, prev, margin);
    var head := if PadLeft(g, margin) > cursor then [Span(cursor, PadLeft(g, margin) - cursor, prev, Some(g))] else [];
    CoveredByRest(head, WorldSpansFrom(list[1..], Max(cursor, PadRight(g, margin)), Some(g), margin), y);
  }

  lemma TailAvoided(list: seq<Gap>, margin: real, y: real)
    requires |list| > 0
    requires forall j :: 0 <= j < |list| ==> y < PadLeft(list[j], margin) || PadRight(list[j], margin) <= y
    ensures forall j :: 0 <= j < |list[1..]| ==> y < PadLeft(list[1..][j], margin) || PadRight(list[1..][j], margin) <= y
  {
    forall j | 0 <= j < |list[1..]|
      ensures y < PadLeft(list[1..][j], margin) || PadRight(list[1..][j], margin) <= y
    {
      assert list[1..][j] == list[j + 1];
    }
  }

  lemma CoveredByHead(head: seq<Span>, rest: seq<Span>, y: real)
    requires |head| > 0 && InSpan(head[0], y)
    ensures exists i :: 0 <= i < |head + rest| && InSpan((head + rest)[i], y)
  {
    assert (head + rest)[0] == head[0];
  }

  lemma CoveredByRest(head: seq<Span>, rest: seq<Span>, y: real)
    requires exists i :: 0 <= i < |rest| && InSpan(rest[i], y)
    ensures exists i :: 0 <= i < |head + rest| && InSpan((head + rest)[i], y)
  {
    var i :| 0 <= i < |rest| && InSpan(rest[i], y);
    assert (head + rest)[|head| + i] == rest[i];
  }

  /** Clipping never moves a span left of a bound all spans respect. */
  lemma {:induction false} ClipLowerBound(spans: seq<Span>, screenW: real, lo: real)
    requires forall i :: 0 <= i < |spans| ==> spans[i].x >= lo
    ensures forall i :: 0 <= i < |Clip(spans, screenW)| ==> Clip(spans, screenW)[i].x >= lo
    decreases |spans|
  {
    if |spans| > 0 {
      assert forall i :: 0 <= i < |spans[1..]| ==> spans[1..][i] == spans[i + 1];
      ClipLowerBound(spans[1..], screenW, lo);
    }
  }

  /** A clipped span lies inside the world span it comes from, so it avoids
      every gap interval the world spans avoid. */
  lemma {:induction false} ClipKeepsAvoid(spans: seq<Span>, screenW: real, g: Gap, margin: real)
    requires forall i :: 0 <= i < |spans| ==> Avoids(spans[i], g, margin)
    ensures forall i :: 0 <= i < |Clip(spans, screenW)| ==> Avoids(Clip(spans, screenW)[i], g, margin)
    decreases |spans|
  {
    if |spans| > 0 {
      assert forall i :: 0 <= i < |spans[1..]| ==> spans[1..][i] == spans[i + 1];
      ClipKeepsAvoid(spans[1..], screenW, g, margin);
    }
  }

  /** Clipping keeps the spans ascending. */
  lemma {:induction false} ClipKeepsOrder(spans: seq<Span>, screenW: real)
    requires Ascending(spans)
    ensures Ascending(Clip(spans, screenW))
    decreases |spans|
  {
    if |spans| > 0 {
      var tail := spans[1..];
      assert forall i :: 0 <= i < |tail| ==> tail[i] == spans[i + 1];
      ClipKeepsOrder(tail, screenW);
      var s := spans[0];
      ClipLowerBound(tail, screenW, s.x + s.w);
      var r := Clip(spans, screenW);
      var rest := Clip(tail, screenW);
      if Min(screenW, s.x + s.w) - Max(0.0, s.x) > 0.0 {
        assert forall i :: 1 <= i < |r| ==> r[i] == rest[i - 1];
      }
    }
  }

  /** A point of the screen inside a span stays inside its clipped part. */
  lemma {:induction false} ClipKeepsScreenPoints(spans: seq<Span>, screenW: real, y: real, j: nat)
    requires 0.0 <= y < screenW && j < |spans| && InSpan(spans[j], y)
    ensures exists i :: 0 <= i < |Clip(spans, screenW)| && InSpan(Clip(spans, screenW)[i], y)
    decreases |spans|
  {
    var r := Clip(spans, screenW);
    var s := spans[0];
    var vx := Max(0.0, s.x);
    var vw := Min(screenW, s.x + s.w) - vx;
    if j == 0 {
      assert InSpan(r[0], y);
    } else {
      assert spans[1..][j - 1] == spans[j];
      ClipKeepsScreenPoints(spans[1..], screenW, y, j - 1);
      var rest := Clip(spans[1..], screenW);
      var i :| 0 <= i < |rest| && InSpan(rest[i], y);
      if vw > 0.0 {
        assert r[i + 1] == rest[i];
      } else {
        assert r[i] == rest[i];
      }
    }
  }

  /** The visible spans are ascending and pairwise disjoint. */
  lemma SpansAscending(screenW: real, gaps: seq<Gap>, margin: real)
    requires NonNegativeWidths(gaps) && margin >= 0.0
    ensures Ascending(WorldSpansThenClip(screenW, gaps, margin))
  {
    var list := SortByX(gaps);
    if |list| > 0 {
      SortedKeepsWidths(gaps);
      WorldSpansAscending(list, FarLeft, None, margin);
      ClipKeepsOrder(WorldSpansFrom(list, FarLeft, None, margin), screenW);
    }
  }

  lemma SortedKeepsWidths(gaps: seq<Gap>)
    requires NonNegativeWidths(gaps)
    ensures NonNegativeWidths(SortByX(gaps))
  {
    var list := SortByX(gaps);
    forall i | 0 <= i < |list| ensures list[i].w >= 0.0 {
      assert list[i] in multiset(gaps);
      var k :| 0 <= k < |gaps| && gaps[k] == list[i];
    }
  }

  /** Unless nothing at all is visible (the whole-screen fallback), no span
      meets the padded interval of any gap. */
  lemma SpansAvoidGaps(screenW: real, gaps: seq<Gap>, margin: real)
    requires NonNegativeWidths(gaps) && margin >= 0.0 && |gaps| > 0
    ensures var r := WorldSpansThenClip(screenW, gaps, margin);
      || (|r| == 1 && r[0].x == 0.0 && r[0].w == screenW && r[0].rightGap.None?)
      || (forall i, g :: 0 <= i < |r| && g in gaps ==> Avoids(r[i], g, margin))
  {
    var list := SortByX(gaps);
    var world := WorldSpansFrom(list, FarLeft, None, margin);
    var visible := Clip(world, screenW);
    if |visible| > 0 {
      SortedKeepsWidths(gaps);
      WorldSpansAvoidGaps(list, FarLeft, None, margin);
      forall g | g in gaps
        ensures forall i :: 0 <= i < |visible| ==> Avoids(visible[i], g, margin)
      {
        assert g in multiset(list);
        var k :| 0 <= k < |list| && list[k] == g;
        assert forall i :: 0 <= i < |world| ==> Avoids(world[i], list[k], margin);
        ClipKeepsAvoid(world, screenW, g, margin);
      }
    }
  }

  /** Every point of the screen outside all padded gap intervals is inside a
      span: the spans are exactly the solid wall. */
  lemma SpansCoverWall(screenW: real, gaps: seq<Gap>, margin: real, y: real)
    requires 0.0 <= y < screenW && screenW < 100_000_000_000.0
    requires forall g :: g in gaps ==> y < PadLeft(g, margin) || PadRight(g, margin) <= y
    ensures exists i :: (0 <= i < |WorldSpansThenClip(screenW, gaps, margin)| &&
      InSpan(WorldSpansThenClip(screenW, gaps, margin)[i], y))
  {
    var r := WorldSpansThenClip(screenW, gaps, margin);
    var list := SortByX(gaps);
    if |list| == 0 {
      assert InSpan(r[0], y);
    } else {
      var world := WorldSpansFrom(list, FarLeft, None, margin);
      forall j | 0 <= j < |list|
        ensures y < PadLeft(list[j], margin) || PadRight(list[j], margin) <= y
      {
        assert list[j] in multiset(gaps);
      }
      WorldSpansCover(list, FarLeft, None, margin, y);
      var j :| 0 <= j < |world| && InSpan(world[j], y);
      ClipKeepsScreenPoints(world, screenW, y, j);
    }
  }

  // ---------------------------------------------------------------------
  // Facade themes

  /** `pickThemeIndex(state, g.__gid)`, with a missing id read as 0. */
  function GidOf(g: Gap): nat { if g.gid.Some? then g.gid.value else 0 }

  /** The theme of one span: the left gap's stored theme (assigned on first
      use), or the carried theme when there is no left gap. */
  function SpanTheme(s: Span, carry: int, themes: map<nat, int>, salt: int, count: nat): (r: Themed)
    ensures s.leftGap.None? ==> r == Themed(carry, themes)
    ensures s.leftGap.Some? ==> GidOf(s.leftGap.value) in r.themes && r.theme == r.themes[GidOf(s.leftGap.value)]
    ensures forall id :: id in themes ==> id in r.themes && r.themes[id] == themes[id]
    ensures forall id :: id in r.themes && id !in themes ==> s.leftGap.Some? && id == GidOf(s.leftGap.value)
  {
    if s.leftGap.None? then Themed(carry, themes)
    else
      var id := GidOf(s.leftGap.value);
      if id in themes then Themed(themes[id], themes)
      else
        var t := PickThemeIndex(id, salt, count);
        Themed(t, themes[id := t])
  }

  /** A span's theme and the theme map afterwards. */
  datatype Themed = Themed(theme: int, themes: map<nat, int>)

  /** The theme of every span, the theme map afterwards and the new carry. */
  datatype Facade = Facade(each: seq<int>, themes: map<nat, int>, carry: int)

  /** The theme loop of `drawUnderdeckFacadeBySpan`: one theme per span, the
      updated themes, and the new carry (the first span's theme). */
  function FacadeThemes(spans: seq<Span>, carry: int, themes: map<nat, int>, salt: int, count: nat)
    : (r: Facade)
    ensures |r.each| == |spans|
    ensures |spans| > 0 ==> r.carry == r.each[0]
    ensures |spans| == 0 ==> r.carry == carry
    ensures forall id :: id in themes ==> id in r.themes && r.themes[id] == themes[id]
    ensures forall i :: 0 <= i < |spans| && spans[i].leftGap.None? ==> r.each[i] == carry
    ensures forall i :: 0 <= i < |spans| && spans[i].leftGap.Some? ==>
      GidOf(spans[i].leftGap.value) in r.themes && r.each[i] == r.themes[GidOf(spans[i].leftGap.value)]
  {
    var ts := ThemesFrom(spans, carry, themes, salt, count);
    Facade(ts.each, ts.themes, if |spans| > 0 then ts.each[0] else carry)
  }

  function ThemesFrom(spans: seq<Span>, carry: int, themes: map<nat, int>, salt: int, count: nat)
    : (r: Facade)
    ensures |r.each| == |spans| && r.carry == carry
    ensures forall id :: id in themes ==> id in r.themes && r.themes[id] == themes[id]
    ensures forall i :: 0 <= i < |spans| && spans[i].leftGap.None? ==> r.each[i] == carry
    ensures forall i :: 0 <= i < |spans| && spans[i].leftGap.Some? ==>
      GidOf(spans[i].leftGap.value) in r.themes && r.each[i] == r.themes[GidOf(spans[i].leftGap.value)]
    decreases |spans|
  {
    if |spans| == 0 then Facade([], themes, carry)
    else
      var first := SpanTheme(spans[0], carry, themes, salt, count);
      var rest := ThemesFrom(spans[1..], carry, first.themes, salt, count);
      ThemesCons(spans, carry, themes, first, rest);
      Facade([first.theme] + rest.each, rest.themes, carry)
  }

  /** The inductive step of `ThemesFrom`. */
  lemma ThemesCons(spans: seq<Span>, carry: int, themes: map<nat, int>, first: Themed, rest: Facade)
    requires |spans| > 0
    requires spans[0].leftGap.None? ==> first == Themed(carry, themes)
    requires spans[0].leftGap.Some? ==>
      GidOf(spans[0].leftGap.value) in first.themes && first.theme == first.themes[GidOf(spans[0].leftGap.value)]
    requires forall id :: id in themes ==> id in first.themes && first.themes[id] == themes[id]
    requires |rest.each| == |spans| - 1
    requires forall id :: id in first.themes ==> id in rest.themes && rest.themes[id] == first.themes[id]
    requires forall i :: 0 <= i < |spans| - 1 && spans[i + 1].leftGap.None? ==> rest.each[i] == carry
    requires forall i :: 0 <= i < |spans| - 1 && spans[i + 1].leftGap.Some? ==>
      GidOf(spans[i + 1].leftGap.value) in rest.themes && rest.each[i] == rest.themes[GidOf(spans[i + 1].leftGap.value)]
    ensures var each := [first.theme] + rest.each;
      && (forall id :: id in themes ==> id in rest.themes && rest.themes[id] == themes[id])
      && (forall i :: 0 <= i < |spans| && spans[i].leftGap.None? ==> each[i] == carry)
      && (forall i :: 0 <= i < |spans| && spans[i].leftGap.Some? ==>
            GidOf(spans[i].leftGap.value) in rest.themes && each[i] == rest.themes[GidOf(spans[i].leftGap.value)])
  {
    var each := [first.theme] + rest.each;
    assert forall i :: 1 <= i < |spans| ==> each[i] == rest.each[i - 1];
  }

  /** Themes stay valid indices: when the carry and every stored theme are in
      [0, count) and ids and salt are below 2^31, every span's theme is too. */
  lemma {:induction false} FacadeThemesInRange(spans: seq<Span>, carry: int, themes: map<nat, int>, salt: int, count: nat)
    requires count > 0 && 0 <= carry < count && 0 <= salt < 0x8000_0000
    requires forall id :: id in themes ==> 0 <= themes[id] < count
    requires forall i :: 0 <= i < |spans| && spans[i].leftGap.Some? ==> GidOf(spans[i].leftGap.value) < 0x8000_0000
    ensures forall i :: 0 <= i < |spans| ==> 0 <= ThemesFrom(spans, carry, themes, salt, count).each[i] < count
    ensures forall id :: id in ThemesFrom(spans, carry, themes, salt, count).themes ==>
      0 <= ThemesFrom(spans, carry, themes, salt, count).themes[id] < count
    decreases |spans|
  {
    if |spans| > 0 {
      var first := SpanTheme(spans[0], carry, themes, salt, count);
      if spans[0].leftGap.Some? {
        ThemeIndexInRange(GidOf(spans[0].leftGap.value), salt, count);
      }
      assert 0 <= first.theme < count;
      assert forall id :: id in first.themes ==> 0 <= first.themes[id] < count;
      var tail := spans[1..];
      assert forall i :: 1 <= i < |spans| ==> spans[i] == tail[i - 1];
      FacadeThemesInRange(tail, carry, first.themes, salt, count);
      var r := ThemesFrom(spans, carry, themes, salt, count);
      var rest := ThemesFrom(tail, carry, first.themes, salt, count);
      assert forall id :: id in rest.themes ==> 0 <= rest.themes[id] < count;
      assert r.each == [first.theme] + rest.each && r.themes == rest.themes;
      forall i | 0 <= i < |spans| ensures 0 <= r.each[i] < count {
        if i > 0 {
          assert r.each[i] == rest.each[i - 1];
        }
      }
    }
  }

  // ---------------------------------------------------------------------
  // drawSpanFromCache: tile phase

  /** The tile period as a length. */
  const PeriodLen: real := 166.0

  /** `((phase + startX) % period + period) % period` with JavaScript's `%`. */
  function TileOffset(phase: real, startX: real, p: real): (off: real)
    requires p > 0.0
    ensures 0.0 <= off < p
  {
    JsRem(JsRem(phase + startX, p) + p, p)
  }

  /** The double remainder is the mathematical remainder. */
  lemma TileOffsetIsEuclid(phase: real, startX: real, p: real)
    requires p > 0.0
    ensures TileOffset(phase, startX, p) == EuclidRem(phase + startX, p)
  {
    var a := phase + startX;
    var q := Trunc(a / p);
    var r1 := JsRem(a, p);
    assert r1 == a - p * q as real;
    var b := r1 + p;
    assert b > 0.0;
    JsRemOfNonNegative(b, p);
    EuclidRemShift(r1, p, -1);
    assert r1 - p * (-1) as real == b;
    EuclidRemShift(a, p, q);
  }

  lemma JsRemOfNonNegative(a: real, p: real)
    requires p > 0.0 && a >= 0.0
    ensures JsRem(a, p) == EuclidRem(a, p)
  {
    var q := a / p;
    assert p * q == a;
    assert q >= 0.0;
  }

  /** Removing whole periods does not change the remainder. */
  lemma EuclidRemShift(a: real, p: real, k: int)
    requires p > 0.0
    ensures EuclidRem(a - p * k as real, p) == EuclidRem(a, p)
  {
    var pk := p * k as real;
    var q := a / p;
    var q2 := (a - pk) / p;
    assert p * q == a;
    assert p * q2 == a - pk;
    var d := q2 - (q - k as real);
    assert p * d == p * q2 - p * q + pk;
    assert p * d == 0.0;
    assert d == 0.0;
    assert q2.Floor == q.Floor - k;
  }

  /** `x` is aligned with the scrolled tile grid: `x + phase` is a whole
      number of periods. */
  predicate Aligned(x: real, phase: real) {
    EuclidRem(x + phase, PeriodLen) == 0.0
  }

  /** Some tile of `xs` (each one period wide) covers `y`. */
  predicate Covered(xs: seq<real>, y: real) {
    exists i :: 0 <= i < |xs| && xs[i] <= y < xs[i] + PeriodLen
  }

  /** The tile loop of `drawSpanFromCache`: the left edge of every tile drawn
      for a span at `startX` of width `spanW`. Tiles are one period apart,
      sit on the scrolled grid, and cover the span. */
  method Tiles(phase: real, startX: real, spanW: real) returns (xs: seq<real>)
    ensures spanW >= 0.0 ==> |xs| >= 1
    ensures |xs| > 0 ==> xs[0] < startX
    ensures forall i :: 0 <= i < |xs| ==> Aligned(xs[i], phase)
    ensures forall i :: 0 <= i && i + 1 < |xs| ==> xs[i + 1] == xs[i] + PeriodLen
    ensures forall y :: startX <= y < startX + spanW ==> Covered(xs, y)
  {
    var p := Period as real;
    var offset := TileOffset(phase, startX, p);
    TileOffsetIsEuclid(phase, startX, p);
    var x := startX - offset - p;
    AlignedStart(phase, startX);
    var bound := startX + spanW + p;
    xs := [];
    while x < bound
      invariant forall i :: 0 <= i < |xs| ==> Aligned(xs[i], phase)
      invariant forall i :: 0 <= i && i + 1 < |xs| ==> xs[i + 1] == xs[i] + p
      invariant |xs| > 0 ==> xs[|xs| - 1] + p == x
      invariant |xs| == 0 ==> x == startX - offset - p
      invariant |xs| > 0 ==> xs[0] == startX - offset - p
      invariant Aligned(x, phase)
      invariant forall y :: startX - offset - p <= y < x ==> Covered(xs, y)
      decreases (bound - x).Floor
    {
      forall y | startX - offset - p <= y < x + p
        ensures Covered(xs + [x], y)
      {
        if y < x {
          assert Covered(xs, y);
          var i :| 0 <= i < |xs| && xs[i] <= y < xs[i] + p;
          assert (xs + [x])[i] == xs[i];
        } else {
          assert (xs + [x])[|xs|] == x;
        }
      }
      EuclidRemShift(x + phase, p, -1);
      assert x + phase - p * (-1) as real == x + p + phase;
      xs := xs + [x];
      x := x + p;
    }
  }

  /** The first tile `startX - offset - period` is aligned. */
  lemma AlignedStart(phase: real, startX: real)
    ensures Aligned(startX - EuclidRem(phase + startX, PeriodLen) - PeriodLen, phase)
  {
    var a := phase + startX;
    BelowRemainderIsMultiple(a, PeriodLen);
    assert startX - EuclidRem(a, PeriodLen) - PeriodLen + phase == a - EuclidRem(a, PeriodLen) - PeriodLen;
  }

  /** One period below `a` minus its remainder is a whole number of periods. */
  lemma BelowRemainderIsMultiple(a: real, p: real)
    requires p > 0.0
    ensures EuclidRem(a - EuclidRem(a, p) - p, p) == 0.0
  {
    var f := (a / p).Floor;
    var k := 1 - f;
    var pf := p * f as real;
    var pk := p * k as real;
    assert EuclidRem(a, p) == a - pf;
    DistributeOneMinus(p, f as real);
    assert pk == p - pf;
    assert a - EuclidRem(a, p) - p == 0.0 - pk;
    EuclidRemShift(0.0, p, k);
    EuclidRemOfZero(p);
  }

  lemma DistributeOneMinus(p: real, f: real)
    ensures p * (1.0 - f) == p - p * f
  {}

  lemma EuclidRemOfZero(p: real)
    requires p > 0.0
    ensures EuclidRem(0.0, p) == 0.0
  {
    assert 0.0 / p == 0.0;
  }

  // ---------------------------------------------------------------------
  // ensureUDCache

  /** `ensureUDCache(state, tileH)`: the new cache record and whether a build
      was scheduled. Nothing is scheduled while the key is unchanged and the
      cache is ready or a build is already pending. */
  function EnsureCache(ud: TileCache, tileH: real, themeCount: int): (r: (TileCache, bool))
    ensures var key := Key(tileH, ud.period, themeCount);
      && (ud.key == key && (ud.ready || ud.buildRequested) <==> !r.1)
      && (!r.1 ==> r.0 == ud)
      && (r.1 ==> r.0 == ud.(key := key, tileH := tileH, ready := false, buildRequested := true))
  {
    var key := Key(tileH, ud.period, themeCount);
    if ud.key == key && ud.ready then (ud, false)
    else if ud.buildRequested && ud.key == key then (ud, false)
    else (ud.(key := key, tileH := tileH, ready := false, buildRequested := true), true)
  }

  /** The scheduled build: every theme's tile is made, then the flags flip. */
  function BuildDone(ud: TileCache, themeCount: nat): (r: TileCache)
    ensures r.ready && !r.buildRequested && r.key == ud.key
    ensures |r.built| >= themeCount && forall i :: 0 <= i < themeCount ==> r.built[i]
  {
    var n := if |ud.built| >= themeCount then |ud.built| else themeCount;
    ud.(built := seq(n, i => i < themeCount || (i < |ud.built| && ud.built[i])),
        ready := true, buildRequested := false)
  }

  /** A second call with the same tile height schedules nothing. */
  lemma EnsureCacheIdempotent(ud: TileCache, tileH: real, themeCount: int)
    ensures var r := EnsureCache(ud, tileH, themeCount);
      EnsureCache(r.0, tileH, themeCount) == (r.0, false)
  {}

  /** Once the build completes, the same key schedules nothing. */
  lemma BuiltCacheIsStable(ud: TileCache, tileH: real, themeCount: nat)
    ensures var r := EnsureCache(ud, tileH, themeCount);
      EnsureCache(BuildDone(r.0, themeCount), tileH, themeCount) == (BuildDone(r.0, themeCount), false)
  {}

  // ---------------------------------------------------------------------
  // drawDeck's effect on the state

  /** The width of the safe margin `drawUnderdeckFacadeBySpan` is called with. */
  const SafeMargin: real := 16.0

  /** What `drawDeck` changes besides pixels: ids for new gaps, the cache
      request for the wall height, the lazily assigned gap themes and the
      carried theme. Returns the gaps, the deck fields, and whether a cache
      build was scheduled. */
  function DrawDeck(gaps: seq<Gap>, meta: DeckMeta, screenW: real, screenH: real,
                    groundY: real, deckH: real, deckLip: real): (r: (seq<Gap>, DeckMeta, bool))
    ensures |r.0| == |gaps| && forall i :: 0 <= i < |r.0| ==> r.0[i].gid.Some?
    ensures forall i :: 0 <= i < |gaps| ==> r.0[i].x == gaps[i].x && r.0[i].w == gaps[i].w
    ensures r.1.ud.tileH >= 0.0 || !r.2
    ensures forall id :: id in meta.themes ==> id in r.1.themes && r.1.themes[id] == meta.themes[id]
    ensures r.1.carryLeftTheme == FacadeThemes(WorldSpansThenClip(screenW, r.0, SafeMargin),
      meta.carryLeftTheme, meta.themes, meta.themeSalt, meta.themeCount).each[0]
    ensures r.1.scrollX == meta.scrollX && r.1.themeSalt == meta.themeSalt
  {
    var ids := AssignGids(gaps, meta.gapIdCounter);
    var topY := (Trunc(groundY) + Trunc(deckH) + Trunc(deckLip)) as real;
    var botY := Max(topY, screenH);
    var cache := EnsureCache(meta.ud, botY - topY, meta.themeCount);
    var spans := WorldSpansThenClip(screenW, ids.gaps, SafeMargin);
    var themes := FacadeThemes(spans, meta.carryLeftTheme, meta.themes, meta.themeSalt, meta.themeCount);
    (ids.gaps, meta.(gapIdCounter := ids.counter, ud := cache.0, themes := themes.themes, carryLeftTheme := themes.carry), cache.1)
  }
}
