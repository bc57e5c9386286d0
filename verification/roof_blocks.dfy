/** The roof strip: contiguous coloured blocks scrolled with the world, split
    where a skylight drops a seam marker, culled on the left and refilled on
    the right. Draws come from a stream read at a cursor; every function
    returns the cursor after its last draw. */
module RoofBlocks {
  import opened Num
  import opened Utils

  /** A block colour: a hex string as given, or `shade(hex, delta)`. The
      shaded string is produced by `Css` when painting; keeping the pair
      here carries the same information as the string. */
  datatype Colour = Plain(hex: string) | Shaded(hex: string, delta: real)

  /** `{ base, variants }`: a base colour and the shades blocks pick from. */
  datatype Theme = Theme(base: string, variants: seq<Colour>)

  /** `{ x, w, col, panels }`. */
  datatype Block = Block(x: real, w: real, col: Colour, panels: bool)

  /** A seam marker `{ x }`. */
  datatype Seam = Seam(x: real)

  /** `state.roofBlocks`, `state.roofSeams` and `state.roofTheme`. */
  datatype Roof = Roof(blocks: seq<Block>, seams: seq<Seam>, theme: Theme)

  const Bases: seq<string> := ["#121a2c", "#0f1628", "#10182b", "#141c30", "#0e1526", "#121a2b", "#0d1323"]
  /** The colour of a seam strip. */
  const SeamColour: Colour := Plain("#0a0f1a")
  const SeamW: real := 4.0
  const MinSeg: real := 8.0
  const MinBlockW: real := 90.0
  const BlockSpread: real := 160.0
  const StartX: real := -40.0
  /** How far right of the screen edge the strip is kept filled. */
  const FillAhead: real := 260.0
  const CullBlockX: real := -80.0
  const CullSeamX: real := -120.0

  function Right(b: Block): real { b.x + b.w }

  lemma BasesAreHexColours()
    ensures forall i :: 0 <= i < |Bases| ==> IsHexColour(Bases[i])
  {
    forall i | 0 <= i < |Bases| ensures IsHexColour(Bases[i]) {
      LowerHexLiteral(Bases[i]);
    }
  }

  /** The CSS colour string of a block colour. */
  function Css(c: Colour): string
    requires c.Shaded? ==> IsHexColour(c.hex)
  {
    match c
    case Plain(hex) => hex
    case Shaded(hex, delta) => Shade(hex, delta)
  }

  /** Seven characters, `#` and six lower-case hex digits, checked one by one. */
  lemma LowerHexLiteral(s: string)
    requires |s| == 7 && s[0] == '#'
    requires IsLowerHexDigit(s[1]) && IsLowerHexDigit(s[2]) && IsLowerHexDigit(s[3])
    requires IsLowerHexDigit(s[4]) && IsLowerHexDigit(s[5]) && IsLowerHexDigit(s[6])
    ensures IsHexColour(s)
  {}

  /** `randomTheme()`: a base picked from the seven, and its two darker shades. */
  function RandomTheme(u: Unit): (t: Theme)
    ensures t.base in Bases && IsHexColour(t.base)
    ensures t.variants == [Plain(t.base), Shaded(t.base, -8.0), Shaded(t.base, -14.0)]
  {
    BasesAreHexColours();
    var base := Pick(Bases, u);
    Theme(base, [Plain(base), Shaded(base, -8.0), Shaded(base, -14.0)])
  }

  /** Every channel of a theme's second shade is at most that of its first,
      which is at most the base's: the variants darken in order. */
  lemma ThemeDarkens(u: Unit, ch: nat)
    requires ch in {1, 3, 5}
    ensures var t := RandomTheme(u);
      Channel(Css(t.variants[2]), ch) <= Channel(Css(t.variants[1]), ch) <= Channel(t.base, ch)
  {
    var t := RandomTheme(u);
    var c: int := Channel(t.base, ch);
    assert Round(255.0 * -8.0 / 100.0) == -20;
    assert Round(255.0 * -14.0 / 100.0) == -36;
    assert ShadeChannel(c, -8.0) == ClampInt(c - 20, 0, 255);
    assert ShadeChannel(c, -14.0) == ClampInt(c - 36, 0, 255);
  }

  /** `pickVariant(theme)`. */
  function PickVariant(t: Theme, u: Unit): (c: Colour)
    requires |t.variants| > 0
    ensures c in t.variants
  {
    Pick(t.variants, u)
  }

  /** Each block begins where the previous one ends. */
  predicate Contiguous(bs: seq<Block>) {
    forall i :: 0 <= i && i + 1 < |bs| ==> Right(bs[i]) == bs[i + 1].x
  }

  /** A width `90 + random() * 160`. */
  predicate FreshWidth(b: Block) { MinBlockW <= b.w < MinBlockW + BlockSpread }

  /** The filling loop shared by `initRoofBlocks` and `updateRoofBlocks`:
      push panelled blocks from `x` while the right edge is below `limit`. */
  function FillBlocks(x: real, limit: real, t: Theme, rnd: Stream, k: nat): (r: (seq<Block>, nat))
    requires |t.variants| > 0
    ensures x >= limit ==> r.0 == []
    ensures x < limit ==> |r.0| >= 1 && r.0[0].x == x && Right(r.0[|r.0| - 1]) >= limit
    ensures Contiguous(r.0)
    ensures forall i :: 0 <= i < |r.0| ==>
      FreshWidth(r.0[i]) && r.0[i].panels && r.0[i].col in t.variants && r.0[i].x < limit
    ensures r.1 == k + 2 * |r.0|
    decreases if x < limit then (limit - x).Floor + 1 else 0
  {
    if x >= limit then ([], k)
    else
      var bw := MinBlockW + Scaled(rnd(k), BlockSpread);
      var b := Block(x, bw, PickVariant(t, rnd(k + 1)), true);
      var rest := FillBlocks(x + bw, limit, t, rnd, k + 2);
      assert forall i :: 1 <= i < |rest.0| + 1 ==> ([b] + rest.0)[i] == rest.0[i - 1];
      ([b] + rest.0, rest.1)
  }

  /** `initRoofBlocks(state, canvas)` for a canvas `w` wide: a fresh theme
      (draw 0) and blocks from x = -40 until the strip reaches `w + 260`. */
  function InitRoofBlocks(w: real, rnd: Stream): (r: Roof)
    ensures r.seams == [] && |r.theme.variants| == 3
    ensures Contiguous(r.blocks)
    ensures w + FillAhead > StartX ==>
      |r.blocks| >= 1 && r.blocks[0].x == StartX && Right(r.blocks[|r.blocks| - 1]) >= w + FillAhead
    ensures forall i :: 0 <= i < |r.blocks| ==>
      FreshWidth(r.blocks[i]) && r.blocks[i].panels && r.blocks[i].x < w + FillAhead
  {
    var t := RandomTheme(rnd(0));
    Roof(FillBlocks(StartX, w + FillAhead, t, rnd, 1).0, [], t)
  }

  // ---------------------------------------------------------------------
  // updateRoofBlocks

  /** `state.speed || 300`. */
  function RoofSpeed(speed: real): real { if speed == 0.0 then 300.0 else speed }

  function ShiftBlock(b: Block, d: real): Block { b.(x := b.x - d) }

  /** Moving the world: every block and seam by the same `speed * dt`. */
  function MoveRoof(r: Roof, speed: real, dt: real): (m: Roof)
    ensures |m.blocks| == |r.blocks| && |m.seams| == |r.seams| && m.theme == r.theme
    ensures forall i :: 0 <= i < |r.blocks| ==>
      m.blocks[i] == r.blocks[i].(x := r.blocks[i].x - RoofSpeed(speed) * dt)
    ensures forall i :: 0 <= i < |r.seams| ==> m.seams[i].x == r.seams[i].x - RoofSpeed(speed) * dt
  {
    var d := RoofSpeed(speed) * dt;
    Roof(seq(|r.blocks|, i requires 0 <= i < |r.blocks| => ShiftBlock(r.blocks[i], d)),
         seq(|r.seams|, i requires 0 <= i < |r.seams| => Seam(r.seams[i].x - d)),
         r.theme)
  }

  /** Moving keeps the blocks contiguous. */
  lemma MoveKeepsContiguous(r: Roof, speed: real, dt: real)
    requires Contiguous(r.blocks)
    ensures Contiguous(MoveRoof(r, speed, dt).blocks)
  {}

  /** `sx` lies strictly inside block `b`. */
  predicate Inside(b: Block, sx: real) { b.x < sx < b.x + b.w }

  /** The search loop: the first block that holds `sx` strictly inside. */
  function FindBlock(bs: seq<Block>, sx: real): (r: Option<nat>)
    ensures r.Some? ==> (r.value < |bs| && Inside(bs[r.value], sx) &&
                         forall j :: 0 <= j < r.value ==> !Inside(bs[j], sx))
    ensures r.None? ==> forall j :: 0 <= j < |bs| ==> !Inside(bs[j], sx)
  {
    if |bs| == 0 then None
    else if Inside(bs[0], sx) then Some(0)
    else
      var r := FindBlock(bs[1..], sx);
      assert forall j :: 1 <= j < |bs| ==> bs[j] == bs[1..][j - 1];
      if r.Some? then Some(r.value + 1) else None
  }

  /** The pieces a split produces, the theme and the cursor afterwards. */
  datatype Split = Split(pieces: seq<Block>, theme: Theme, k: nat)

  /** The pieces that replace block `b` split at `sx`: the left part with
      the block's colour and panels, a dark 4-px strip without panels, and a
      right part in a fresh theme only when at least 8 px remain. */
  function SplitBlock(b: Block, sx: real, t: Theme, rnd: Stream, k: nat): (r: Split)
    requires sx - b.x >= MinSeg && b.x + b.w - sx >= MinSeg
    ensures 2 <= |r.pieces| <= 3 && Contiguous(r.pieces)
    ensures r.pieces[0] == Block(b.x, sx - b.x, b.col, b.panels)
    ensures r.pieces[1] == Block(sx, SeamW, SeamColour, false)
    ensures |r.pieces| == 3 <==> b.x + b.w - sx - SeamW >= MinSeg
    ensures |r.pieces| == 3 ==>
      Right(r.pieces[2]) == Right(b) && r.pieces[2].panels && r.pieces[2].w >= MinSeg && r.pieces[2].col in r.theme.variants
    ensures |r.pieces| == 2 ==> r.theme == t
    ensures r.k == k + 2 * (|r.pieces| - 2)
  {
    var leftW := Max(0.0, sx - b.x);
    var rightW := Max(0.0, b.x + b.w - sx);
    var seamWidth := Min(SeamW, rightW);
    var left := Block(b.x, leftW, b.col, b.panels);
    var seamX := b.x + leftW;
    var strip := Block(seamX, seamWidth, SeamColour, false);
    var remain := rightW - seamWidth;
    assert leftW == sx - b.x && seamWidth == SeamW && seamX == sx;
    if remain >= MinSeg then
      var right := RightPiece(seamX + seamWidth, remain, rnd, k);
      ContiguousThree(left, strip, right.block);
      Split([left, strip, right.block], right.theme, k + 2)
    else
      ContiguousTwo(left, strip);
      Split([left, strip], t, k)
  }

  lemma ContiguousTwo(a: Block, b: Block)
    requires Right(a) == b.x
    ensures Contiguous([a, b])
  {}

  lemma ContiguousThree(a: Block, b: Block, c: Block)
    requires Right(a) == b.x && Right(b) == c.x
    ensures Contiguous([a, b, c])
  {}

  /** The right part of a split: a panelled block in a fresh theme (draws
      `k` and `k + 1`). */
  function RightPiece(x: real, w: real, rnd: Stream, k: nat): (r: Piece)
    ensures r.block.x == x && r.block.w == w && r.block.panels
    ensures r.block.col in r.theme.variants && |r.theme.variants| == 3 && r.theme.base in Bases
  {
    var t := RandomTheme(rnd(k));
    Piece(Block(x, w, PickVariant(t, rnd(k + 1)), true), t)
  }

  /** A block and the theme it was coloured from. */
  datatype Piece = Piece(block: Block, theme: Theme)

  /** One pass of the seam loop for seam `s`: whether the seam is kept, and
      the blocks, theme and cursor afterwards. */
  datatype SeamStep = SeamStep(blocks: seq<Block>, keep: bool, theme: Theme, k: nat)

  function ProcessSeam(bs: seq<Block>, s: Seam, t: Theme, rnd: Stream, k: nat): (r: SeamStep)
    ensures r.keep <==> forall j :: 0 <= j < |bs| ==> !Inside(bs[j], s.x)
    ensures r.keep ==> r.blocks == bs && r.theme == t && r.k == k
    ensures |r.theme.variants| > 0 || r.theme == t
  {
    var found := FindBlock(bs, s.x);
    if found.None? then SeamStep(bs, true, t, k)
    else SeamAt(bs, found.value, s.x, t, rnd, k)
  }

  /** The seam falls inside block `j`: split it unless either side would be
      a sliver. */
  function SeamAt(bs: seq<Block>, j: nat, sx: real, t: Theme, rnd: Stream, k: nat): (r: SeamStep)
    requires j < |bs|
    ensures !r.keep
  {
    var b := bs[j];
    var leftW := Max(0.0, sx - b.x);
    var rightW := Max(0.0, b.x + b.w - sx);
    if leftW < MinSeg || rightW < MinSeg then SeamStep(bs, false, t, k)
    else SplitAt(bs, j, sx, t, rnd, k)
  }

  /** Block `j` replaced by its split pieces. */
  function SplitAt(bs: seq<Block>, j: nat, sx: real, t: Theme, rnd: Stream, k: nat): SeamStep
    requires j < |bs| && sx - bs[j].x >= MinSeg && bs[j].x + bs[j].w - sx >= MinSeg
  {
    var p := SplitBlock(bs[j], sx, t, rnd, k);
    SeamStep(bs[..j] + p.pieces + bs[j + 1..], false, p.theme, p.k)
  }

  /** The seam loop, last seam first: the blocks after all splits, the seams
      kept (in their original order), the theme and the cursor. */
  function SplitSeams(bs: seq<Block>, seams: seq<Seam>, t: Theme, rnd: Stream, k: nat)
    : (r: (seq<Block>, seq<Seam>, Theme, nat))
    ensures |r.1| <= |seams|
    ensures forall i :: 0 <= i < |r.1| ==> r.1[i] in seams
    decreases |seams|
  {
    if |seams| == 0 then (bs, [], t, k)
    else
      var last := seams[|seams| - 1];
      var step := ProcessSeam(bs, last, t, rnd, k);
      var rest := SplitSeams(step.blocks, seams[..|seams| - 1], step.theme, rnd, step.k);
      (rest.0, rest.1 + (if step.keep then [last] else []), rest.2, rest.3)
  }

  /** No block holds `sx` strictly inside. */
  predicate Outside(bs: seq<Block>, sx: real) {
    forall j :: 0 <= j < |bs| ==> !Inside(bs[j], sx)
  }

  /** The pieces of a split lie within the block they replace. */
  lemma SplitStaysWithin(b: Block, sx: real, t: Theme, rnd: Stream, k: nat)
    requires sx - b.x >= MinSeg && b.x + b.w - sx >= MinSeg
    ensures var ps := SplitBlock(b, sx, t, rnd, k).pieces;
      forall i :: 0 <= i < |ps| ==> b.x <= ps[i].x && Right(ps[i]) <= Right(b)
  {
    var ps := SplitBlock(b, sx, t, rnd, k).pieces;
    if |ps| == 3 {
      assert ps[2].x == Right(ps[1]);
    }
  }

  /** Replacing a block by pieces no point `y` is inside keeps `y` outside. */
  lemma ReplaceKeepsOutside(bs: seq<Block>, j: nat, ps: seq<Block>, y: real)
    requires j < |bs| && Outside(bs, y)
    requires forall i :: 0 <= i < |ps| ==> !Inside(ps[i], y)
    ensures Outside(bs[..j] + ps + bs[j + 1..], y)
  {
    var nb := bs[..j] + ps + bs[j + 1..];
    forall i | 0 <= i < |nb| ensures !Inside(nb[i], y) {
      if i < j {
        assert nb[i] == bs[i];
      } else if i < j + |ps| {
        assert nb[i] == ps[i - j];
      } else {
        assert nb[i] == bs[i - |ps| + 1];
      }
    }
  }

  /** Splitting only subdivides blocks, so a point outside every block stays
      outside every block. */
  lemma ProcessKeepsOutside(bs: seq<Block>, s: Seam, t: Theme, rnd: Stream, k: nat, y: real)
    requires Outside(bs, y)
    ensures Outside(ProcessSeam(bs, s, t, rnd, k).blocks, y)
  {
    var found := FindBlock(bs, s.x);
    if found.Some? {
      var j := found.value;
      var b := bs[j];
      if s.x - b.x >= MinSeg && b.x + b.w - s.x >= MinSeg {
        var ps := SplitBlock(b, s.x, t, rnd, k).pieces;
        assert !Inside(b, y);
        SplitStaysWithin(b, s.x, t, rnd, k);
        assert forall i :: 0 <= i < |ps| ==> !Inside(ps[i], y);
        ReplaceKeepsOutside(bs, j, ps, y);
        ProcessSeamSplits(bs, s, t, rnd, k, j);
      } else {
        SliverSeamDropped(bs, s, t, rnd, k, j);
      }
    }
  }

  /** The seams the loop keeps are exactly outside every block: a seam that
      falls inside a block is always consumed. */
  lemma {:induction false} KeptSeamsAreOutside(bs: seq<Block>, seams: seq<Seam>, t: Theme, rnd: Stream, k: nat)
    ensures forall i :: 0 <= i < |SplitSeams(bs, seams, t, rnd, k).1| ==>
      Outside(SplitSeams(bs, seams, t, rnd, k).0, SplitSeams(bs, seams, t, rnd, k).1[i].x)
    decreases |seams|
  {
    if |seams| > 0 {
      var last := seams[|seams| - 1];
      var step := ProcessSeam(bs, last, t, rnd, k);
      var init := seams[..|seams| - 1];
      KeptSeamsAreOutside(step.blocks, init, step.theme, rnd, step.k);
      var rest := SplitSeams(step.blocks, init, step.theme, rnd, step.k);
      if step.keep {
        KeepsOutsideThroughLoop(step.blocks, init, step.theme, rnd, step.k, last.x);
        var r := SplitSeams(bs, seams, t, rnd, k);
        assert r.1 == rest.1 + [last];
        forall i | 0 <= i < |r.1| ensures Outside(r.0, r.1[i].x) {
          if i < |rest.1| {
            assert r.1[i] == rest.1[i];
          }
        }
      }
    }
  }

  lemma {:induction false} KeepsOutsideThroughLoop(bs: seq<Block>, seams: seq<Seam>, t: Theme, rnd: Stream, k: nat, y: real)
    requires Outside(bs, y)
    ensures Outside(SplitSeams(bs, seams, t, rnd, k).0, y)
    decreases |seams|
  {
    if |seams| > 0 {
      var last := seams[|seams| - 1];
      var step := ProcessSeam(bs, last, t, rnd, k);
      ProcessKeepsOutside(bs, last, t, rnd, k, y);
      KeepsOutsideThroughLoop(step.blocks, seams[..|seams| - 1], step.theme, rnd, step.k, y);
    }
  }

  /** A seam too close to either end of its block is dropped and the blocks
      stay as they were. */
  lemma SliverSeamDropped(bs: seq<Block>, s: Seam, t: Theme, rnd: Stream, k: nat, j: nat)
    requires j < |bs| && Inside(bs[j], s.x) && (forall i :: 0 <= i < j ==> !Inside(bs[i], s.x))
    requires s.x - bs[j].x < MinSeg || bs[j].x + bs[j].w - s.x < MinSeg
    ensures ProcessSeam(bs, s, t, rnd, k) == SeamStep(bs, false, t, k)
  {
    FindBlockFirst(bs, s.x, j);
    assert ProcessSeam(bs, s, t, rnd, k) == SeamAt(bs, j, s.x, t, rnd, k);
  }

  /** The converse of `FindBlock`'s contract: the first block holding `sx`
      is the one found. */
  lemma FindBlockFirst(bs: seq<Block>, sx: real, j: nat)
    requires j < |bs| && Inside(bs[j], sx) && (forall i :: 0 <= i < j ==> !Inside(bs[i], sx))
    ensures FindBlock(bs, sx) == Some(j)
  {
  }

  /** Replacing block `j` by a contiguous run with the same two ends keeps
      a contiguous strip contiguous. */
  lemma ReplaceKeepsContiguous(bs: seq<Block>, j: nat, p: seq<Block>)
    requires Contiguous(bs) && j < |bs| && Contiguous(p) && |p| > 0
    requires p[0].x == bs[j].x && Right(p[|p| - 1]) == Right(bs[j])
    ensures Contiguous(bs[..j] + p + bs[j + 1..])
  {
    var nb := bs[..j] + p + bs[j + 1..];
    forall i | 0 <= i && i + 1 < |nb| ensures Right(nb[i]) == nb[i + 1].x {
      if i + 1 < j {
        assert nb[i] == bs[i] && nb[i + 1] == bs[i + 1];
      } else if i + 1 == j {
        assert nb[i] == bs[i] && nb[i + 1] == p[0];
      } else if i + 1 < j + |p| {
        assert nb[i] == p[i - j] && nb[i + 1] == p[i + 1 - j];
      } else if i + 1 == j + |p| {
        assert nb[i] == p[|p| - 1] && nb[i + 1] == bs[j + 1];
      } else {
        assert nb[i] == bs[i - |p| + 1] && nb[i + 1] == bs[i + 2 - |p|];
      }
    }
  }

  /** A split with a right part keeps a contiguous strip contiguous. */
  lemma SplitKeepsContiguous(bs: seq<Block>, s: Seam, t: Theme, rnd: Stream, k: nat)
    requires Contiguous(bs)
    requires forall j :: 0 <= j < |bs| && Inside(bs[j], s.x) ==> bs[j].x + bs[j].w - s.x - SeamW >= MinSeg
    ensures Contiguous(ProcessSeam(bs, s, t, rnd, k).blocks)
  {
    var found := FindBlock(bs, s.x);
    if found.Some? {
      var j := found.value;
      if s.x - bs[j].x >= MinSeg && bs[j].x + bs[j].w - s.x >= MinSeg {
        SplitBranchContiguous(bs, j, s.x, t, rnd, k);
        ProcessSeamSplits(bs, s, t, rnd, k, j);
      } else {
        SliverSeamDropped(bs, s, t, rnd, k, j);
      }
    }
  }

  /** When the seam's block is wide enough on both sides, the block is
      replaced by its split pieces. */
  lemma ProcessSeamSplits(bs: seq<Block>, s: Seam, t: Theme, rnd: Stream, k: nat, j: nat)
    requires j < |bs| && Inside(bs[j], s.x) && (forall i :: 0 <= i < j ==> !Inside(bs[i], s.x))
    requires s.x - bs[j].x >= MinSeg && bs[j].x + bs[j].w - s.x >= MinSeg
    ensures ProcessSeam(bs, s, t, rnd, k) == SplitAt(bs, j, s.x, t, rnd, k)
  {
    FindBlockFirst(bs, s.x, j);
    assert ProcessSeam(bs, s, t, rnd, k) == SeamAt(bs, j, s.x, t, rnd, k);
  }

  /** The splitting branch of `SplitKeepsContiguous`. */
  lemma SplitBranchContiguous(bs: seq<Block>, j: nat, sx: real, t: Theme, rnd: Stream, k: nat)
    requires Contiguous(bs) && j < |bs|
    requires sx - bs[j].x >= MinSeg && bs[j].x + bs[j].w - sx >= MinSeg
    requires bs[j].x + bs[j].w - sx - SeamW >= MinSeg
    ensures Contiguous(bs[..j] + SplitBlock(bs[j], sx, t, rnd, k).pieces + bs[j + 1..])
  {
    var p := SplitBlock(bs[j], sx, t, rnd, k).pieces;
    assert |p| == 3 && p[0].x == bs[j].x && Right(p[2]) == Right(bs[j]);
    ReplaceKeepsContiguous(bs, j, p);
  }

  /** With only 4..8 px to the right of the strip, no right part is made and
      the strip's right edge falls short of the block's: the blocks leave a
      hole of `remain` pixels. */
  lemma SplitWithoutRightPartLeavesHole(b: Block, sx: real, t: Theme, rnd: Stream, k: nat)
    requires sx - b.x >= MinSeg && b.x + b.w - sx >= MinSeg
    requires b.x + b.w - sx - SeamW < MinSeg
    ensures var p := SplitBlock(b, sx, t, rnd, k).pieces;
      |p| == 2 && Right(p[1]) < Right(b)
  {}

  /** The cull: drop blocks from the head while their right edge is left of -80. */
  function CullBlocks(bs: seq<Block>): (r: seq<Block>)
    ensures |r| <= |bs| && r == bs[|bs| - |r|..]
    ensures forall i :: 0 <= i < |bs| - |r| ==> Right(bs[i]) < CullBlockX
    ensures |r| > 0 ==> Right(r[0]) >= CullBlockX
    decreases |bs|
  {
    if |bs| > 0 && Right(bs[0]) < CullBlockX then
      var r := CullBlocks(bs[1..]);
      assert forall i :: 1 <= i < |bs| ==> bs[i] == bs[1..][i - 1];
      r
    else bs
  }

  /** The seam cull keeps, in order, exactly the seams at x >= -120. */
  function CullSeams(seams: seq<Seam>): (r: seq<Seam>)
    ensures forall i :: 0 <= i < |r| ==> r[i].x >= CullSeamX && r[i] in seams
    ensures forall s :: s in seams && s.x >= CullSeamX ==> s in r
    ensures |r| <= |seams|
  {
    if |seams| == 0 then []
    else
      var rest := CullSeams(seams[..|seams| - 1]);
      var last := seams[|seams| - 1];
      assert seams == seams[..|seams| - 1] + [last];
      if last.x < CullSeamX then rest else rest + [last]
  }

  /** The seam cull decides each seam on its own and keeps the order:
      culling a concatenation is culling each part. */
  lemma {:induction false} CullSeamsAppend(a: seq<Seam>, b: seq<Seam>)
    ensures CullSeams(a + b) == CullSeams(a) + CullSeams(b)
    decreases |b|
  {
    if |b| == 0 {
      assert a + b == a;
    } else {
      var b' := b[..|b| - 1];
      assert (a + b)[..|a + b| - 1] == a + b';
      assert (a + b)[|a + b| - 1] == b[|b| - 1];
      CullSeamsAppend(a, b');
    }
  }

  /** One seam survives the cull iff it is at x >= -120. */
  lemma CullSeamsSingle(s: Seam)
    ensures CullSeams([s]) == if s.x >= CullSeamX then [s] else []
  {
    assert [s][..0] == [];
  }

  /** Where the refill starts: the last block's right edge, or -40. */
  function RightEdge(bs: seq<Block>): real {
    if |bs| > 0 then Right(bs[|bs| - 1]) else StartX
  }

  /** Refilling after a contiguous strip keeps it contiguous and reaches the
      limit. */
  lemma RefillKeepsContiguous(bs: seq<Block>, limit: real, t: Theme, rnd: Stream, k: nat)
    requires Contiguous(bs) && |t.variants| > 0
    ensures var r := bs + FillBlocks(RightEdge(bs), limit, t, rnd, k).0;
      Contiguous(r) && (RightEdge(bs) < limit ==> Right(r[|r| - 1]) >= limit)
  {
    var f := FillBlocks(RightEdge(bs), limit, t, rnd, k).0;
    var r := bs + f;
    forall i | 0 <= i && i + 1 < |r| ensures Right(r[i]) == r[i + 1].x {
      if i + 1 < |bs| {
        assert r[i] == bs[i] && r[i + 1] == bs[i + 1];
      } else if i + 1 == |bs| {
        assert r[i] == bs[i] && r[i + 1] == f[0];
      } else {
        assert r[i] == f[i - |bs|] && r[i + 1] == f[i + 1 - |bs|];
      }
    }
  }

  /** `updateRoofBlocks(state, dt, canvas)` for a canvas `canvasW` wide;
      returns the roof and the cursor. */
  function UpdateRoofBlocks(r: Roof, speed: real, dt: real, canvasW: real, rnd: Stream, k: nat)
    : (out: (Roof, nat))
    requires |r.theme.variants| > 0
    ensures forall i :: 0 <= i < |out.0.seams| ==> out.0.seams[i].x >= CullSeamX
    ensures |out.0.seams| <= |r.seams|
    ensures RightEdge(out.0.blocks) >= canvasW + FillAhead
    ensures |out.0.theme.variants| > 0
  {
    var m := MoveRoof(r, speed, dt);
    var split := SplitSeams(m.blocks, m.seams, m.theme, rnd, k);
    ThemeStaysUsable(m.blocks, m.seams, m.theme, rnd, k);
    var blocks := CullBlocks(split.0);
    var seams := CullSeams(split.1);
    var fill := FillBlocks(RightEdge(blocks), canvasW + FillAhead, split.2, rnd, split.3);
    var all := blocks + fill.0;
    assert |fill.0| > 0 ==> all[|all| - 1] == fill.0[|fill.0| - 1];
    (Roof(all, seams, split.2), fill.1)
  }

  lemma {:induction false} ThemeStaysUsable(bs: seq<Block>, seams: seq<Seam>, t: Theme, rnd: Stream, k: nat)
    requires |t.variants| > 0
    ensures |SplitSeams(bs, seams, t, rnd, k).2.variants| > 0
    decreases |seams|
  {
    if |seams| > 0 {
      var step := ProcessSeam(bs, seams[|seams| - 1], t, rnd, k);
      ThemeStaysUsable(step.blocks, seams[..|seams| - 1], step.theme, rnd, step.k);
    }
  }
}
