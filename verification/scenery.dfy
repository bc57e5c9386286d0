/** Background generation: the far skyline, the two layers of tall city
    buildings and the silhouettes below the deck, their window grids and
    roof details, and the deterministic hash that lights the window rows a
    building gains when it is stretched below the deck. Draws are read from
    a stream at a cursor; every generator returns the cursor after its last
    draw. Sizes are in CSS pixels. */
module Scenery {
  import opened Num
  import opened Utils
  import SeededRng

  // ---------------------------------------------------------------------
  // makeSkyline

  datatype RoofShape = Flat | Spike

  datatype SkyPoly = SkyPoly(x: real, y: real, w: real, h: real, roof: RoofShape)

  const SkylineStartX: real := -80.0
  const SkylineAhead: real := 200.0
  const SkylineLift: real := 260.0
  const SkylineMaxStep: real := 40.0

  /** The skyline loop from cursor `x`: four draws per building (width,
      height, roof, spacing) while the cursor is left of `limit`. */
  function SkylineFrom(x: real, limit: real, baseY: real, rnd: Stream, k: nat): (r: Made<seq<SkyPoly>>)
    ensures x >= limit <==> r.value == []
    ensures r.value != [] ==> r.value[0].x == x
    ensures r.k == k + 4 * |r.value|
    decreases if x < limit then (limit - x).Floor + 1 else 0
  {
    if x >= limit then Made([], k)
    else
      var p := SkyBuilding(x, baseY, rnd, k);
      var next := x + p.w + Scaled(rnd(k + 3), SkylineMaxStep);
      var rest := SkylineFrom(next, limit, baseY, rnd, k + 4);
      Made([p] + rest.value, rest.k)
  }

  /** Every skyline building starts in [x, limit), stands on `baseY` and is
      60 to 180 px wide; each starts at or after the previous one's right
      edge; and the last one reaches to within one step of the limit. */
  lemma {:induction false} SkylineShape(x: real, limit: real, baseY: real, rnd: Stream, k: nat)
    ensures var r := SkylineFrom(x, limit, baseY, rnd, k).value;
      && (forall i :: 0 <= i < |r| ==> x <= r[i].x < limit && r[i].y + r[i].h == baseY && 60.0 <= r[i].w < 180.0)
      && (forall i :: 0 <= i && i + 1 < |r| ==> r[i + 1].x >= r[i].x + r[i].w)
      && (r != [] ==> r[|r| - 1].x + r[|r| - 1].w + SkylineMaxStep > limit)
    decreases if x < limit then (limit - x).Floor + 1 else 0
  {
    if x < limit {
      var p := SkyBuilding(x, baseY, rnd, k);
      var next := x + p.w + Scaled(rnd(k + 3), SkylineMaxStep);
      var rest := SkylineFrom(next, limit, baseY, rnd, k + 4);
      assert SkylineFrom(x, limit, baseY, rnd, k).value == [p] + rest.value;
      SkylineShape(next, limit, baseY, rnd, k + 4);
      SkylineCons(p, rest.value, x, next, limit, baseY);
    }
  }

  /** The list facts of `SkylineFrom` carry over from the rest to the whole. */
  lemma SkylineCons(p: SkyPoly, rest: seq<SkyPoly>, x: real, next: real, limit: real, baseY: real)
    requires p.x == x < limit && p.y + p.h == baseY && 60.0 <= p.w < 180.0
    requires x + p.w <= next < x + p.w + SkylineMaxStep
    requires next >= limit <==> rest == []
    requires rest != [] ==> rest[0].x == next
    requires forall i :: 0 <= i < |rest| ==>
      next <= rest[i].x < limit && rest[i].y + rest[i].h == baseY && 60.0 <= rest[i].w < 180.0
    requires forall i :: 0 <= i && i + 1 < |rest| ==> rest[i + 1].x >= rest[i].x + rest[i].w
    requires rest != [] ==> rest[|rest| - 1].x + rest[|rest| - 1].w + SkylineMaxStep > limit
    ensures var r := [p] + rest;
      && r[0].x == x
      && (forall i :: 0 <= i < |r| ==> x <= r[i].x < limit && r[i].y + r[i].h == baseY && 60.0 <= r[i].w < 180.0)
      && (forall i :: 0 <= i && i + 1 < |r| ==> r[i + 1].x >= r[i].x + r[i].w)
      && r[|r| - 1].x + r[|r| - 1].w + SkylineMaxStep > limit
  {
    var r := [p] + rest;
    assert forall i :: 1 <= i < |r| ==> r[i] == rest[i - 1];
  }

  /** One skyline building at `x` from draws `k` to `k + 2`: width
      `60 + random() * 120`, height `100 + random() * 220`, flat or spiked
      roof with even odds. */
  function SkyBuilding(x: real, baseY: real, rnd: Stream, k: nat): (p: SkyPoly)
    ensures p.x == x && p.y + p.h == baseY && 60.0 <= p.w < 180.0
  {
    var bh := 100.0 + rnd(k + 1) * 220.0;
    SkyPoly(x, baseY - bh, 60.0 + Scaled(rnd(k), 120.0), bh, if rnd(k + 2) < 0.5 then Flat else Spike)
  }

  /** `makeSkyline` for a view `w` by `h`: buildings from x = -80, bottoms
      on the line `h - 260`, until the cursor passes `w + 200`. */
  function MakeSkyline(w: real, h: real, rnd: Stream, k: nat): (r: Made<seq<SkyPoly>>)
    ensures w + SkylineAhead > SkylineStartX ==> |r.value| >= 1 && r.value[0].x == SkylineStartX
    ensures forall i :: 0 <= i < |r.value| ==>
      r.value[i].y + r.value[i].h == h - SkylineLift && r.value[i].x < w + SkylineAhead
    ensures forall i :: 0 <= i && i + 1 < |r.value| ==> r.value[i + 1].x >= r.value[i].x + r.value[i].w
  {
    SkylineShape(SkylineStartX, w + SkylineAhead, h - SkylineLift, rnd, k);
    SkylineFrom(SkylineStartX, w + SkylineAhead, h - SkylineLift, rnd, k)
  }

  /** Skyline buildings never overlap: any later building starts at or
      after the right edge of any earlier one. */
  lemma {:induction false} SkylineNonOverlapping(x: real, limit: real, baseY: real, rnd: Stream, k: nat, i: nat, j: nat)
    requires i < j < |SkylineFrom(x, limit, baseY, rnd, k).value|
    ensures SkylineFrom(x, limit, baseY, rnd, k).value[j].x >=
            SkylineFrom(x, limit, baseY, rnd, k).value[i].x + SkylineFrom(x, limit, baseY, rnd, k).value[i].w
    decreases j - i
  {
    var ps := SkylineFrom(x, limit, baseY, rnd, k).value;
    SkylineShape(x, limit, baseY, rnd, k);
    if j > i + 1 {
      SkylineNonOverlapping(x, limit, baseY, rnd, k, i, j - 1);
      assert ps[j].x >= ps[j - 1].x + ps[j - 1].w;
    }
  }

  // ---------------------------------------------------------------------
  // makeWindows

  /** A window id `r * 1000 + c`. */
  function WindowId(r: int, c: int): int { r * 1000 + c }

  /** `id` names an inner cell: not on the outer ring of the grid. */
  predicate InnerCell(id: int, rows: int, cols: int) {
    exists r, c :: 1 <= r < rows - 1 && 1 <= c < cols - 1 && id == WindowId(r, c)
  }

  datatype Windows = Windows(cols: int, rows: int, cellX: real, cellY: real, lit: set<int>, warm: set<int>)

  datatype Lights = Lights(lit: set<int>, warm: set<int>, k: nat)

  /** Row `r` of the window loop from column `c`: one draw per cell for lit,
      and one more for warm when it is lit. */
  function WindowRow(r: int, c: int, rows: int, cols: int, density: real, rnd: Stream, k: nat): (l: Lights)
    requires 1 <= r < rows - 1 && c >= 1
    ensures l.warm <= l.lit
    ensures forall id :: id in l.lit ==> InnerCell(id, rows, cols)
    ensures l.k >= k
    decreases cols - c
  {
    if c >= cols - 1 then Lights({}, {}, k)
    else
      var id := WindowId(r, c);
      assert InnerCell(id, rows, cols);
      if rnd(k) < density then
        var rest := WindowRow(r, c + 1, rows, cols, density, rnd, k + 2);
        Lights(rest.lit + {id}, if rnd(k + 1) < 0.8 then rest.warm + {id} else rest.warm, rest.k)
      else
        WindowRow(r, c + 1, rows, cols, density, rnd, k + 1)
  }

  /** The rows of the window loop from row `r`. */
  function WindowRows(r: int, rows: int, cols: int, density: real, rnd: Stream, k: nat): (l: Lights)
    requires r >= 1
    ensures l.warm <= l.lit
    ensures forall id :: id in l.lit ==> InnerCell(id, rows, cols)
    ensures l.k >= k
    decreases rows - r
  {
    if r >= rows - 1 then Lights({}, {}, k)
    else
      var row := WindowRow(r, 1, rows, cols, density, rnd, k);
      var rest := WindowRows(r + 1, rows, cols, density, rnd, row.k);
      Lights(row.lit + rest.lit, row.warm + rest.warm, rest.k)
  }

  /** The grid's cell size for the scale flag: 14 x 18 at scale 2, else 12 x 16. */
  function CellX(scaleFlag: int): real { if scaleFlag == 2 then 14.0 else 12.0 }
  function CellY(scaleFlag: int): real { if scaleFlag == 2 then 18.0 else 16.0 }
  /** Chance that a cell is lit: 0.24 at scale 2, else 0.18. */
  function Density(scaleFlag: int): real { if scaleFlag == 2 then 0.24 else 0.18 }

  /** `makeWindows(bw, bh, scaleFlag)`. */
  function MakeWindows(bw: real, bh: real, scaleFlag: int, rnd: Stream, k: nat): (r: Made<Windows>)
    ensures r.value.cols == MaxInt(3, Floor(bw / CellX(scaleFlag)))
    ensures r.value.rows == MaxInt(4, Floor(bh / CellY(scaleFlag)))
    ensures r.value.cellX == CellX(scaleFlag) && r.value.cellY == CellY(scaleFlag)
    ensures r.value.warm <= r.value.lit
    ensures forall id :: id in r.value.lit ==> InnerCell(id, r.value.rows, r.value.cols)
    ensures r.k >= k
  {
    var cols := MaxInt(3, Floor(bw / CellX(scaleFlag)));
    var rows := MaxInt(4, Floor(bh / CellY(scaleFlag)));
    var l := WindowRows(1, rows, cols, Density(scaleFlag), rnd, k);
    Made(Windows(cols, rows, CellX(scaleFlag), CellY(scaleFlag), l.lit, l.warm), l.k)
  }

  // ---------------------------------------------------------------------
  // makeBottomDetail

  datatype RoofStep = RoofStep(x: real, w: real, h: real)
  datatype DetailVent = DetailVent(x: real, w: real, h: real)
  datatype Slit = Slit(x: real, y: real, h: real)
  datatype DetailPipe = DetailPipe(y: real, w: real, t: real)
  datatype Rail = Rail(x: real, w: real)
  datatype BottomDetail = BottomDetail(roofSteps: seq<RoofStep>, vents: seq<DetailVent>, slits: seq<Slit>,
                                       pipe: Option<DetailPipe>, rail: Option<Rail>)

  const StepGap: real := 4.0
  const SlitPitch: real := 14.0

  /** The roof-step loop from step `i` at cursor `x`: it stops at the first
      step that would reach past `bw - 6`. */
  function RoofSteps(x: real, i: nat, count: nat, bw: real, rnd: Stream, k: nat): (r: Made<seq<RoofStep>>)
    requires i <= count
    ensures |r.value| <= count - i
    ensures r.value != [] ==> r.value[0].x == x
    ensures forall j :: 0 <= j < |r.value| ==> r.value[j].x + r.value[j].w <= bw - 6.0
    ensures bw >= 0.0 ==> forall j :: 0 <= j < |r.value| ==> r.value[j].x >= x
    ensures forall j :: 0 <= j && j + 1 < |r.value| ==> r.value[j + 1].x >= r.value[j].x + r.value[j].w + StepGap
    decreases count - i
  {
    if i >= count then Made([], k)
    else
      var w := StepWidth(rnd(k), bw);
      var h := 6.0 + rnd(k + 1) * 16.0;
      if x + w > bw - 6.0 then Made([], k + 2)
      else
        var s := RoofStep(x, w, h);
        var rest := RoofSteps(x + w + StepGap + Scaled(rnd(k + 2), 10.0), i + 1, count, bw, rnd, k + 3);
        assert forall j :: 1 <= j < |rest.value| + 1 ==> ([s] + rest.value)[j] == rest.value[j - 1];
        Made([s] + rest.value, rest.k)
  }

  /** A roof step's width, `12 + random() * min(48, bw * 0.35)`: at least
      12 on a building of non-negative width. */
  function StepWidth(u: Unit, bw: real): (w: real)
    ensures bw >= 0.0 ==> 12.0 <= w < 60.0
  {
    var t := Min(48.0, bw * 0.35);
    if bw >= 0.0 then ScaledWithin(u, t, u * t); 12.0 + u * t
    else 12.0 + u * t
  }

  /** The vent loop: `count - i` vents, three draws each. */
  function DetailVents(i: nat, count: nat, bw: real, rnd: Stream, k: nat): (r: Made<seq<DetailVent>>)
    ensures |r.value| == if i < count then count - i else 0
    ensures r.k == k + 3 * |r.value|
    decreases count - i
  {
    if i >= count then Made([], k)
    else
      var v := DetailVent(6.0 + rnd(k) * (bw - 18.0), 6.0 + rnd(k + 1) * 8.0, 3.0 + rnd(k + 2) * 4.0);
      var rest := DetailVents(i + 1, count, bw, rnd, k + 3);
      Made([v] + rest.value, rest.k)
  }

  /** The slit loop from column `c`: at most one slit per column, placed
      within the first 4 px of the column's 14-px band. */
  function Slits(c: nat, cols: nat, bh: real, rnd: Stream, k: nat): (r: Made<seq<Slit>>)
    requires c <= cols
    ensures |r.value| <= cols - c
    ensures forall j :: 0 <= j < |r.value| ==>
      6.0 + SlitPitch * c as real <= r.value[j].x < 10.0 + SlitPitch * (cols - 1) as real
    ensures forall j :: 0 <= j && j + 1 < |r.value| ==> r.value[j + 1].x > r.value[j].x + 10.0
    decreases cols - c
  {
    if c >= cols then Made([], k)
    else if rnd(k) < 0.18 then
      var sx := 6.0 + c as real * SlitPitch + Scaled(rnd(k + 1), 4.0);
      var s := Slit(sx, 10.0 + rnd(k + 2) * Max(6.0, bh - 28.0), 6.0 + rnd(k + 3) * 12.0);
      var rest := Slits(c + 1, cols, bh, rnd, k + 4);
      assert forall j :: 1 <= j < |rest.value| + 1 ==> ([s] + rest.value)[j] == rest.value[j - 1];
      Made([s] + rest.value, rest.k)
    else Slits(c + 1, cols, bh, rnd, k + 1)
  }

  /** `makeBottomDetail(bw, bh)`: up to three roof steps, up to two vents,
      wall slits, and optionally a pipe (35%) and a rail (25%). */
  function MakeBottomDetail(bw: real, bh: real, rnd: Stream, k: nat): (r: Made<BottomDetail>)
    ensures |r.value.roofSteps| <= 3 && |r.value.vents| <= 2
    ensures forall j :: 0 <= j < |r.value.roofSteps| ==> r.value.roofSteps[j].x + r.value.roofSteps[j].w <= bw - 6.0
    ensures bw >= 0.0 ==> forall j :: 0 <= j < |r.value.roofSteps| ==> r.value.roofSteps[j].x >= StepGap
    ensures forall j :: 0 <= j && j + 1 < |r.value.roofSteps| ==>
      r.value.roofSteps[j + 1].x >= r.value.roofSteps[j].x + r.value.roofSteps[j].w + StepGap
    ensures |r.value.slits| <= MaxInt(2, Floor(bw / SlitPitch))
    ensures r.value.rail.Some? ==> r.value.rail.value == Rail(6.0, Max(0.0, bw - 12.0)) && r.value.rail.value.w >= 0.0
  {
    var stepCount := 1 + Floor(Scaled(rnd(k), 3.0));
    var steps := RoofSteps(StepGap, 0, stepCount, bw, rnd, k + 1);
    var ventCount := Floor(Scaled(rnd(steps.k), 3.0));
    var vents := DetailVents(0, ventCount, bw, rnd, steps.k + 1);
    var cols := MaxInt(2, Floor(bw / SlitPitch));
    var slits := Slits(0, cols, bh, rnd, vents.k);
    var k1 := slits.k;
    var pipe := if rnd(k1) < 0.35 then Some(DetailPipe(bh - (8.0 + rnd(k1 + 1) * 18.0), 20.0 + rnd(k1 + 2) * (bw * 0.5), 3.0)) else None;
    var k2 := if pipe.Some? then k1 + 3 else k1 + 1;
    var rail := if rnd(k2) < 0.25 then Some(Rail(6.0, Max(0.0, bw - 12.0))) else None;
    Made(BottomDetail(steps.value, vents.value, slits.value, pipe, rail), k2 + 1)
  }

  // ---------------------------------------------------------------------
  // makeBuildingObj, decorateTall, makeCityLayers

  /** `Math.PI * 2` as the double it evaluates to. */
  const TwoPi: real := 6.283185307179586

  /** A roof prop of a tall building (angles in radians). */
  datatype RoofProp =
    | Tank(dx: real)
    | DishSmall(dx: real)
    | PipeProp(dx: real, pw: real)
    | WaterTower(dx: real)
    | Hvac(dx: real, hw: real)
    | Fan(dx: real, rot: real, rs: real)
    | VentProp(dx: real, emit: real)

  /** The fixed vertical offset of each prop kind. */
  function PropDy(p: RoofProp): real {
    match p
    case Tank(_) => -12.0
    case DishSmall(_) => 6.0
    case PipeProp(_, _) => 2.0
    case WaterTower(_) => -6.0
    case Hvac(_, _) => 2.0
    case Fan(_, _, _) => 0.0
    case VentProp(_, _) => 4.0
  }

  datatype Layer = Bottom | Tall | FrontTall | BackTall

  datatype Building = Building(
    x: real, y: real, w: real, h: real,
    windows: Option<Windows>,
    twinkleT: real, twinkleRate: real,
    hasBillboard: bool,
    scaleFlag: int,
    silhouette: bool,
    silDetail: Option<BottomDetail>,
    panelStep: int, panelAlpha: real,
    roof: seq<RoofProp>,
    layer: Layer,
    baseColor: Option<string>,
    seed: int)

  /** The largest seed plus one: `(random() * 0x7fffffff) | 0`. */
  const SeedSpan: int := 0x7fff_ffff

  /** `makeBuildingObj(x, y, w, h, scaleFlag, silhouette)`, drawing in the
      order the object literal is evaluated: windows, twinkle rate, the
      billboard roll (only when not a silhouette at scale 1), the silhouette
      detail, the seed. */
  function MakeBuildingObj(x: real, y: real, w: real, h: real, scaleFlag: int, silhouette: bool, rnd: Stream, k: nat)
    : (r: Made<Building>)
    ensures r.value.x == x && r.value.y == y && r.value.w == w && r.value.h == h
    ensures r.value.windows.None? <==> silhouette
    ensures r.value.silDetail.Some? <==> silhouette
    ensures r.value.hasBillboard ==> !silhouette && scaleFlag == 1
    ensures 1.2 <= r.value.twinkleRate < 3.2
    ensures 0 <= r.value.seed < SeedSpan
    ensures r.value.layer == (if silhouette then Bottom else Tall)
    ensures r.value.roof == [] && r.value.baseColor.None? && r.value.panelStep == 0
    ensures r.value.scaleFlag == scaleFlag && r.value.silhouette == silhouette
  {
    var win := if silhouette then Made(None, k) else
      var m := MakeWindows(w, h, scaleFlag, rnd, k); Made(Some(m.value), m.k);
    var k1 := win.k;
    var twinkle := 1.2 + Scaled(rnd(k1), 2.0);
    var billboard := !silhouette && scaleFlag == 1 && rnd(k1 + 1) < 0.12;
    var k2 := if !silhouette && scaleFlag == 1 then k1 + 2 else k1 + 1;
    var detail := if silhouette then var d := MakeBottomDetail(w, h, rnd, k2); Made(Some(d.value), d.k) else Made(None, k2);
    var k3 := detail.k;
    var seed := Floor(Scaled(rnd(k3), SeedSpan as real));
    Made(Building(x, y, w, h, win.value, 0.0, twinkle, billboard, scaleFlag, silhouette, detail.value,
                  0, 0.0, [], if silhouette then Bottom else Tall, None, seed), k3 + 1)
  }

  const FrontTallVariants: seq<string> := ["#121a30", "#17203a", "#1a213e", "#102034", "#18243a", "#14203a"]
  const BackTallVariants: seq<string> := ["#0b1220", "#0d1424", "#0a1322", "#0b1522", "#0a1524"]

  /** Front-only props; back buildings get tanks, small dishes and pipes. */
  predicate FrontOnly(p: RoofProp) { p.WaterTower? || p.Hvac? || p.Fan? || p.VentProp? }

  /** One optional roof prop: a roll against `chance` (skipped, with no draw,
      when `allowed` is false) and `extra` more draws when it succeeds. */
  function Roll(allowed: bool, chance: real, extra: nat, rnd: Stream, k: nat): (r: Made<bool>)
    ensures !allowed ==> r == Made(false, k)
    ensures allowed ==> r.k == k + 1 + (if r.value then extra else 0)
    ensures r.value ==> allowed
  {
    if !allowed then Made(false, k)
    else if rnd(k) < chance then Made(true, k + 1 + extra)
    else Made(false, k + 1)
  }

  /** The first three rolls of `decorateTall`, made for every tall
      building: a tank, a small dish (likelier in front) and a pipe. */
  function CommonRoofProps(w: real, isFront: bool, rnd: Stream, k: nat): (r: Made<seq<RoofProp>>)
    ensures |r.value| <= 3
    ensures forall i :: 0 <= i < |r.value| ==> !FrontOnly(r.value[i])
  {
    var tank := Roll(true, 0.40, 1, rnd, k);
    var k1 := tank.k;
    var dish := Roll(true, if isFront then 0.28 else 0.18, 1, rnd, k1);
    var k2 := dish.k;
    var pipe := Roll(true, 0.25, 2, rnd, k2);
    var props :=
      (if tank.value then [Tank(8.0 + rnd(k + 1) * (w - 40.0))] else []) +
      (if dish.value then [DishSmall(10.0 + rnd(k1 + 1) * (w - 20.0))] else []) +
      (if pipe.value then [PipeProp(8.0 + rnd(k2 + 1) * (w - 30.0), 24.0 + rnd(k2 + 2) * 24.0)] else []);
    Made(props, pipe.k)
  }

  /** The last four rolls of `decorateTall`, made only for front buildings
      (no draw at all for back ones): a water tower, an HVAC box, a fan and
      a vent whose steam timer starts at 0. */
  function FrontRoofProps(w: real, isFront: bool, rnd: Stream, k: nat): (r: Made<seq<RoofProp>>)
    ensures |r.value| <= 4
    ensures !isFront ==> r == Made([], k)
    ensures forall i :: 0 <= i < |r.value| ==> r.value[i].VentProp? ==> r.value[i].emit == 0.0
  {
    var tower := Roll(isFront, 0.18, 1, rnd, k);
    var k1 := tower.k;
    var hvac := Roll(isFront, 0.26, 2, rnd, k1);
    var k2 := hvac.k;
    var fan := Roll(isFront, 0.22, 3, rnd, k2);
    var k3 := fan.k;
    var vent := Roll(isFront, 0.25, 1, rnd, k3);
    var props :=
      (if tower.value then [WaterTower(10.0 + rnd(k + 1) * (w - 38.0))] else []) +
      (if hvac.value then [Hvac(8.0 + rnd(k1 + 1) * (w - 32.0), 18.0 + rnd(k1 + 2) * 18.0)] else []) +
      (if fan.value then [Fan(8.0 + rnd(k2 + 1) * (w - 24.0), rnd(k2 + 2) * TwoPi, 0.8 + rnd(k2 + 3) * 1.6)] else []) +
      (if vent.value then [VentProp(12.0 + rnd(k3 + 1) * (w - 32.0), 0.0)] else []);
    Made(props, vent.k)
  }

  /** The roof props `decorateTall` rolls for, in its order. */
  function TallRoofProps(w: real, isFront: bool, rnd: Stream, k: nat): (r: Made<seq<RoofProp>>)
    ensures |r.value| <= 7
    ensures !isFront ==> forall i :: 0 <= i < |r.value| ==> !FrontOnly(r.value[i])
    ensures forall i :: 0 <= i < |r.value| ==> r.value[i].VentProp? ==> r.value[i].emit == 0.0
  {
    var common := CommonRoofProps(w, isFront, rnd, k);
    var front := FrontRoofProps(w, isFront, rnd, common.k);
    assert forall i :: 0 <= i < |front.value| ==> (common.value + front.value)[|common.value| + i] == front.value[i];
    Made(common.value + front.value, front.k)
  }

  /** `decorateTall(b, isFront)`: panel step, panel alpha, a base colour from
      the layer's palette, the layer and the roof props. */
  function DecorateTall(b: Building, isFront: bool, rnd: Stream, k: nat): (r: Made<Building>)
    ensures 16 <= r.value.panelStep <= 25
    ensures r.value.panelAlpha == (if isFront then 0.12 else 0.08)
    ensures r.value.layer == (if isFront then FrontTall else BackTall)
    ensures r.value.baseColor.Some? &&
      r.value.baseColor.value in (if isFront then FrontTallVariants else BackTallVariants)
    ensures !isFront ==> forall i :: 0 <= i < |r.value.roof| ==> !FrontOnly(r.value.roof[i])
    ensures r.value == b.(panelStep := r.value.panelStep, panelAlpha := r.value.panelAlpha,
                          baseColor := r.value.baseColor, layer := r.value.layer, roof := r.value.roof)
  {
    var step := 16 + Floor(Scaled(rnd(k), 10.0));
    var colour := if isFront then Pick(FrontTallVariants, rnd(k + 1)) else Pick(BackTallVariants, rnd(k + 1));
    var props := TallRoofProps(b.w, isFront, rnd, k + 2);
    Made(b.(panelStep := step, panelAlpha := if isFront then 0.12 else 0.08, baseColor := Some(colour),
            layer := if isFront then FrontTall else BackTall, roof := props.value), props.k)
  }

  /** The four building lists of `makeCityLayers`. */
  datatype CityLayers = CityLayers(backTall: seq<Building>, frontTall: seq<Building>,
                                   backSmallBottom: seq<Building>, frontSmallBottom: seq<Building>)

  const TallCount: nat := 18
  const BottomCount: nat := 24
  const BottomPad: real := 8.0

  /** A tall building stands on `gy`, has windows, and carries the layer it
      was filed under. */
  predicate TallOn(b: Building, gy: real, front: bool) {
    b.y + b.h == gy && !b.silhouette && b.windows.Some? && b.scaleFlag == 2 && !b.hasBillboard &&
    b.layer == (if front then FrontTall else BackTall)
  }

  /** A bottom building stands on `h - 8` and is a silhouette with detail. */
  predicate BottomOn(b: Building, h: real) {
    b.y + b.h == h - BottomPad && b.silhouette && b.windows.None? && b.silDetail.Some? && b.scaleFlag == 1
  }

  predicate LayersWellFormed(c: CityLayers, gy: real, h: real) {
    (forall i :: 0 <= i < |c.frontTall| ==> TallOn(c.frontTall[i], gy, true)) &&
    (forall i :: 0 <= i < |c.backTall| ==> TallOn(c.backTall[i], gy, false)) &&
    (forall i :: 0 <= i < |c.frontSmallBottom| ==> BottomOn(c.frontSmallBottom[i], h)) &&
    (forall i :: 0 <= i < |c.backSmallBottom| ==> BottomOn(c.backSmallBottom[i], h))
  }

  /** The tall-building loop from iteration `i`: 40% front, the rest back. */
  function TallLoop(i: nat, w: real, h: real, gy: real, acc: CityLayers, rnd: Stream, k: nat): (r: Made<CityLayers>)
    requires i <= TallCount && LayersWellFormed(acc, gy, h)
    ensures LayersWellFormed(r.value, gy, h)
    ensures |r.value.frontTall| + |r.value.backTall| == |acc.frontTall| + |acc.backTall| + (TallCount - i)
    ensures r.value.frontSmallBottom == acc.frontSmallBottom && r.value.backSmallBottom == acc.backSmallBottom
    decreases TallCount - i
  {
    if i == TallCount then Made(acc, k)
    else
      var isFront := rnd(k) < 0.4;
      var bw := 80.0 + rnd(k + 1) * 160.0;
      var bh := 220.0 + rnd(k + 2) * 240.0;
      var x := rnd(k + 3) * (w + 400.0) - 200.0;
      var b := MakeBuildingObj(x, gy - bh, bw, bh, 2, false, rnd, k + 4);
      var d := DecorateTall(b.value, isFront, rnd, b.k);
      assert TallOn(d.value, gy, isFront);
      AddTallKeeps(acc, d.value, isFront, gy, h);
      TallLoop(i + 1, w, h, gy, AddTall(acc, d.value, isFront), rnd, d.k)
  }

  /** A tall building joins the front or the back layer. */
  function AddTall(acc: CityLayers, b: Building, front: bool): CityLayers {
    if front then acc.(frontTall := acc.frontTall + [b]) else acc.(backTall := acc.backTall + [b])
  }

  /** A bottom silhouette joins the front or the back layer. */
  function AddBottom(acc: CityLayers, b: Building, front: bool): CityLayers {
    if front then acc.(frontSmallBottom := acc.frontSmallBottom + [b])
    else acc.(backSmallBottom := acc.backSmallBottom + [b])
  }

  lemma AddTallKeeps(acc: CityLayers, b: Building, front: bool, gy: real, h: real)
    requires LayersWellFormed(acc, gy, h) && TallOn(b, gy, front)
    ensures LayersWellFormed(AddTall(acc, b, front), gy, h)
    ensures |AddTall(acc, b, front).frontTall| + |AddTall(acc, b, front).backTall| == |acc.frontTall| + |acc.backTall| + 1
    ensures AddTall(acc, b, front).frontSmallBottom == acc.frontSmallBottom
    ensures AddTall(acc, b, front).backSmallBottom == acc.backSmallBottom
  {
    var a := AddTall(acc, b, front);
    if front {
      assert forall i :: 0 <= i < |acc.frontTall| ==> a.frontTall[i] == acc.frontTall[i];
    } else {
      assert forall i :: 0 <= i < |acc.backTall| ==> a.backTall[i] == acc.backTall[i];
    }
  }

  lemma AddBottomKeeps(acc: CityLayers, b: Building, front: bool, gy: real, h: real)
    requires LayersWellFormed(acc, gy, h) && BottomOn(b, h)
    ensures LayersWellFormed(AddBottom(acc, b, front), gy, h)
    ensures |AddBottom(acc, b, front).frontSmallBottom| + |AddBottom(acc, b, front).backSmallBottom| ==
            |acc.frontSmallBottom| + |acc.backSmallBottom| + 1
    ensures AddBottom(acc, b, front).frontTall == acc.frontTall
    ensures AddBottom(acc, b, front).backTall == acc.backTall
  {
    var a := AddBottom(acc, b, front);
    if front {
      assert forall i :: 0 <= i < |acc.frontSmallBottom| ==> a.frontSmallBottom[i] == acc.frontSmallBottom[i];
    } else {
      assert forall i :: 0 <= i < |acc.backSmallBottom| ==> a.backSmallBottom[i] == acc.backSmallBottom[i];
    }
  }

  /** The bottom-building loop from iteration `i`: half front, half back. */
  function BottomLoop(i: nat, w: real, h: real, gy: real, acc: CityLayers, rnd: Stream, k: nat): (r: Made<CityLayers>)
    requires i <= BottomCount && LayersWellFormed(acc, gy, h)
    ensures LayersWellFormed(r.value, gy, h)
    ensures |r.value.frontSmallBottom| + |r.value.backSmallBottom| ==
            |acc.frontSmallBottom| + |acc.backSmallBottom| + (BottomCount - i)
    ensures r.value.frontTall == acc.frontTall && r.value.backTall == acc.backTall
    decreases BottomCount - i
  {
    if i == BottomCount then Made(acc, k)
    else
      var isFront := rnd(k) < 0.5;
      var bw := 60.0 + rnd(k + 1) * 110.0;
      var bh := 80.0 + rnd(k + 2) * 140.0;
      var x := rnd(k + 3) * (w + 400.0) - 200.0;
      var b := MakeBuildingObj(x, h - bh - BottomPad, bw, bh, 1, true, rnd, k + 4);
      assert BottomOn(b.value, h);
      AddBottomKeeps(acc, b.value, isFront, gy, h);
      BottomLoop(i + 1, w, h, gy, AddBottom(acc, b.value, isFront), rnd, b.k)
  }

  /** `makeCityLayers` for a view `w` by `h` with the ground at `gy`:
      exactly 18 tall buildings standing on the ground and 24 silhouettes
      standing 8 px above the view's bottom. */
  function MakeCityLayers(w: real, h: real, gy: real, rnd: Stream, k: nat): (r: Made<CityLayers>)
    ensures |r.value.frontTall| + |r.value.backTall| == TallCount
    ensures |r.value.frontSmallBottom| + |r.value.backSmallBottom| == BottomCount
    ensures LayersWellFormed(r.value, gy, h)
  {
    var empty := CityLayers([], [], [], []);
    assert LayersWellFormed(empty, gy, h);
    var tall := TallLoop(0, w, h, gy, empty, rnd, k);
    assert |tall.value.frontTall| + |tall.value.backTall| == TallCount;
    assert |tall.value.frontSmallBottom| + |tall.value.backSmallBottom| == 0;
    var all := BottomLoop(0, w, h, gy, tall.value, rnd, tall.k);
    assert |all.value.frontSmallBottom| + |all.value.backSmallBottom| == BottomCount;
    all
  }

  // ---------------------------------------------------------------------
  // The window rows a stretched building gains below the deck

  /** `__hash32(n)`: the xorshift32 step of the seeded generator, applied to
      the 32-bit form of `n`. */
  function SceneHash(n: bv32): bv32 { SeededRng.Xorshift32(n) }

  /** `__rand01(seed)`: the hash over 2^32 - 1, in [0, 1]. */
  function SceneRand01(n: bv32): (r: real)
    ensures 0.0 <= r <= 1.0
    ensures r == 1.0 <==> SceneHash(n) == 0xFFFF_FFFF
  {
    ClosedUnit(SceneHash(n))
  }

  const WarmProb: real := 0.8

  /** The two words hashed for cell `(r, c)` of a building with `seed`. */
  function LitWord(seed: int, r: int, c: int): bv32 {
    Word(seed) ^ Word(r * 374761393) ^ Word(c * 668265263)
  }
  function WarmWord(seed: int, r: int, c: int): bv32 {
    Word(seed) ^ 0x9e37_79b9 ^ Word(r * 1274126177) ^ Word(c * 2246822519)
  }

  /** The lit/warm state of window `(r, c)` as `drawBuilding` decides it:
      authored rows read the generated sets, rows below them are hashed
      from the building's seed. */
  datatype WindowState = WindowState(lit: bool, warm: bool)

  function WindowAt(b: Building, win: Windows, r: int, c: int): (s: WindowState)
    ensures r < win.rows - 1 ==> s == WindowState(WindowId(r, c) in win.lit, WindowId(r, c) in win.warm)
    ensures r >= win.rows - 1 ==>
      (s.lit <==> SceneRand01(LitWord(b.seed, r, c)) < Density(b.scaleFlag))
    ensures r >= win.rows - 1 ==>
      (s.warm <==> s.lit && SceneRand01(WarmWord(b.seed, r, c)) < WarmProb)
  {
    if r < win.rows - 1 then WindowState(WindowId(r, c) in win.lit, WindowId(r, c) in win.warm)
    else
      var lit := SceneRand01(LitWord(b.seed, r, c)) < Density(b.scaleFlag);
      WindowState(lit, lit && SceneRand01(WarmWord(b.seed, r, c)) < WarmProb)
  }

  /** The number of rows `drawBuilding` fills for the building's current
      height: at least 4. */
  function RowsFit(h: real, scaleFlag: int): int { MaxInt(4, Floor((h - 16.0) / CellY(scaleFlag))) }

  /** A warm window is always lit, in authored and extended rows alike. */
  lemma WarmWindowIsLit(b: Building, win: Windows, r: int, c: int)
    requires win.warm <= win.lit
    ensures WindowAt(b, win, r, c).warm ==> WindowAt(b, win, r, c).lit
  {}

  /** Windows generated by `makeBuildingObj` keep warm within lit for every
      cell `drawBuilding` visits. */
  lemma GeneratedWarmIsLit(x: real, y: real, w: real, h: real, scaleFlag: int, rnd: Stream, k: nat, r: int, c: int)
    ensures var b := MakeBuildingObj(x, y, w, h, scaleFlag, false, rnd, k).value;
      WindowAt(b, b.windows.value, r, c).warm ==> WindowAt(b, b.windows.value, r, c).lit
  {
    var b := MakeBuildingObj(x, y, w, h, scaleFlag, false, rnd, k).value;
    WarmWindowIsLit(b, b.windows.value, r, c);
  }

  /** Stretching a building to a new height changes only how many rows are
      drawn: a taller building draws every row it drew before (and more),
      and each cell keeps its state, which depends only on the grid, the
      seed and the scale. */
  lemma StretchKeepsWindows(b: Building, win: Windows, h2: real, r: int, c: int)
    ensures WindowAt(b.(h := h2), win, r, c) == WindowAt(b, win, r, c)
    ensures b.h <= h2 ==> RowsFit(b.h, b.scaleFlag) <= RowsFit(h2, b.scaleFlag)
  {
    var cy := CellY(b.scaleFlag);
    if b.h <= h2 {
      assert (b.h - 16.0) / cy <= (h2 - 16.0) / cy;
    }
  }
}
