/** The obstacle spawner of `obstacles.js`: the gap-width range, the three
    fairness guards, the creation of one obstacle or one deck gap per call,
    and the composite hitboxes of the pylon, the water-tower gate and the
    sagging wire. */
module Obstacles {
  import opened Num
  import opened Utils

  /** The pad between a skylight's footprint and the deck gap it leaves. */
  const SkylightGapPad: real := 8.0
  /** The world's starting speed and its cap (`state.baseSpeed`, `state.speedMax`). */
  const BaseSpeed: real := 340.0
  const SpeedMax: real := 1200.0
  /** New obstacles are born this far right of the screen edge. */
  const SpawnLead: real := 40.0
  /** The guards' safety pad around an obstacle, in pixels. */
  const GuardMargin: real := 160.0
  /** The shortest delay each kind of deferral returns. */
  const GuardMinDelay: real := 0.08
  const RunwayMinDelay: real := 0.06

  datatype TankStyle = Drum | PolyRound
  datatype BillboardFace = Classic | Slats | Led | Wood
  datatype VentTier = Medium | Long | ExtraLong

  /** The type-specific part of an obstacle record. */
  datatype Kind =
    | Chimney
    | Mast
    | Pylon(baseY: real, clearance: real)
    | Hvac
    | LegacySkylight
    | VentPipe(runFrac: real)
    | AccessShed(roofDir: int)
    | WaterTank(style: TankStyle)
    | Billboard(face: BillboardFace)
    | WaterTowerGate(beamClearance: int, stem: real, tankH: real, baseY: real)
    | Wire(sag: real, poleH: real, baseY: real)

  datatype Obstacle = Obstacle(kind: Kind, x: real, y: real, w: real, h: real)

  /** A deck gap `{x, w}` in world space; `gid` is the id the deck renderer
      attaches to it the first time it sees it. */
  datatype Gap = Gap(x: real, w: real, gid: Option<nat>)

  function Right(o: Obstacle): real { o.x + o.w }
  function GapRight(g: Gap): real { g.x + g.w }

  // ---------------------------------------------------------------------
  // Gap width

  datatype GapRange = GapRange(min: real, max: real)

  /** `jumpableGapRange`: both ends grow linearly with the speed, clamped to
      [280, 1200]. */
  function JumpableGapRange(speed: real): (r: GapRange)
    ensures r.min < r.max
    ensures 96.8 <= r.min <= 152.0 && 172.0 <= r.max <= 310.0
    ensures 280.0 <= speed <= 1200.0 ==> r.min == 80.0 + 0.06 * speed && r.max == 130.0 + 0.15 * speed
    ensures speed <= 280.0 ==> r == GapRange(96.8, 172.0)
    ensures speed >= 1200.0 ==> r == GapRange(152.0, 310.0)
  {
    var v := Max(280.0, Min(1200.0, speed));
    GapRange(80.0 + 0.06 * v, 130.0 + 0.15 * v)
  }

  /** Faster play never narrows the range. */
  lemma GapRangeMonotone(s1: real, s2: real)
    requires s1 <= s2
    ensures JumpableGapRange(s1).min <= JumpableGapRange(s2).min
    ensures JumpableGapRange(s1).max <= JumpableGapRange(s2).max
  {}

  /** `pickGapWidth`: `min + t * (max - min)`, where the draw `t` stands for
      `random() ** 0.35` (which lies in [0, 1) as well). */
  function PickGapWidth(speed: real, t: Unit): (w: real)
    ensures JumpableGapRange(speed).min <= w < JumpableGapRange(speed).max
  {
    var r := JumpableGapRange(speed);
    r.min + Scaled(t, r.max - r.min)
  }

  /** A larger draw never gives a narrower gap. */
  lemma PickGapWidthMonotone(speed: real, t1: Unit, t2: Unit)
    requires t1 <= t2
    ensures PickGapWidth(speed, t1) <= PickGapWidth(speed, t2)
  {
    var r := JumpableGapRange(speed);
    var d := r.max - r.min;
    ScaledMonotone(t1, t2, d);
  }

  /** The rounded width the skylight branch stores: a whole number of pixels
      that is always positive. */
  function GapWidth(speed: real, t: Unit): (w: int)
    ensures JumpableGapRange(speed).min - 0.5 < w as real <= JumpableGapRange(speed).max + 0.5
    ensures w >= 97
  {
    Round(PickGapWidth(speed, t))
  }

  // ---------------------------------------------------------------------
  // Where the previous gap ended

  /** The right edge of the last legacy skylight obstacle, scanning from the end. */
  function LastLegacySkylightRight(obs: seq<Obstacle>): (r: Option<real>)
    ensures r.None? <==> forall i :: 0 <= i < |obs| ==> !obs[i].kind.LegacySkylight?
    ensures r.Some? ==> exists i :: (0 <= i < |obs| && obs[i].kind.LegacySkylight? && r.value == Right(obs[i])
      && forall j :: i < j < |obs| ==> !obs[j].kind.LegacySkylight?)
  {
    if |obs| == 0 then None
    else if obs[|obs| - 1].kind.LegacySkylight? then Some(Right(obs[|obs| - 1]))
    else LastLegacySkylightRight(obs[..|obs| - 1])
  }

  /** `lastSkylightRight`: the last gap's right edge plus the pad on both
      sides; failing any gap, the last legacy skylight's right edge; failing
      that, none (the source's `-Infinity`). */
  function LastSkylightRight(obs: seq<Obstacle>, gaps: seq<Gap>): (r: Option<real>)
    ensures |gaps| > 0 ==> r == Some(GapRight(gaps[|gaps| - 1]) + 2.0 * SkylightGapPad)
    ensures |gaps| == 0 ==> r == LastLegacySkylightRight(obs)
  {
    if |gaps| > 0 then Some(GapRight(gaps[|gaps| - 1]) + 2.0 * SkylightGapPad)
    else LastLegacySkylightRight(obs)
  }

  // ---------------------------------------------------------------------
  // The two obstacle guards

  /** An obstacle is within the guard margin of the spawn point. */
  predicate Near(o: Obstacle, spawnX: real) {
    o.x - GuardMargin <= spawnX <= Right(o) + GuardMargin
  }

  /** The obstacles a guard looks at: the wires (guard 1) or every other
      obstacle (guard 2). */
  predicate Watched(o: Obstacle, wires: bool) {
    o.kind.Wire? == wires
  }

  /** The largest right edge among the watched obstacles near the spawn
      point (`blockRight`), if any. */
  function BlockRight(obs: seq<Obstacle>, spawnX: real, wires: bool): (r: Option<real>)
    ensures r.None? <==> forall i :: 0 <= i < |obs| ==> !(Watched(obs[i], wires) && Near(obs[i], spawnX))
    ensures r.Some? ==> exists i :: 0 <= i < |obs| && Watched(obs[i], wires) && Near(obs[i], spawnX) && r.value == Right(obs[i])
    ensures r.Some? ==> forall i :: 0 <= i < |obs| && Watched(obs[i], wires) && Near(obs[i], spawnX) ==> Right(obs[i]) <= r.value
  {
    if |obs| == 0 then None
    else
      var rest := BlockRight(obs[..|obs| - 1], spawnX, wires);
      var o := obs[|obs| - 1];
      if !(Watched(o, wires) && Near(o, spawnX)) then rest
      else if rest.Some? && rest.value >= Right(o) then rest
      else Some(Right(o))
  }

  /** A guard: wait until the blocking obstacle's right edge plus the
      margin has passed the spawn point, at least `GuardMinDelay` seconds. */
  function GuardDelay(obs: seq<Obstacle>, spawnX: real, speed: real, wires: bool): Option<real>
    requires speed > 0.0
  {
    var b := BlockRight(obs, spawnX, wires);
    if b.Some? && b.value + GuardMargin - spawnX > 0.0 then
      Some(Max(GuardMinDelay, (b.value + GuardMargin - spawnX) / speed))
    else None
  }

  /** A watched obstacle still covers the spawn point, margin included. */
  predicate Blocks(o: Obstacle, spawnX: real, wires: bool) {
    Watched(o, wires) && o.x - GuardMargin <= spawnX < Right(o) + GuardMargin
  }

  /** A guard defers exactly when some watched obstacle has
      `x - 160 <= spawnX < x + w + 160`, and then by at least 0.08 s. */
  lemma GuardDelayIff(obs: seq<Obstacle>, spawnX: real, speed: real, wires: bool)
    requires speed > 0.0
    ensures GuardDelay(obs, spawnX, speed, wires).Some? <==> exists i :: 0 <= i < |obs| && Blocks(obs[i], spawnX, wires)
    ensures GuardDelay(obs, spawnX, speed, wires).Some? ==> GuardDelay(obs, spawnX, speed, wires).value >= GuardMinDelay
  {
    var b := BlockRight(obs, spawnX, wires);
    if exists i :: 0 <= i < |obs| && Blocks(obs[i], spawnX, wires) {
      var i :| 0 <= i < |obs| && Blocks(obs[i], spawnX, wires);
      assert Near(obs[i], spawnX);
      assert Right(obs[i]) <= b.value;
    }
  }

  // ---------------------------------------------------------------------
  // The spawn table and the obstacles it creates

  datatype Choice =
    | ChooseChimney | ChooseAntenna | ChooseHvac | ChooseSkylight | ChooseVentPipe
    | ChooseAccessShed | ChooseWaterTank | ChooseBillboard | ChooseGate | ChooseWire

  const SpawnTable: seq<(Choice, real)> := [
    (ChooseChimney, 22.0), (ChooseAntenna, 16.0), (ChooseHvac, 14.0),
    (ChooseSkylight, 40.0), (ChooseVentPipe, 10.0), (ChooseAccessShed, 9.0),
    (ChooseWaterTank, 6.0), (ChooseBillboard, 4.0), (ChooseGate, 8.0),
    (ChooseWire, 17.0)]

  const VentTiers: seq<(VentTier, real)> := [(Medium, 5.0), (Long, 4.0), (ExtraLong, 2.0)]

  const BillboardFaces: seq<(BillboardFace, real)> := [(Classic, 3.0), (Slats, 4.0), (Led, 3.0), (Wood, 3.0)]

  /** `max(0, sr)` with `sr` the speed's position between base and cap, as
      the antenna uses it (with the `+ 1e-6` guard) clamped to [0, 1]. */
  function AntennaSpeedRatio(speed: real): (sr: real)
    ensures 0.0 <= sr <= 1.0
  {
    Clamp((speed - BaseSpeed) / (SpeedMax - BaseSpeed + 0.000001), 0.0, 1.0)
  }

  /** The wire's extra span at speed: `max(0, speedFactor) * 160`. */
  function ExtraSpan(speed: real): (e: real)
    ensures e >= 0.0
    ensures speed <= BaseSpeed ==> e == 0.0
  {
    Max(0.0, (speed - BaseSpeed) / (SpeedMax - BaseSpeed)) * 160.0
  }

  /** `minWidthForConstantR = ceil(44 * (0.30 / 0.18)) + 4`. */
  const VentMinWidth: real := 78.0

  /** The vent pipe's length for its tier and draw. */
  function VentLength(tier: VentTier, u: Unit): (bw: real)
    ensures 84.0 <= bw <= 220.0
  {
    var raw := match tier
      case Medium => 84.0 + u * 24.0
      case Long => 112.0 + u * 36.0
      case ExtraLong => 156.0 + u * 64.0;
    Max(raw, Max(VentMinWidth, 84.0))
  }

  function VentRunFrac(tier: VentTier, u: Unit): (f: real)
    ensures 0.8 <= f < 0.95
  {
    match tier
    case Medium => 0.80 + u * 0.10
    case Long => 0.88 + u * 0.07
    case ExtraLong => 0.90 + u * 0.05
  }

  /** The water tank's size and style: a drum keeps its drawn size, a poly
      tank is 6 px taller (rounded) and at least `2 * (hh - 2) + 12` wide. */
  function WaterTankShape(u1: Unit, u2: Unit, u3: Unit): (r: (TankStyle, real, real))
    ensures r.0 == Drum ==> r.1 == 96.0 + u1 * 54.0 && r.2 == 46.0 + u2 * 14.0
    ensures r.0 == PolyRound ==> r.2 == Round(46.0 + u2 * 14.0 + 6.0) as real && r.1 >= 2.0 * r.2 + 8.0
    ensures r.1 >= 96.0 && r.2 >= 46.0
  {
    var bw := 96.0 + u1 * 54.0;
    var bh := 46.0 + u2 * 14.0;
    if u3 < 0.5 then (Drum, bw, bh)
    else
      var hh := Round(bh + 6.0) as real;
      (PolyRound, Max(bw, Round((hh - 2.0) * 2.0 + 12.0) as real), hh)
  }

  /** How many draws the creation of each kind takes after the pick. */
  function DrawsFor(c: Choice): nat {
    match c
    case ChooseChimney => 2
    case ChooseAntenna => 3
    case ChooseHvac => 2
    case ChooseSkylight => 1
    case ChooseVentPipe => 3
    case ChooseAccessShed => 3
    case ChooseWaterTank => 3
    case ChooseBillboard => 3
    case ChooseGate => 4
    case ChooseWire => 4
  }

  /** A new obstacle of the picked kind (anything but a skylight) at
      `spawnX`, reading its draws from `rnd(1)` on. */
  function MakeObstacle(c: Choice, spawnX: real, gy: real, speed: real, duckH: real, rnd: Stream): (o: Obstacle)
    requires c != ChooseSkylight
    ensures o.x == spawnX && o.w > 0.0 && o.h > 0.0
    ensures !o.kind.WaterTowerGate? && !o.kind.Wire? ==> o.y + o.h == gy
    ensures !o.kind.LegacySkylight?
  {
    var u1, u2, u3, u4 := rnd(1), rnd(2), rnd(3), rnd(4);
    match c
    case ChooseChimney =>
      var bw, bh := 26.0 + u1 * 20.0, 44.0 + u2 * 34.0;
      Obstacle(Chimney, spawnX, gy - bh, bw, bh)
    case ChooseAntenna =>
      if u1 < 0.45 + 0.25 * AntennaSpeedRatio(speed) then
        var bw, bh := (56.0 + u2 * 32.0) * 1.5, (110.0 + u3 * 46.0) * 1.5;
        Obstacle(Pylon(gy, Max(duckH + 10.0, 34.0)), spawnX, gy - bh, bw, bh)
      else
        var bw, bh := 12.0 + u2 * 10.0, 64.0 + u3 * 52.0;
        Obstacle(Mast, spawnX, gy - bh, bw, bh)
    case ChooseHvac =>
      var bw, bh := 44.0 + u1 * 36.0, 22.0 + u2 * 12.0;
      Obstacle(Hvac, spawnX, gy - bh, bw, bh)
    case ChooseVentPipe =>
      var tier := PickWeighted(VentTiers, u1);
      Obstacle(VentPipe(VentRunFrac(tier, u3)), spawnX, gy - 44.0, VentLength(tier, u2), 44.0)
    case ChooseAccessShed =>
      var bw, bh := 36.0 + u1 * 24.0, 34.0 + u2 * 20.0;
      Obstacle(AccessShed(if u3 < 0.5 then -1 else 1), spawnX, gy - bh, bw, bh)
    case ChooseWaterTank =>
      var shape := WaterTankShape(u1, u2, u3);
      Obstacle(WaterTank(shape.0), spawnX, gy - shape.2, shape.1, shape.2)
    case ChooseBillboard =>
      var bw, bh := 110.0 + u1 * 70.0, 56.0 + u2 * 28.0;
      Obstacle(Billboard(PickWeighted(BillboardFaces, u3)), spawnX, gy - bh, bw, bh)
    case ChooseGate =>
      var clearance := 26 + Floor(u2 * 4.0);
      Obstacle(WaterTowerGate(clearance, 28.0 + u3 * 22.0, 56.0 + u4 * 20.0, gy),
               spawnX, gy - (clearance as real + 12.0), 84.0 + u1 * 36.0, 12.0)
    case ChooseWire =>
      Obstacle(Wire(10.0 + u3 * 20.0, 28.0 + u4 * 16.0, gy),
               spawnX, gy - (48.0 + u2 * 26.0), 140.0 + u1 * 140.0 + ExtraSpan(speed), 4.0)
  }

  /** A gate as the spawner builds it: the beam sits `clearance` above the
      ground with `clearance` in 26..29. */
  lemma GateAsSpawned(spawnX: real, gy: real, speed: real, duckH: real, rnd: Stream)
    ensures var o := MakeObstacle(ChooseGate, spawnX, gy, speed, duckH, rnd);
      && o.kind.WaterTowerGate?
      && 26 <= o.kind.beamClearance <= 29
      && o.kind.baseY == gy && o.h == 12.0
      && o.y + o.h == gy - o.kind.beamClearance as real
      && o.kind.stem >= 28.0 && o.kind.tankH >= 56.0
  {
    var u2 := rnd(2);
    assert 0.0 <= u2 * 4.0 < 4.0;
  }

  // ---------------------------------------------------------------------
  // spawnObstacle

  /** What one call of `spawnObstacle` does: defer by a delay (the function
      returns a number), or place (returns `undefined`) after pushing at most
      one obstacle or one gap. `draws` counts the `Math.random()` calls made. */
  datatype SpawnOutcome =
    | Deferred(delay: real, draws: nat)
    | Placed(obstacles: seq<Obstacle>, gaps: seq<Gap>, draws: nat)

  /** The runway a new gap needs after the previous one at this speed. */
  function NeedRunway(speed: real): real {
    160.0 + (speed - BaseSpeed) * 0.18
  }

  /** The skylight branch: defer until the runway after the previous gap
      is long enough, then append one gap `SkylightGapPad` right of `spawnX`. */
  function SpawnGap(spawnX: real, speed: real, obs: seq<Obstacle>, gaps: seq<Gap>, t: Unit): SpawnOutcome {
    var lastR := LastSkylightRight(obs, gaps);
    if lastR.Some? && spawnX - lastR.value < NeedRunway(speed) then
      Deferred(Max(RunwayMinDelay, (NeedRunway(speed) - (spawnX - lastR.value)) / Max(120.0, speed)), 1)
    else
      Placed(obs, gaps + [Gap(spawnX + SkylightGapPad, GapWidth(speed, t) as real, None)], 2)
  }

  /** `spawnObstacle(state, canvas)` with the screen width, the world's speed
      and ground line, the player's duck height and the obstacle and gap lists
      as inputs, and every draw read from `rnd`. */
  function SpawnObstacle(screenW: real, speed: real, gy: real, duckH: real,
                         obs: seq<Obstacle>, gaps: seq<Gap>, rnd: Stream): (r: SpawnOutcome)
    ensures r.Deferred? ==> r.delay >= RunwayMinDelay && r.draws <= 1
    ensures r.Placed? ==> r.draws >= 2
    ensures r.Placed? ==>
      || (r.obstacles == obs && |r.gaps| == |gaps| + 1 && r.gaps[..|gaps|] == gaps)
      || (r.gaps == gaps && |r.obstacles| == |obs| + 1 && r.obstacles[..|obs|] == obs)
  {
    var spawnX := screenW + SpawnLead;
    var sp := Max(120.0, speed);
    var guard1 := GuardDelay(obs, spawnX, sp, true);
    if guard1.Some? then Deferred(guard1.value, 0)
    else
      var choice := PickWeighted(SpawnTable, rnd(0));
      var guard2 := if choice == ChooseWire then GuardDelay(obs, spawnX, sp, false) else None;
      if guard2.Some? then Deferred(guard2.value, 1)
      else if choice == ChooseSkylight then SpawnGap(spawnX, speed, obs, gaps, rnd(1))
      else
        var o := MakeObstacle(choice, spawnX, gy, speed, duckH, rnd);
        assert (obs + [o])[..|obs|] == obs;
        Placed(obs + [o], gaps, 1 + DrawsFor(choice))
  }

  /** Guard 1: any call defers, without a draw, exactly when some wire still
      covers the spawn point; the delay is then at least 0.08 s. */
  lemma WireGuard(screenW: real, speed: real, gy: real, duckH: real, obs: seq<Obstacle>, gaps: seq<Gap>, rnd: Stream)
    ensures var r := SpawnObstacle(screenW, speed, gy, duckH, obs, gaps, rnd);
      (r.Deferred? && r.draws == 0) <==> exists i :: 0 <= i < |obs| && Blocks(obs[i], screenW + SpawnLead, true)
    ensures var r := SpawnObstacle(screenW, speed, gy, duckH, obs, gaps, rnd);
      r.Deferred? && r.draws == 0 ==> r.delay >= GuardMinDelay
  {
    GuardDelayIff(obs, screenW + SpawnLead, Max(120.0, speed), true);
  }

  /** Guard 2: when no wire blocks and the pick is a wire, the call defers
      exactly when some other obstacle covers the spawn point; gaps play no
      part. */
  lemma WireOverGroundGuard(screenW: real, speed: real, gy: real, duckH: real, obs: seq<Obstacle>, gaps: seq<Gap>, rnd: Stream)
    requires forall i :: 0 <= i < |obs| ==> !Blocks(obs[i], screenW + SpawnLead, true)
    requires PickWeighted(SpawnTable, rnd(0)) == ChooseWire
    ensures var r := SpawnObstacle(screenW, speed, gy, duckH, obs, gaps, rnd);
      r.Deferred? <==> exists i :: 0 <= i < |obs| && Blocks(obs[i], screenW + SpawnLead, false)
    ensures var r := SpawnObstacle(screenW, speed, gy, duckH, obs, gaps, rnd);
      r.Deferred? ==> r.delay >= GuardMinDelay && r.draws == 1
    ensures var r := SpawnObstacle(screenW, speed, gy, duckH, obs, gaps, rnd);
      r.Placed? ==> r.gaps == gaps && |r.obstacles| == |obs| + 1 && r.obstacles[|obs|].kind.Wire?
  {
    GuardDelayIff(obs, screenW + SpawnLead, Max(120.0, speed), true);
    GuardDelayIff(obs, screenW + SpawnLead, Max(120.0, speed), false);
  }

  /** The runway guard of the skylight branch: with a previous gap too
      close it defers by at least 0.06 s and changes nothing; otherwise it
      appends exactly one gap of width `round(pickGapWidth)` at
      `spawnX + 8`, and no obstacle. */
  lemma RunwayGuard(screenW: real, speed: real, gy: real, duckH: real, obs: seq<Obstacle>, gaps: seq<Gap>, rnd: Stream)
    requires forall i :: 0 <= i < |obs| ==> !Blocks(obs[i], screenW + SpawnLead, true)
    requires PickWeighted(SpawnTable, rnd(0)) == ChooseSkylight
    ensures var r := SpawnObstacle(screenW, speed, gy, duckH, obs, gaps, rnd);
      var lastR := LastSkylightRight(obs, gaps);
      r.Deferred? <==> lastR.Some? && screenW + SpawnLead - lastR.value < NeedRunway(speed)
    ensures var r := SpawnObstacle(screenW, speed, gy, duckH, obs, gaps, rnd);
      r.Placed? ==> (r.obstacles == obs
        && r.gaps == gaps + [Gap(screenW + SpawnLead + SkylightGapPad, GapWidth(speed, rnd(1)) as real, None)])
  {
    GuardDelayIff(obs, screenW + SpawnLead, Max(120.0, speed), true);
  }

  /** A placed obstacle other than the gate and the wire stands on the ground. */
  lemma PlacedObstacleGrounded(screenW: real, speed: real, gy: real, duckH: real, obs: seq<Obstacle>, gaps: seq<Gap>, rnd: Stream)
    ensures var r := SpawnObstacle(screenW, speed, gy, duckH, obs, gaps, rnd);
      r.Placed? && |r.obstacles| == |obs| + 1 ==>
        var o := r.obstacles[|obs|];
        o.x == screenW + SpawnLead && o.w > 0.0 && o.h > 0.0
        && (!o.kind.WaterTowerGate? && !o.kind.Wire? ==> o.y + o.h == gy)
  {}

  // ---------------------------------------------------------------------
  // The gap list stays ordered

  /** The shortest distance the spawner leaves between one gap's right edge
      and the next gap's left edge: both pads, the base runway and the pad
      in front of the new gap. */
  const MinGapSpacing: real := 2.0 * SkylightGapPad + 160.0 + SkylightGapPad

  /** Gaps are in ascending order, of positive width, and at least
      `MinGapSpacing` apart. */
  predicate GapsSpaced(gaps: seq<Gap>) {
    && (forall i :: 0 <= i < |gaps| ==> gaps[i].w > 0.0)
    && (forall i, j :: 0 <= i < j < |gaps| ==> GapRight(gaps[i]) + MinGapSpacing <= gaps[j].x)
  }

  /** A spawn at or above the base speed keeps the gap list ordered and spaced. */
  lemma SpawnKeepsGapsSpaced(screenW: real, speed: real, gy: real, duckH: real, obs: seq<Obstacle>, gaps: seq<Gap>, rnd: Stream)
    requires GapsSpaced(gaps) && speed >= BaseSpeed
    ensures var r := SpawnObstacle(screenW, speed, gy, duckH, obs, gaps, rnd);
      r.Placed? ==> GapsSpaced(r.gaps)
  {
    var r := SpawnObstacle(screenW, speed, gy, duckH, obs, gaps, rnd);
    if r.Placed? && r.gaps != gaps {
      var n := |gaps|;
      var g := r.gaps[n];
      assert r.gaps == gaps + [g];
      if n > 0 {
        var last := gaps[n - 1];
        assert GapRight(last) + MinGapSpacing <= g.x;
        forall i | 0 <= i < n
          ensures GapRight(gaps[i]) + MinGapSpacing <= g.x
        {
          if i < n - 1 {
            assert GapRight(gaps[i]) + MinGapSpacing <= last.x;
          }
        }
      }
    }
  }

  // ---------------------------------------------------------------------
  // Composite hitboxes

  /** The pylon's `colliders()`: a core spine from its top down to the
      clearance line, and a cross arm. */
  function PylonColliders(o: Obstacle): (r: seq<Rect>)
    requires o.kind.Pylon?
    ensures |r| == 2
    ensures r[0].x + r[0].w / 2.0 == o.x + o.w / 2.0 && r[1].x + r[1].w / 2.0 == o.x + o.w / 2.0
    ensures r[0].y == o.y && r[0].h >= 1.0 && r[1].h == 8.0
    ensures o.kind.baseY - o.kind.clearance >= o.y + 1.0 ==> r[0].y + r[0].h == o.kind.baseY - o.kind.clearance
  {
    var yClear := o.kind.baseY - o.kind.clearance;
    var cx := o.x + o.w / 2.0;
    var coreW := Max(12.0, o.w * 0.30);
    var spine := Rect(cx - coreW / 2.0, o.y, coreW, Max(1.0, yClear - o.y));
    var armY := o.y + Max(12.0, o.h * 0.26);
    var armW := Max(16.0, o.w * 0.40);
    [spine, Rect(cx - armW / 2.0, armY - 4.0, armW, 8.0)]
  }

  /** A pylon as the spawner builds it stands clear of the lane below
      `gy - clearance`: the spine ends exactly on that line and the arm above
      it, with a clearance of at least 34 and at least `duckH + 10`. */
  lemma PylonAsSpawned(spawnX: real, gy: real, speed: real, duckH: real, rnd: Stream)
    requires 0.0 <= duckH <= 100.0
    ensures var o := MakeObstacle(ChooseAntenna, spawnX, gy, speed, duckH, rnd);
      o.kind.Pylon? ==>
        && o.kind.baseY == gy
        && o.kind.clearance >= 34.0 && o.kind.clearance >= duckH + 10.0
        && PylonColliders(o)[0].y + PylonColliders(o)[0].h == gy - o.kind.clearance
        && PylonColliders(o)[1].y + PylonColliders(o)[1].h <= gy - o.kind.clearance
  {
    var o := MakeObstacle(ChooseAntenna, spawnX, gy, speed, duckH, rnd);
    if o.kind.Pylon? {
      var u3: real := rnd(3);
      var bh: real := (110.0 + u3 * 46.0) * 1.5;
      assert o.h == bh && bh >= 165.0;
      assert o.y == gy - bh;
      var q := o.h * 0.26;
      assert q <= 0.26 * o.h;
    }
  }

  /** The gate's `colliders()` (also `buildWTGColliders` in the game loop):
      a narrow duck bar between the legs, and the tower above it. */
  function GateColliders(o: Obstacle): (r: seq<Rect>)
    requires o.kind.WaterTowerGate?
    ensures |r| == 2
    ensures r[0].y == o.y && r[0].h == o.h && r[0].w >= 20.0
    ensures r[1].x == o.x && r[1].w == o.w && r[1].h >= 0.0
  {
    var inset := Max(10.0, o.w * 0.18);
    var legW := Max(4.0, Min(7.0, o.w * 0.08));
    var innerL := o.x + inset + legW + 2.0;
    var innerR := o.x + o.w - inset - legW - 2.0;
    var duckBar := Rect(innerL, o.y, Max(20.0, innerR - innerL), o.h);
    var legH := o.kind.beamClearance as real + o.h + o.kind.stem;
    var platformY := o.kind.baseY - legH;
    var tankTopY := platformY - 6.0 - o.kind.tankH;
    var towerTopY := tankTopY - 12.0;
    [duckBar, Rect(o.x, towerTopY, o.w, Max(0.0, o.y - towerTopY))]
  }

  /** For a gate as spawned, the bar's bottom is `clearance` above the
      ground and the tower, `stem + tankH + 18` tall, ends on the bar's top. */
  lemma GateTowerRestsOnBar(spawnX: real, gy: real, speed: real, duckH: real, rnd: Stream)
    ensures var o := MakeObstacle(ChooseGate, spawnX, gy, speed, duckH, rnd);
      var r := GateColliders(o);
      && r[0].y + r[0].h == gy - o.kind.beamClearance as real
      && r[1].h == o.kind.stem + o.kind.tankH + 18.0 > 0.0
      && r[1].y + r[1].h == r[0].y
  {
    GateAsSpawned(spawnX, gy, speed, duckH, rnd);
  }

  /** A point on the quadratic Bézier from (x1, y) through (cx, cy) to (x2, y). */
  function Bezier(t: real, x1: real, x2: real, y: real, cx: real, cy: real): (real, real) {
    var mt := 1.0 - t;
    (mt * mt * x1 + 2.0 * mt * t * cx + t * t * x2, mt * mt * y + 2.0 * mt * t * cy + t * t * y)
  }

  function Abs(a: real): real { if a >= 0.0 then a else -a }

  /** The box `colliders()` puts around one cable segment, half a line
      thickness (4 px) above and below. */
  function SegmentBox(a: (real, real), b: (real, real)): (r: Rect)
    ensures r.w >= 1.0 && r.h >= 1.0
  {
    Rect(Min(a.0, b.0), Min(a.1, b.1) - 4.0, Max(1.0, Abs(b.0 - a.0)), Max(1.0, Abs(b.1 - a.1) + 8.0))
  }

  /** Each segment's box holds both of the segment's end points. */
  lemma SegmentBoxHoldsEnds(a: (real, real), b: (real, real))
    ensures Contains(SegmentBox(a, b), a.0, a.1) && Contains(SegmentBox(a, b), b.0, b.1)
  {}

  /** The sag and pole height a wire's hitbox uses: `sag || 14`, `poleH || 30`. */
  function OrDefault(v: real, d: real): real { if v == 0.0 then d else v }

  /** Sample `i` of the 9 the cable boxes are cut at (`t = i / 8`). */
  function CableSample(o: Obstacle, i: nat): (real, real)
    requires o.kind.Wire?
  {
    var x2 := o.x + o.w;
    Bezier(i as real / 8.0, o.x, x2, o.y, (o.x + x2) / 2.0, o.y + OrDefault(o.kind.sag, 14.0))
  }

  /** The wire's `colliders()`: two 6-px poles ending at the anchor line,
      then 8 boxes along the sagging cable. */
  function WireColliders(o: Obstacle): (r: seq<Rect>)
    requires o.kind.Wire?
    ensures |r| == 10
    ensures r[0].w == 6.0 && r[1].w == 6.0
    ensures r[0].x + 3.0 == o.x && r[1].x + 3.0 == o.x + o.w
    ensures r[0].y + r[0].h == o.y && r[1].y + r[1].h == o.y
    ensures r[0].h == OrDefault(o.kind.poleH, 30.0) && r[1].h == r[0].h
    ensures forall k :: 2 <= k < 10 ==> r[k].w >= 1.0 && r[k].h >= 1.0
    ensures forall k :: 2 <= k < 10 ==> r[k] == SegmentBox(CableSample(o, k - 2), CableSample(o, k - 1))
  {
    var poleH := OrDefault(o.kind.poleH, 30.0);
    var x2 := o.x + o.w;
    [Rect(o.x - 3.0, o.y - poleH, 6.0, poleH), Rect(x2 - 3.0, o.y - poleH, 6.0, poleH)]
      + seq(8, i requires 0 <= i < 8 => SegmentBox(CableSample(o, i), CableSample(o, i + 1)))
  }

  /** A wire as the spawner builds it: the cable is strung 48 to 74 px above
      the ground line (which `baseY` keeps for the resize lift), the poles
      rise 28 to 44 px from the cable's height, and all ten of its
      rectangles are at least 1 px by 1 px. */
  lemma WireAsSpawned(spawnX: real, gy: real, speed: real, duckH: real, rnd: Stream)
    ensures var o := MakeObstacle(ChooseWire, spawnX, gy, speed, duckH, rnd);
      && o.kind.Wire? && o.kind.baseY == gy
      && gy - 74.0 < o.y <= gy - 48.0
      && 28.0 <= o.kind.poleH < 44.0
      && WireColliders(o)[0].y + WireColliders(o)[0].h == o.y
      && WireColliders(o)[1].y + WireColliders(o)[1].h == o.y
      && forall k :: 0 <= k < 10 ==> WireColliders(o)[k].w >= 1.0 && WireColliders(o)[k].h >= 1.0
  {
    assert 0.0 <= rnd(2) * 26.0 < 26.0;
    assert 0.0 <= rnd(4) * 16.0 < 16.0;
  }

  /** Every cable sample `B(i/8)` and `B((i+1)/8)` lies in cable box `i`. */
  lemma CableBoxesHoldSamples(o: Obstacle, i: nat)
    requires o.kind.Wire? && i < 8
    ensures Contains(WireColliders(o)[i + 2], CableSample(o, i).0, CableSample(o, i).1)
    ensures Contains(WireColliders(o)[i + 2], CableSample(o, i + 1).0, CableSample(o, i + 1).1)
  {
    SegmentBoxHoldsEnds(CableSample(o, i), CableSample(o, i + 1));
  }

  /** The cable starts and ends at the two pole tops. */
  lemma CableEndsAtPoles(o: Obstacle)
    requires o.kind.Wire?
    ensures CableSample(o, 0) == (o.x, o.y)
    ensures CableSample(o, 8) == (o.x + o.w, o.y)
  {}

  /** The rectangles collisions are tested against: the composite hitboxes,
      or the bounding box for every other kind. */
  function Colliders(o: Obstacle): (r: seq<Rect>)
    ensures |r| >= 1
    ensures !o.kind.Pylon? && !o.kind.WaterTowerGate? && !o.kind.Wire? ==> r == [Rect(o.x, o.y, o.w, o.h)]
  {
    match o.kind
    case Pylon(_, _) => PylonColliders(o)
    case WaterTowerGate(_, _, _, _) => GateColliders(o)
    case Wire(_, _, _) => WireColliders(o)
    case _ => [Rect(o.x, o.y, o.w, o.h)]
  }

  // ---------------------------------------------------------------------
  // Moving the world

  /** Scroll an obstacle horizontally by `dx`. */
  function MovedBy(o: Obstacle, dx: real): (r: Obstacle)
    ensures r.kind == o.kind && r.y == o.y && r.w == o.w && r.h == o.h && r.x == o.x + dx
  {
    o.(x := o.x + dx)
  }

  /** Shift an obstacle vertically by `dy`, with its `baseY` if it has one
      (what a ground-line change does). */
  function LiftedBy(o: Obstacle, dy: real): (r: Obstacle)
    ensures r.x == o.x && r.w == o.w && r.h == o.h && r.y == o.y + dy
    ensures r.kind.Pylon? == o.kind.Pylon? && r.kind.WaterTowerGate? == o.kind.WaterTowerGate? && r.kind.Wire? == o.kind.Wire?
    ensures o.kind.Pylon? ==> r.kind == Pylon(o.kind.baseY + dy, o.kind.clearance)
    ensures o.kind.WaterTowerGate? ==>
      r.kind == WaterTowerGate(o.kind.beamClearance, o.kind.stem, o.kind.tankH, o.kind.baseY + dy)
    ensures o.kind.Wire? ==> r.kind == Wire(o.kind.sag, o.kind.poleH, o.kind.baseY + dy)
    ensures !o.kind.Pylon? && !o.kind.WaterTowerGate? && !o.kind.Wire? ==> r.kind == o.kind
  {
    var k := match o.kind
      case Pylon(b, c) => Pylon(b + dy, c)
      case WaterTowerGate(c, s, t, b) => WaterTowerGate(c, s, t, b + dy)
      case Wire(s, p, b) => Wire(s, p, b + dy)
      case other => other;
    o.(kind := k, y := o.y + dy)
  }

  /** Shifting the three Bézier points by the same vector shifts every
      point of the curve by it. */
  lemma BezierShift(t: real, x1: real, x2: real, y: real, cx: real, cy: real, dx: real, dy: real)
    ensures Bezier(t, x1 + dx, x2 + dx, y + dy, cx + dx, cy + dy).0 == Bezier(t, x1, x2, y, cx, cy).0 + dx
    ensures Bezier(t, x1 + dx, x2 + dx, y + dy, cx + dx, cy + dy).1 == Bezier(t, x1, x2, y, cx, cy).1 + dy
  {
    var mt := 1.0 - t;
    var a, b, c := mt * mt, 2.0 * mt * t, t * t;
    assert a + b + c == 1.0 by {
      assert a + b + c == (mt + t) * (mt + t);
    }
    assert a * (x1 + dx) + b * (cx + dx) + c * (x2 + dx) == a * x1 + b * cx + c * x2 + (a + b + c) * dx;
    assert a * (y + dy) + b * (cy + dy) + c * (y + dy) == a * y + b * cy + c * y + (a + b + c) * dy;
  }

  /** Lifting a wire moves every cable sample down by `dy`. */
  lemma LiftedCableSample(o: Obstacle, dy: real, i: nat)
    requires o.kind.Wire?
    ensures CableSample(LiftedBy(o, dy), i) == (CableSample(o, i).0, CableSample(o, i).1 + dy)
  {
    var x2 := o.x + o.w;
    BezierShift(i as real / 8.0, o.x, x2, o.y, (o.x + x2) / 2.0, o.y + OrDefault(o.kind.sag, 14.0), 0.0, dy);
  }

  /** Lifting moves every hitbox rectangle by the same `dy`. */
  lemma LiftedColliders(o: Obstacle, dy: real)
    ensures |Colliders(LiftedBy(o, dy))| == |Colliders(o)|
    ensures forall k :: 0 <= k < |Colliders(o)| ==>
      Colliders(LiftedBy(o, dy))[k] == Colliders(o)[k].(y := Colliders(o)[k].y + dy)
  {
    var o' := LiftedBy(o, dy);
    if o.kind.Wire? {
      forall k | 2 <= k < 10
        ensures WireColliders(o')[k] == WireColliders(o)[k].(y := WireColliders(o)[k].y + dy)
      {
        LiftedCableSample(o, dy, k - 2);
        LiftedCableSample(o, dy, k - 1);
      }
    }
  }

  /** Scrolling moves every hitbox rectangle by the same `dx`. */
  lemma MovedColliders(o: Obstacle, dx: real)
    ensures |Colliders(MovedBy(o, dx))| == |Colliders(o)|
    ensures forall k :: 0 <= k < |Colliders(o)| ==>
      Colliders(MovedBy(o, dx))[k] == Colliders(o)[k].(x := Colliders(o)[k].x + dx)
  {
    var o' := MovedBy(o, dx);
    if o.kind.Wire? {
      forall k | 2 <= k < 10
        ensures WireColliders(o')[k] == WireColliders(o)[k].(x := WireColliders(o)[k].x + dx)
      {
        MovedCableSample(o, dx, k - 2);
        MovedCableSample(o, dx, k - 1);
      }
    }
  }

  /** Scrolling a wire moves every cable sample right by `dx`. */
  lemma MovedCableSample(o: Obstacle, dx: real, i: nat)
    requires o.kind.Wire?
    ensures CableSample(MovedBy(o, dx), i) == (CableSample(o, i).0 + dx, CableSample(o, i).1)
  {
    var x2 := o.x + o.w;
    BezierShift(i as real / 8.0, o.x, x2, o.y, (o.x + x2) / 2.0, o.y + OrDefault(o.kind.sag, 14.0), dx, 0.0);
  }
}
