/** The simulation half of `RooftopCat.jsx`: the run state, `centerOverGap`
    and the per-frame `update` (timers, jumps, gravity, the deck, spawns,
    scrolling, collisions and scoring). Painting and decorative motion are
    not part of it. */
module GameStep {
  import opened Num
  import opened Utils
  import opened Obstacles
  import Deck

  const SpeedRamp: real := 36.0
  const Gravity: real := 2400.0
  const JumpVel: real := -900.0
  const DeckH: real := 18.0
  const DeckLip: real := 4.0

  /** The variable-jump parameters. */
  const Coyote: real := 0.12
  const JumpBuffer: real := 0.12
  const MaxHold: real := 0.22
  const HoldGravity: real := 0.55
  const CutGravity: real := 1.9

  /** The cat: it never moves horizontally, and ducking lowers its height. */
  const PlayerX: real := 120.0
  const PlayerW: real := 46.0
  const PlayerH: real := 36.0
  const DuckH: real := 24.0

  /** The longest frame `step` hands to `update`, in seconds. */
  const MaxDt: real := 0.032
  /** Obstacles and gaps whose right edge is left of this are dropped. */
  const CullX: real := -80.0
  /** How far below the visible world the cat may drop before the run ends. */
  const FallMargin: real := 20.0
  /** The forgiveness pad `update` passes to `centerOverGap`. */
  const GapPad: real := 4.0
  /** The width of the wall hitbox on either side of a gap. */
  const RailW: real := 6.0

  // ---------------------------------------------------------------------
  // State

  datatype Mode = Ready | Playing | Paused | Dead

  /** The `input` record. */
  datatype Input = Input(duck: bool, jumpBufferT: real, coyoteT: real, jumpHeld: bool, jumpHoldT: real)

  /** The moving part of `player`; `x`, `w`, `h` and `duckH` are the constants above. */
  datatype Player = Player(y: real, vy: real, onGround: bool)

  /** The camera shake `shakeAmp`, `shakeT`, `shakeDur`. */
  datatype Shake = Shake(amp: real, t: real, dur: real)

  /** The simulated fields of `state`; the deck's scroll offset, id counter
      and theme fields live in `deck`. */
  datatype World = World(
    t: real, speed: real, groundY: real,
    obstacles: seq<Obstacle>, gaps: seq<Gap>, deck: Deck.DeckMeta,
    score: real, spawnTimer: real, shake: Shake, hitFxT: real,
    hintAlpha: real, firstJumpDone: bool)

  /** The pointer ids holding the duck (left half) and the jump (right half). */
  datatype Touch = Touch(duckId: Option<int>, jumpId: Option<int>)

  /** Everything one run of the component keeps: the game state of the
      React component, the world, the cat, its input and the best score,
      plus the day-cycle and weather mode names the keys cycle through. */
  datatype Game = Game(mode: Mode, world: World, player: Player, input: Input, touch: Touch,
                       best: int, cycle: string, weather: string)

  function TargetH(duck: bool): real { if duck then DuckH else PlayerH }

  // ---------------------------------------------------------------------
  // centerOverGap

  /** The point `cx` lies strictly inside the gap shrunk by `pad` on both sides. */
  predicate CentreInside(cx: real, g: Gap, pad: real) {
    g.x + pad < cx < g.x + g.w - pad
  }

  /** `centerOverGap(x, w, gaps, pad)`: the first gap whose padded inside
      holds the centre `x + w/2` decides; none (or no gaps) gives false. */
  function CenterOverGap(x: real, w: real, gaps: seq<Gap>, pad: real): (r: bool)
    ensures r <==> exists i :: 0 <= i < |gaps| && CentreInside(x + w * 0.5, gaps[i], pad)
    ensures |gaps| == 0 ==> !r
  {
    if |gaps| == 0 then false
    else if CentreInside(x + w * 0.5, gaps[0], pad) then true
    else
      var rest := CenterOverGap(x, w, gaps[1..], pad);
      assert forall i :: 1 <= i < |gaps| ==> gaps[1..][i - 1] == gaps[i];
      rest
  }

  /** Scroll every gap horizontally by `dx`. */
  function MoveGaps(gaps: seq<Gap>, dx: real): (r: seq<Gap>)
    ensures |r| == |gaps|
    ensures forall i :: 0 <= i < |gaps| ==> r[i] == gaps[i].(x := gaps[i].x + dx)
  {
    seq(|gaps|, i requires 0 <= i < |gaps| => gaps[i].(x := gaps[i].x + dx))
  }

  /** Whether a point is over a gap depends only on where it is relative
      to the gaps: moving both by the same `dx` changes nothing. */
  lemma OverGapMovesWithWorld(x: real, w: real, gaps: seq<Gap>, pad: real, dx: real)
    ensures CenterOverGap(x + dx, w, MoveGaps(gaps, dx), pad) == CenterOverGap(x, w, gaps, pad)
  {
    var moved := MoveGaps(gaps, dx);
    forall i | 0 <= i < |gaps|
      ensures CentreInside(x + dx + w * 0.5, moved[i], pad) == CentreInside(x + w * 0.5, gaps[i], pad)
    {}
  }

  // ---------------------------------------------------------------------
  // Speed ramp

  /** `rm`: the ramp runs at half rate under reduced motion. */
  function MotionFactor(reduceMotion: bool): real { if reduceMotion then 0.5 else 1.0 }

  /** `speed = min(speedMax, speed + speedRamp * rm * dt)`. */
  function RampSpeed(speed: real, reduceMotion: bool, dt: real): (r: real)
    ensures r <= SpeedMax
    ensures r == SpeedMax || r == speed + SpeedRamp * MotionFactor(reduceMotion) * dt
    ensures dt >= 0.0 && speed <= SpeedMax ==> speed <= r
  {
    var rise := if reduceMotion then 18.0 * dt else 36.0 * dt;
    assert rise == SpeedRamp * MotionFactor(reduceMotion) * dt;
    Min(SpeedMax, speed + rise)
  }

  // ---------------------------------------------------------------------
  // Timers, jumps and gravity

  /** `max(0, t - dt)`. */
  function Decay(t: real, dt: real): (r: real)
    ensures r >= 0.0
    ensures r > 0.0 <==> t > dt
    ensures dt >= 0.0 && t >= 0.0 ==> r <= t
  {
    Max(0.0, t - dt)
  }

  /** The cat and its input together, between the phases of a frame. */
  datatype Body = Body(player: Player, input: Input)

  /** The jump condition, read after both timers have decayed: a press is
      still buffered, and the cat is on the ground or within coyote time. */
  predicate JumpFires(p: Player, inp: Input, dt: real) {
    Decay(inp.jumpBufferT, dt) > 0.0 && (p.onGround || Decay(inp.coyoteT, dt) > 0.0)
  }

  /** Decay the buffer and coyote timers, then start a jump if one fires. */
  function Launch(p: Player, inp: Input, dt: real): (r: Body)
    ensures r.input.jumpBufferT >= 0.0 && r.input.coyoteT >= 0.0
    ensures r.input.coyoteT == Decay(inp.coyoteT, dt)
    ensures r.input.duck == inp.duck && r.input.jumpHeld == inp.jumpHeld
    ensures JumpFires(p, inp, dt) ==>
      (r.player == Player(p.y, JumpVel, false) && r.input.jumpBufferT == 0.0 && r.input.jumpHoldT == 0.0)
    ensures !JumpFires(p, inp, dt) ==>
      (r.player == p && r.input.jumpBufferT == Decay(inp.jumpBufferT, dt) && r.input.jumpHoldT == inp.jumpHoldT)
  {
    var timed := inp.(jumpBufferT := Decay(inp.jumpBufferT, dt), coyoteT := Decay(inp.coyoteT, dt));
    if timed.jumpBufferT > 0.0 && (p.onGround || timed.coyoteT > 0.0) then
      Body(p.(vy := JumpVel, onGround := false), timed.(jumpBufferT := 0.0, jumpHoldT := 0.0))
    else
      Body(p, timed)
  }

  /** No double jump: in the air, with the coyote window spent, a
      buffered press does nothing to the cat. */
  lemma NoJumpInMidAir(p: Player, inp: Input, dt: real)
    requires !p.onGround && inp.coyoteT <= dt
    ensures !JumpFires(p, inp, dt)
    ensures Launch(p, inp, dt).player == p
  {}

  /** The gravity multiplier while rising: lighter while the jump is held
      within the hold window, heavier once it is released. */
  function GravityFactor(vy: real, inp: Input): real {
    if vy < 0.0 && inp.jumpHeld && inp.jumpHoldT < MaxHold then HoldGravity
    else if vy < 0.0 && !inp.jumpHeld then CutGravity
    else 1.0
  }

  /** Apply one frame of (scaled) gravity; the hold timer advances only
      while the lighter gravity applies. */
  function Fall(b: Body, dt: real): (r: Body)
    ensures r.player.y == b.player.y && r.player.onGround == b.player.onGround
    ensures r.input == b.input.(jumpHoldT := r.input.jumpHoldT)
    ensures b.player.vy >= 0.0 ==> r.player.vy == b.player.vy + Gravity * dt && r.input == b.input
    ensures (b.player.vy < 0.0 && b.input.jumpHeld && b.input.jumpHoldT < MaxHold) ==>
      (r.player.vy == b.player.vy + Gravity * HoldGravity * dt && r.input.jumpHoldT == b.input.jumpHoldT + dt)
    ensures (b.player.vy < 0.0 && !b.input.jumpHeld) ==>
      (r.player.vy == b.player.vy + Gravity * CutGravity * dt && r.input == b.input)
    ensures (b.player.vy < 0.0 && b.input.jumpHeld && b.input.jumpHoldT >= MaxHold) ==>
      (r.player.vy == b.player.vy + Gravity * dt && r.input == b.input)
  {
    var p := b.player;
    var inp := b.input;
    var held := p.vy < 0.0 && inp.jumpHeld && inp.jumpHoldT < MaxHold;
    var g := Gravity * GravityFactor(p.vy, inp);
    Body(p.(vy := p.vy + g * dt), if held then inp.(jumpHoldT := inp.jumpHoldT + dt) else inp)
  }

  /** Holding the jump keeps the cat rising faster than not holding it, and
      releasing it brings the cat down sooner than both. */
  lemma HoldingFloats(p: Player, inp: Input, dt: real)
    requires p.vy < 0.0 && inp.jumpHoldT < MaxHold && dt >= 0.0
    ensures Fall(Body(p, inp.(jumpHeld := true)), dt).player.vy
         <= Fall(Body(p, inp.(jumpHeld := true, jumpHoldT := MaxHold)), dt).player.vy
         <= Fall(Body(p, inp.(jumpHeld := false)), dt).player.vy
  {
    assert Gravity * HoldGravity * dt <= Gravity * dt <= Gravity * CutGravity * dt;
  }

  // ---------------------------------------------------------------------
  // The deck

  /** The result of the ground phase. `puff` is the landing-puff intensity
      when the cat touches down this frame. */
  datatype Landing = Landing(player: Player, input: Input, puff: Option<real>)

  /** The landing puff's intensity `min(10 + |vy| * 0.01, 18)`. */
  function PuffIntensity(vy: real): (r: real)
    ensures 10.0 <= r <= 18.0
  {
    Min(10.0 + (if vy >= 0.0 then vy else -vy) * 0.01, 18.0)
  }

  /** Is the cat's centre over a gap (with the update's pad of 4)? */
  predicate OverGap(gaps: seq<Gap>) {
    CenterOverGap(PlayerX, PlayerW, gaps, GapPad)
  }

  /** Move by `vy * dt`; on solid deck with the feet at or below the ground
      line, snap onto it, stop, refresh the coyote window and clear the hold. */
  function Ground(b: Body, gaps: seq<Gap>, groundY: real, dt: real): (r: Landing)
    ensures var feet := b.player.y + b.player.vy * dt + TargetH(b.input.duck);
      r.player.onGround <==> !OverGap(gaps) && feet >= groundY
    ensures r.player.onGround ==>
      (r.player.y + TargetH(b.input.duck) == groundY && r.player.vy == 0.0
       && r.input == b.input.(coyoteT := Coyote, jumpHoldT := 0.0))
    ensures !r.player.onGround ==>
      (r.player.y == b.player.y + b.player.vy * dt && r.player.vy == b.player.vy && r.input == b.input)
    ensures r.puff.Some? <==> r.player.onGround && !b.player.onGround
    ensures r.puff.Some? ==> r.puff.value == PuffIntensity(b.player.vy)
  {
    var h := TargetH(b.input.duck);
    var y := b.player.y + b.player.vy * dt;
    if !OverGap(gaps) && y + h >= groundY then
      var puff := if b.player.onGround then None else Some(PuffIntensity(b.player.vy));
      Landing(Player(groundY - h, 0.0, true), b.input.(coyoteT := Coyote, jumpHoldT := 0.0), puff)
    else
      Landing(b.player.(y := y, onGround := false), b.input, None)
  }

  /** The cat's part of a frame: timers and jump, gravity, then the deck. */
  function Physics(p: Player, inp: Input, gaps: seq<Gap>, groundY: real, dt: real): Landing {
    Ground(Fall(Launch(p, inp, dt), dt), gaps, groundY, dt)
  }

  /** Solid deck holds the cat: away from gaps, the feet never end a frame
      below the ground line. */
  lemma SolidDeckHoldsPlayer(p: Player, inp: Input, gaps: seq<Gap>, groundY: real, dt: real)
    requires !OverGap(gaps)
    ensures var r := Physics(p, inp, gaps, groundY, dt);
      r.player.y + TargetH(r.input.duck) <= groundY
  {}

  /** Over a gap nothing holds the cat up. */
  lemma GapLetsPlayerFall(p: Player, inp: Input, gaps: seq<Gap>, groundY: real, dt: real)
    requires OverGap(gaps)
    ensures !Physics(p, inp, gaps, groundY, dt).player.onGround
  {}

  /** An empty frame changes nothing for a cat standing on solid deck
      with no buffered jump. */
  lemma StandingStill(p: Player, inp: Input, gaps: seq<Gap>, groundY: real)
    requires p.onGround && p.vy == 0.0 && p.y + TargetH(inp.duck) == groundY
    requires inp.jumpBufferT <= 0.0 && !OverGap(gaps)
    ensures var r := Physics(p, inp, gaps, groundY, 0.0);
      r.player == p && r.puff.None?
  {
    var l := Launch(p, inp, 0.0);
    assert l.player == p;
    var f := Fall(l, 0.0);
    assert f.player == p;
  }

  /** Off the bottom of the visible world: the run is over. */
  predicate FellOut(p: Player, worldBottom: real) {
    p.y > worldBottom + FallMargin
  }

  // ---------------------------------------------------------------------
  // Spawning

  /** The spawn timer and the lists after the spawn phase. */
  datatype Spawned = Spawned(obstacles: seq<Obstacle>, gaps: seq<Gap>, timer: real)

  /** The delay used when the spawner placed something:
      `1.08 * (0.55 + speedFactor * 0.8) * (0.8 + random() * 0.6)`. */
  function FallbackDelay(speed: real, u: Unit): (d: real)
    ensures BaseSpeed <= speed <= SpeedMax ==> 0.4752 <= d < 2.0412
  {
    var sf := 1.0 - (speed - BaseSpeed) / (SpeedMax - BaseSpeed + 0.000001);
    var a := 0.55 + sf * 0.8;
    var b := 0.8 + u * 0.6;
    if BaseSpeed <= speed <= SpeedMax then
      FactorBounds(speed, sf);
      ProductBounds(a, b);
      1.08 * (a * b)
    else
      1.08 * (a * b)
  }

  lemma FactorBounds(speed: real, sf: real)
    requires BaseSpeed <= speed <= SpeedMax
    requires sf == 1.0 - (speed - BaseSpeed) / (SpeedMax - BaseSpeed + 0.000001)
    ensures 0.0 <= sf <= 1.0
  {
    var q := (speed - BaseSpeed) / (SpeedMax - BaseSpeed + 0.000001);
    assert q * (SpeedMax - BaseSpeed + 0.000001) == speed - BaseSpeed;
  }

  lemma ProductBounds(a: real, b: real)
    requires 0.55 <= a <= 1.35 && 0.8 <= b < 1.4
    ensures 0.44 <= a * b < 1.89
  {
    assert 0.55 * b <= a * b <= 1.35 * b;
  }

  /** The spawn phase: count the timer down, and when it runs out ask the
      spawner, which either names the next delay or places something (and
      the fallback delay is drawn). */
  function SpawnStep(timer: real, dt: real, screenW: real, speed: real, gy: real,
                     obs: seq<Obstacle>, gaps: seq<Gap>, rnd: Stream, u: Unit): (r: Spawned)
    ensures timer - dt > 0.0 ==> r == Spawned(obs, gaps, timer - dt)
    ensures timer - dt <= 0.0 && BaseSpeed <= speed <= SpeedMax ==> r.timer > 0.0
    ensures |obs| <= |r.obstacles| <= |obs| + 1 && r.obstacles[..|obs|] == obs
    ensures |gaps| <= |r.gaps| <= |gaps| + 1 && r.gaps[..|gaps|] == gaps
    ensures timer - dt <= 0.0 ==>
      (match SpawnObstacle(screenW, speed, gy, DuckH, obs, gaps, rnd)
       case Deferred(d, _) => r == Spawned(obs, gaps, d)
       case Placed(o, g, _) => r == Spawned(o, g, FallbackDelay(speed, u)))
  {
    var left := timer - dt;
    if left > 0.0 then Spawned(obs, gaps, left)
    else
      match SpawnObstacle(screenW, speed, gy, DuckH, obs, gaps, rnd)
      case Deferred(d, _) => Spawned(obs, gaps, d)
      case Placed(o, g, _) => Spawned(o, g, FallbackDelay(speed, u))
  }

  // ---------------------------------------------------------------------
  // Scrolling and culling

  /** Scroll every obstacle horizontally by `dx`. */
  function MoveObstacles(obs: seq<Obstacle>, dx: real): (r: seq<Obstacle>)
    ensures |r| == |obs|
    ensures forall i :: 0 <= i < |obs| ==> r[i] == MovedBy(obs[i], dx)
  {
    seq(|obs|, i requires 0 <= i < |obs| => MovedBy(obs[i], dx))
  }

  /** How many items the `while (list[0].x + list[0].w < -80) shift()`
      loop removes: exactly the longest prefix whose every item ends left
      of the cull line. */
  function CullCount<T>(xs: seq<T>, right: T -> real): (n: nat)
    ensures n <= |xs|
    ensures forall i :: 0 <= i < n ==> right(xs[i]) < CullX
    ensures n < |xs| ==> right(xs[n]) >= CullX
  {
    if |xs| > 0 && right(xs[0]) < CullX then
      var m := CullCount(xs[1..], right);
      assert forall i :: 1 <= i < m + 1 ==> xs[i] == xs[1..][i - 1];
      1 + m
    else 0
  }

  function CullObstacles(obs: seq<Obstacle>): seq<Obstacle> {
    obs[CullCount(obs, Right)..]
  }

  function CullGaps(gaps: seq<Gap>): seq<Gap> {
    gaps[CullCount(gaps, GapRight)..]
  }

  /** Moving every gap by the same amount keeps them ordered and spaced. */
  lemma MoveKeepsGapsSpaced(gaps: seq<Gap>, dx: real)
    requires GapsSpaced(gaps)
    ensures GapsSpaced(MoveGaps(gaps, dx))
  {
    var moved := MoveGaps(gaps, dx);
    forall i, j | 0 <= i < j < |moved|
      ensures GapRight(moved[i]) + MinGapSpacing <= moved[j].x
    {
      assert GapRight(gaps[i]) + MinGapSpacing <= gaps[j].x;
    }
  }

  /** Dropping a prefix keeps the rest ordered and spaced. */
  lemma SuffixKeepsGapsSpaced(gaps: seq<Gap>, n: nat)
    requires GapsSpaced(gaps) && n <= |gaps|
    ensures GapsSpaced(gaps[n..])
  {
    var kept := gaps[n..];
    forall i, j | 0 <= i < j < |kept|
      ensures GapRight(kept[i]) + MinGapSpacing <= kept[j].x
    {
      assert kept[i] == gaps[n + i] && kept[j] == gaps[n + j];
    }
  }

  /** Scrolling then culling keeps the gaps ordered and spaced: all move by
      the same amount, and what is dropped is a prefix. */
  lemma ScrollKeepsGapsSpaced(gaps: seq<Gap>, dx: real)
    requires GapsSpaced(gaps)
    ensures GapsSpaced(CullGaps(MoveGaps(gaps, dx)))
  {
    MoveKeepsGapsSpaced(gaps, dx);
    var moved := MoveGaps(gaps, dx);
    SuffixKeepsGapsSpaced(moved, CullCount(moved, GapRight));
  }

  /** After the cull the survivors are an unchanged suffix, and the new
      head (if any) still reaches the cull line. */
  lemma CullIsSuffix(obs: seq<Obstacle>)
    ensures var kept := CullObstacles(obs);
      |kept| <= |obs| && kept == obs[|obs| - |kept|..]
      && (forall i :: 0 <= i < |obs| - |kept| ==> Right(obs[i]) < CullX)
      && (|kept| > 0 ==> Right(kept[0]) >= CullX)
  {}

  // ---------------------------------------------------------------------
  // Collisions

  /** The cat's hitbox, inset by 2 px on every side. */
  function Hitbox(y: real, duck: bool): Rect {
    Rect(PlayerX + 2.0, y + 2.0, PlayerW - 4.0, TargetH(duck) - 4.0)
  }

  /** The hitbox overlaps one of `rects`. */
  predicate HitsAny(hb: Rect, rects: seq<Rect>) {
    exists k :: 0 <= k < |rects| && Overlap(hb, rects[k])
  }

  /** The inner `for (const r of rects)` loop that breaks at the first overlap. */
  function AnyOverlap(hb: Rect, rects: seq<Rect>): (r: bool)
    ensures r <==> HitsAny(hb, rects)
  {
    if |rects| == 0 then false
    else if Overlap(hb, rects[0]) then true
    else
      assert forall k :: 1 <= k < |rects| ==> rects[1..][k - 1] == rects[k];
      AnyOverlap(hb, rects[1..])
  }

  /** The obstacle loop: the hitbox meets a collider of some obstacle. */
  function ObstacleHit(hb: Rect, obs: seq<Obstacle>): (r: bool)
    ensures r <==> exists i :: 0 <= i < |obs| && HitsAny(hb, Colliders(obs[i]))
  {
    if |obs| == 0 then false
    else if AnyOverlap(hb, Colliders(obs[0])) then true
    else
      assert forall i :: 1 <= i < |obs| ==> obs[1..][i - 1] == obs[i];
      ObstacleHit(hb, obs[1..])
  }

  /** The top of the under-deck wall. */
  function UnderDeckTop(groundY: real): real { groundY + DeckH + DeckLip }

  /** The two wall hitboxes of a gap: 6 px just outside each edge, from
      the under-deck top down to the bottom of the world (or empty). */
  function RailRects(g: Gap, groundY: real, worldBottom: real): (r: seq<Rect>)
    ensures |r| == 2
    ensures r[0].x + r[0].w == g.x && r[1].x == g.x + g.w
    ensures forall k :: 0 <= k < 2 ==>
      (r[k].w == RailW && r[k].y == UnderDeckTop(groundY) && r[k].h >= 0.0
       && r[k].y + r[k].h == Max(UnderDeckTop(groundY), worldBottom))
  {
    var top := UnderDeckTop(groundY);
    var h := Max(0.0, worldBottom - top);
    [Rect(g.x - RailW, top, RailW, h), Rect(g.x + g.w, top, RailW, h)]
  }

  /** The rail loop: the hitbox meets a wall hitbox of some gap. */
  function RailHit(hb: Rect, gaps: seq<Gap>, groundY: real, worldBottom: real): (r: bool)
    ensures r <==> exists i :: 0 <= i < |gaps| && HitsAny(hb, RailRects(gaps[i], groundY, worldBottom))
  {
    if |gaps| == 0 then false
    else if AnyOverlap(hb, RailRects(gaps[0], groundY, worldBottom)) then true
    else
      assert forall i :: 1 <= i < |gaps| ==> gaps[1..][i - 1] == gaps[i];
      RailHit(hb, gaps[1..], groundY, worldBottom)
  }

  /** The walls only catch a cat that has sunk into a gap: a hitbox whose
      feet are no lower than 2 px under the deck's lip meets no rail. */
  lemma RailsSpareTheDeck(y: real, duck: bool, gaps: seq<Gap>, groundY: real, worldBottom: real)
    requires y + TargetH(duck) <= UnderDeckTop(groundY) + 2.0
    ensures !RailHit(Hitbox(y, duck), gaps, groundY, worldBottom)
  {
    var hb := Hitbox(y, duck);
    forall i, k | 0 <= i < |gaps| && 0 <= k < 2
      ensures !Overlap(hb, RailRects(gaps[i], groundY, worldBottom)[k])
    {
      assert RailRects(gaps[i], groundY, worldBottom)[k].y == UnderDeckTop(groundY);
    }
  }

  /** The crash effect: shake, hit flash. */
  function Crash(w: World, reduceMotion: bool): (r: World)
    ensures r.shake.amp > 0.0 && r.shake.t == 0.0 && r.hitFxT > 0.0
    ensures r.shake.amp == (if reduceMotion then 3.0 else 6.0)
    ensures r.shake.dur == 0.45 && r.hitFxT == 0.28
    ensures r == w.(shake := r.shake, hitFxT := r.hitFxT)
  {
    w.(shake := Shake(if reduceMotion then 3.0 else 6.0, 0.0, 0.45), hitFxT := 0.28)
  }

  // ---------------------------------------------------------------------
  // Scoring

  /** `Math.pow(s, 1.15)` is supplied by the host; on [0, 1] it stays in [0, 1]. */
  ghost predicate PowInRange(pow: real -> real) {
    forall s :: 0.0 <= s <= 1.0 ==> 0.0 <= pow(s) <= 1.0
  }

  /** `clamp((speed - baseSpeed) / (speedMax - baseSpeed), 0, 1)`. */
  function SpeedRatio(speed: real): (sr: real)
    ensures 0.0 <= sr <= 1.0
    ensures speed <= BaseSpeed ==> sr == 0.0
    ensures speed >= SpeedMax ==> sr == 1.0
  {
    Clamp((speed - BaseSpeed) / (SpeedMax - BaseSpeed), 0.0, 1.0)
  }

  /** `0.85 + 1.3 * pow(sr, 1.15)`: faster runs score up to 2.15 times more. */
  function ScoreMult(speed: real, pow: real -> real): (m: real)
    requires PowInRange(pow)
    ensures 0.85 <= m <= 2.15
  {
    var p := pow(SpeedRatio(speed));
    0.85 + 1.3 * p
  }

  /** `dt * speed * 0.02 * mult`. */
  function ScoreGain(dt: real, speed: real, mult: real): (g: real)
    ensures dt >= 0.0 && speed >= 0.0 && mult >= 0.0 ==> g >= 0.0
  {
    var ds := dt * speed;
    assert dt >= 0.0 && speed >= 0.0 ==> ds >= 0.0;
    ds * 0.02 * mult
  }

  /** The live best: raised to `floor(score)` when that is higher. */
  function Best(best: int, score: real): (b: int)
    ensures b >= best && b >= Floor(score)
    ensures b == best || b == Floor(score)
  {
    if Floor(score) > best then Floor(score) else best
  }

  /** The shake clock runs until the shake's duration, then the shake stops. */
  function ShakeStep(s: Shake, dt: real): (r: Shake)
    ensures r.dur == s.dur
    ensures s.t <= s.dur ==> r == s.(t := s.t + dt)
    ensures s.t > s.dur ==> r == s.(amp := 0.0)
  {
    if s.t <= s.dur then s.(t := s.t + dt) else s.(amp := 0.0)
  }

  /** The tutorial hint fades at 0.8 per second once the first jump happened. */
  function HintStep(alpha: real, firstJumpDone: bool, dt: real): (r: real)
    ensures !firstJumpDone || alpha <= 0.0 ==> r == alpha
    ensures firstJumpDone && alpha > 0.0 ==> r >= 0.0
    ensures firstJumpDone && alpha > 0.0 && dt >= 0.0 ==> r <= alpha
  {
    if firstJumpDone && alpha > 0.0 then Max(0.0, alpha - dt * 0.8) else alpha
  }

  // ---------------------------------------------------------------------
  // update

  /** What `update` reads from the host besides the game: the reduced-motion
      flag, the screen width the spawner sees, the bottom of the zoomed
      world, `Math.pow(·, 1.15)`, the spawner's draws and the fallback delay's draw. */
  datatype Frame = Frame(reduceMotion: bool, screenW: real, worldBottom: real,
                         pow: real -> real, rnd: Stream, delayDraw: Unit)

  /** The game after a frame, and the landing puff the host should spawn. */
  datatype Outcome = Outcome(game: Game, puff: Option<real>)

  /** Spawn, then scroll everything by `speed * dt` and cull both lists. */
  function Advance(w: World, dt: real, f: Frame): (r: World)
    ensures r == w.(obstacles := r.obstacles, gaps := r.gaps, spawnTimer := r.spawnTimer, deck := r.deck)
    ensures r.deck == w.deck.(scrollX := w.deck.scrollX + w.speed * dt)
    ensures var sp := SpawnStep(w.spawnTimer, dt, f.screenW, w.speed, w.groundY, w.obstacles, w.gaps, f.rnd, f.delayDraw);
      && r.spawnTimer == sp.timer
      && r.obstacles == CullObstacles(MoveObstacles(sp.obstacles, -(w.speed * dt)))
      && r.gaps == CullGaps(MoveGaps(sp.gaps, -(w.speed * dt)))
  {
    var sp := SpawnStep(w.spawnTimer, dt, f.screenW, w.speed, w.groundY, w.obstacles, w.gaps, f.rnd, f.delayDraw);
    var dx := -(w.speed * dt);
    w.(obstacles := CullObstacles(MoveObstacles(sp.obstacles, dx)),
       gaps := CullGaps(MoveGaps(sp.gaps, dx)),
       spawnTimer := sp.timer,
       deck := w.deck.(scrollX := w.deck.scrollX + w.speed * dt))
  }

  /** The end of a completed frame: score, shake, hint and hit flash. */
  function Finish(w: World, dt: real, pow: real -> real): (r: World)
    requires PowInRange(pow)
    ensures r == w.(score := r.score, shake := r.shake, hintAlpha := r.hintAlpha, hitFxT := r.hitFxT)
    ensures r.score == w.score + ScoreGain(dt, w.speed, ScoreMult(w.speed, pow))
    ensures r.shake == ShakeStep(w.shake, dt)
    ensures r.hintAlpha == HintStep(w.hintAlpha, w.firstJumpDone, dt)
    ensures r.hitFxT == Decay(w.hitFxT, dt)
  {
    w.(score := w.score + ScoreGain(dt, w.speed, ScoreMult(w.speed, pow)),
       shake := ShakeStep(w.shake, dt),
       hintAlpha := HintStep(w.hintAlpha, w.firstJumpDone, dt),
       hitFxT := Decay(w.hitFxT, dt))
  }

  /** The world after the clock and speed ramp, the first phase of a frame. */
  function Clocked(w: World, dt: real, reduceMotion: bool): World {
    w.(t := w.t + dt, speed := RampSpeed(w.speed, reduceMotion, dt))
  }

  /** Did the frame's collision tests end the run? */
  predicate Crashed(p: Player, inp: Input, w: World, worldBottom: real) {
    var hb := Hitbox(p.y, inp.duck);
    ObstacleHit(hb, w.obstacles) || RailHit(hb, w.gaps, w.groundY, worldBottom)
  }

  /** `update(dt)` for a playing game. A frame ends the run (and skips
      scoring) when the cat falls out or hits a collider or a wall. */
  function Update(g: Game, dt: real, f: Frame): (r: Outcome)
    requires g.mode == Playing && PowInRange(f.pow)
    ensures r.game.mode == Playing || r.game.mode == Dead
    ensures var land := Physics(g.player, g.input, g.world.gaps, g.world.groundY, dt);
      r.game.mode == Dead <==>
        FellOut(land.player, f.worldBottom)
        || Crashed(land.player, land.input, Advance(Clocked(g.world, dt, f.reduceMotion), dt, f), f.worldBottom)
    ensures r.game.mode == Dead ==> r.game.world.score == g.world.score && r.game.best == g.best
    ensures r.game.mode == Playing ==> r.game.best >= g.best && r.game.best >= Floor(r.game.world.score)
    ensures r.game.touch == g.touch && r.game.cycle == g.cycle && r.game.weather == g.weather
    ensures r.game.world.t == g.world.t + dt
    ensures r.game.world.speed == RampSpeed(g.world.speed, f.reduceMotion, dt)
    ensures r.game.input.jumpBufferT >= 0.0 && r.game.input.coyoteT >= 0.0
    ensures r.puff == Physics(g.player, g.input, g.world.gaps, g.world.groundY, dt).puff
    ensures r.game.player == Physics(g.player, g.input, g.world.gaps, g.world.groundY, dt).player
    ensures r.game.world.gaps == g.world.gaps
         || r.game.world.gaps == Advance(Clocked(g.world, dt, f.reduceMotion), dt, f).gaps
  {
    var w0 := Clocked(g.world, dt, f.reduceMotion);
    var land := Physics(g.player, g.input, w0.gaps, w0.groundY, dt);
    var g1 := g.(world := w0, player := land.player, input := land.input);
    if FellOut(land.player, f.worldBottom) then
      Outcome(g1.(mode := Dead), land.puff)
    else
      var w2 := Advance(w0, dt, f);
      if Crashed(land.player, land.input, w2, f.worldBottom) then
        Outcome(g1.(mode := Dead, world := Crash(w2, f.reduceMotion)), land.puff)
      else
        var w3 := Finish(w2, dt, f.pow);
        Outcome(g1.(world := w3, best := Best(g.best, w3.score)), land.puff)
  }

  /** The speed stays between the base speed and the cap, and never drops. */
  lemma SpeedStaysInRange(g: Game, dt: real, f: Frame)
    requires g.mode == Playing && PowInRange(f.pow)
    requires BaseSpeed <= g.world.speed <= SpeedMax && dt >= 0.0
    ensures var s := Update(g, dt, f).game.world.speed;
      g.world.speed <= s <= SpeedMax
  {}

  /** A completed frame never lowers the score; a fatal one leaves it. */
  lemma ScoreNeverDrops(g: Game, dt: real, f: Frame)
    requires g.mode == Playing && PowInRange(f.pow)
    requires BaseSpeed <= g.world.speed <= SpeedMax && dt >= 0.0
    ensures Update(g, dt, f).game.world.score >= g.world.score
  {
    var r := Update(g, dt, f);
    if r.game.mode == Playing {
      var w0 := Clocked(g.world, dt, f.reduceMotion);
      var w2 := Advance(w0, dt, f);
      var m := ScoreMult(w2.speed, f.pow);
      assert ScoreGain(dt, w2.speed, m) >= 0.0;
    }
  }

  /** The gap list stays ordered and spaced from frame to frame. */
  lemma UpdateKeepsGapsSpaced(g: Game, dt: real, f: Frame)
    requires g.mode == Playing && PowInRange(f.pow)
    requires BaseSpeed <= g.world.speed <= SpeedMax && dt >= 0.0 && GapsSpaced(g.world.gaps)
    ensures GapsSpaced(Update(g, dt, f).game.world.gaps)
  {
    AdvanceKeepsGapsSpaced(Clocked(g.world, dt, f.reduceMotion), dt, f);
  }

  /** The spawn phase keeps the gaps ordered and spaced. */
  lemma SpawnStepKeepsGapsSpaced(timer: real, dt: real, screenW: real, speed: real, gy: real,
                                 obs: seq<Obstacle>, gaps: seq<Gap>, rnd: Stream, u: Unit)
    requires BaseSpeed <= speed && GapsSpaced(gaps)
    ensures GapsSpaced(SpawnStep(timer, dt, screenW, speed, gy, obs, gaps, rnd, u).gaps)
  {
    if timer - dt <= 0.0 {
      SpawnKeepsGapsSpaced(screenW, speed, gy, DuckH, obs, gaps, rnd);
    }
  }

  /** One spawn-and-scroll phase keeps the gaps ordered and spaced. */
  lemma AdvanceKeepsGapsSpaced(w: World, dt: real, f: Frame)
    requires BaseSpeed <= w.speed && GapsSpaced(w.gaps)
    ensures GapsSpaced(Advance(w, dt, f).gaps)
  {
    var sp := SpawnStep(w.spawnTimer, dt, f.screenW, w.speed, w.groundY, w.obstacles, w.gaps, f.rnd, f.delayDraw);
    SpawnStepKeepsGapsSpaced(w.spawnTimer, dt, f.screenW, w.speed, w.groundY, w.obstacles, w.gaps, f.rnd, f.delayDraw);
    ScrollKeepsGapsSpaced(sp.gaps, -(w.speed * dt));
  }

  /** A cat that completes a frame on the ground stands on the deck, on
      solid floor, with a fresh coyote window. */
  lemma GroundedMeansOnDeck(g: Game, dt: real, f: Frame)
    requires g.mode == Playing && PowInRange(f.pow)
    ensures var r := Update(g, dt, f).game;
      r.player.onGround ==>
        (r.player.y + TargetH(r.input.duck) == g.world.groundY && r.player.vy == 0.0
         && r.input.coyoteT == Coyote && !OverGap(g.world.gaps))
  {}

  // ---------------------------------------------------------------------
  // The frame loop

  /** `dt = min(0.032, elapsed / 1000)`. */
  function FrameDt(elapsedMs: real): (dt: real)
    ensures dt <= MaxDt
    ensures elapsedMs >= 0.0 ==> dt >= 0.0
  {
    Min(MaxDt, elapsedMs / 1000.0)
  }

  /** `step`: the world advances only while playing, and never by more than
      32 ms at once. */
  function Step(g: Game, elapsedMs: real, f: Frame): (r: Outcome)
    requires PowInRange(f.pow)
    ensures g.mode != Playing ==> r == Outcome(g, None)
    ensures g.mode == Playing ==> r == Update(g, FrameDt(elapsedMs), f)
  {
    if g.mode == Playing then Update(g, FrameDt(elapsedMs), f) else Outcome(g, None)
  }
}
