/** The run-control half of `RooftopCat.jsx`: `resetRun`,
    `syncGroundToCanvas`, `handleStartOrJump`, and the state transitions of
    the key, pointer, blur and visibility handlers. */
module GameInput {
  import opened Num
  import opened Obstacles
  import Deck
  import opened GameStep

  const SpawnDelayAtStart: real := 0.2
  /** The factor a released jump multiplies a rising speed by. */
  const ReleaseCut: real := 0.75

  // ---------------------------------------------------------------------
  // Ground line, reset and resize

  /** `calcGroundY`: two thirds of the view height, rounded down. */
  function CalcGroundY(viewH: real): (gy: real)
    ensures gy <= viewH * 0.66 < gy + 1.0
    ensures gy == (gy.Floor as real)
  {
    Floor(viewH * 0.66) as real
  }

  /** `resetRun(keepScore)` on a canvas of height `viewH`; `u1` and `u2`
      are the deck's two draws in `initUnderDeck`. */
  function ResetRun(g: Game, keepScore: bool, viewH: real, u1: Unit, u2: Unit): (r: Game)
    ensures var gy := CalcGroundY(viewH);
      && r.world.groundY == gy
      && r.player == Player(gy - PlayerH, 0.0, true)
    ensures r.world.t == 0.0 && r.world.speed == BaseSpeed
    ensures r.world.obstacles == [] && r.world.gaps == []
    ensures r.world.spawnTimer == SpawnDelayAtStart && r.world.hitFxT == 0.0
    ensures r.world.shake == Shake(0.0, 0.0, 0.0)
    ensures r.world.score == (if keepScore then g.world.score else 0.0)
    ensures r.world.deck == Deck.InitUnderDeck(u1, u2).1 && r.world.deck.scrollX == 0.0
    ensures r.world.hintAlpha == g.world.hintAlpha && r.world.firstJumpDone == g.world.firstJumpDone
    ensures r.mode == g.mode && r.input == g.input && r.touch == g.touch && r.best == g.best
    ensures r.cycle == g.cycle && r.weather == g.weather
  {
    var gy := CalcGroundY(viewH);
    var deck := Deck.InitUnderDeck(u1, u2);
    var w := g.world.(t := 0.0, speed := BaseSpeed, obstacles := [],
                      score := if keepScore then g.world.score else 0.0,
                      shake := Shake(0.0, 0.0, 0.0), spawnTimer := SpawnDelayAtStart, hitFxT := 0.0,
                      groundY := gy, gaps := deck.0, deck := deck.1);
    g.(world := w, player := Player(gy - PlayerH, 0.0, true))
  }

  /** Shift every obstacle (and its anchor) down by `dy`. */
  function LiftAll(obs: seq<Obstacle>, dy: real): (r: seq<Obstacle>)
    ensures |r| == |obs|
    ensures forall i :: 0 <= i < |obs| ==> r[i] == LiftedBy(obs[i], dy)
  {
    seq(|obs|, i requires 0 <= i < |obs| => LiftedBy(obs[i], dy))
  }

  /** `syncGroundToCanvas`: when the ground line moves, everything anchored
      to it moves along, and a grounded cat is put back on it. */
  function SyncGround(g: Game, viewH: real): (r: Game)
    ensures r.world.groundY == CalcGroundY(viewH)
    ensures CalcGroundY(viewH) == g.world.groundY ==> r == g
    ensures CalcGroundY(viewH) != g.world.groundY ==>
      var dy := CalcGroundY(viewH) - g.world.groundY;
      && r.world == g.world.(groundY := r.world.groundY, obstacles := LiftAll(g.world.obstacles, dy))
      && (g.player.onGround ==> r.player == Player(r.world.groundY - TargetH(g.input.duck), 0.0, true))
      && (!g.player.onGround ==> r.player == g.player)
      && r == g.(world := r.world, player := r.player)
  {
    var gy := CalcGroundY(viewH);
    if gy == g.world.groundY then g
    else
      var dy := gy - g.world.groundY;
      g.(world := g.world.(groundY := gy, obstacles := LiftAll(g.world.obstacles, dy)),
         player := if g.player.onGround then Player(gy - TargetH(g.input.duck), 0.0, true) else g.player)
  }

  /** A second sync with the same canvas changes nothing. */
  lemma SyncIdempotent(g: Game, viewH: real)
    ensures SyncGround(SyncGround(g, viewH), viewH) == SyncGround(g, viewH)
  {}

  /** Resize keeps every obstacle where it stood relative to the ground,
      and every hitbox moves with it. */
  lemma SyncKeepsObstaclesAnchored(g: Game, viewH: real, i: nat)
    requires i < |g.world.obstacles|
    ensures var r := SyncGround(g, viewH);
      |r.world.obstacles| == |g.world.obstacles|
      && r.world.obstacles[i].y - r.world.groundY == g.world.obstacles[i].y - g.world.groundY
      && r.world.obstacles[i].x == g.world.obstacles[i].x
      && |Colliders(r.world.obstacles[i])| == |Colliders(g.world.obstacles[i])|
      && (forall k :: 0 <= k < |Colliders(g.world.obstacles[i])| ==>
            Colliders(r.world.obstacles[i])[k].y - r.world.groundY
            == Colliders(g.world.obstacles[i])[k].y - g.world.groundY)
  {
    var dy := CalcGroundY(viewH) - g.world.groundY;
    if dy != 0.0 {
      LiftedColliders(g.world.obstacles[i], dy);
    }
  }

  /** A grounded cat stays on the ground line through a resize. */
  lemma SyncKeepsPlayerGrounded(g: Game, viewH: real)
    requires g.player.onGround && g.player.y + TargetH(g.input.duck) == g.world.groundY
    ensures var r := SyncGround(g, viewH);
      r.player.onGround && r.player.y + TargetH(r.input.duck) == r.world.groundY
  {}

  /** Right after a reset on the same canvas the ground is in sync. */
  lemma ResetIsInSync(g: Game, keepScore: bool, viewH: real, u1: Unit, u2: Unit)
    ensures var r := ResetRun(g, keepScore, viewH, u1, u2);
      SyncGround(r, viewH) == r
  {}

  /** `gameApi.reset(keepScore)`: clear held inputs and touches, go back to
      the ready screen, rebuild the world and sync the ground. */
  function ApiReset(g: Game, keepScore: bool, viewH: real, u1: Unit, u2: Unit): (r: Game)
    ensures r.mode == Ready
    ensures !r.input.duck && !r.input.jumpHeld && r.input.jumpBufferT == 0.0 && r.input.coyoteT == 0.0
    ensures r.touch == Touch(None, None)
    ensures r.world.speed == BaseSpeed && r.world.obstacles == [] && r.world.gaps == []
    ensures r.world.score == (if keepScore then g.world.score else 0.0)
    ensures r.player.onGround && r.player.y + PlayerH == r.world.groundY
  {
    var cleared := g.(input := g.input.(duck := false, jumpHeld := false, jumpBufferT := 0.0, coyoteT := 0.0),
                      touch := Touch(None, None), mode := Ready);
    var reset := ResetRun(cleared, keepScore, viewH, u1, u2);
    ResetIsInSync(cleared, keepScore, viewH, u1, u2);
    SyncGround(reset, viewH)
  }

  // ---------------------------------------------------------------------
  // handleStartOrJump

  /** `handleStartOrJump`: from `dead` start a fresh run (and nothing else);
      otherwise start playing from `ready`, buffer a jump and mark the first
      jump done. */
  function StartOrJump(g: Game, viewH: real, u1: Unit, u2: Unit): (r: Game)
    ensures g.mode == Dead ==> r == ResetRun(g.(mode := Playing), false, viewH, u1, u2)
    ensures g.mode == Ready ==> r.mode == Playing
    ensures g.mode != Dead ==>
      (r.mode == (if g.mode == Ready then Playing else g.mode)
       && r.input == g.input.(jumpBufferT := JumpBuffer)
       && r.world == g.world.(firstJumpDone := true)
       && r.player == g.player && r.touch == g.touch && r.best == g.best)
  {
    if g.mode == Dead then ResetRun(g.(mode := Playing), false, viewH, u1, u2)
    else
      var g1 := if g.mode == Ready then g.(mode := Playing) else g;
      g1.(input := g1.input.(jumpBufferT := JumpBuffer), world := g1.world.(firstJumpDone := true))
  }

  /** A start from the ready screen jumps on the next frame when the cat
      stands on the ground: the buffered press outlives any frame. */
  lemma ReadyStartJumpsNextFrame(g: Game, viewH: real, u1: Unit, u2: Unit, dt: real)
    requires g.mode == Ready && g.player.onGround && 0.0 <= dt <= MaxDt
    ensures var r := StartOrJump(g, viewH, u1, u2);
      r.mode == Playing && JumpFires(r.player, r.input, dt)
      && Launch(r.player, r.input, dt).player.vy == JumpVel
  {}

  /** A restart from the dead screen is a fresh run with a zero score. */
  lemma DeadStartIsFreshRun(g: Game, viewH: real, u1: Unit, u2: Unit)
    requires g.mode == Dead
    ensures var r := StartOrJump(g, viewH, u1, u2);
      r.mode == Playing && r.world.score == 0.0 && r.world.speed == BaseSpeed
      && r.world.obstacles == [] && r.player.onGround && r.input == g.input
  {}

  // ---------------------------------------------------------------------
  // Keys

  /** `toLowerCase` over ASCII letters. */
  function Lower(s: string): (r: string)
    ensures |r| == |s|
    ensures forall i :: 0 <= i < |s| ==>
      r[i] == (if 'A' <= s[i] <= 'Z' then (s[i] as int + 32) as char else s[i])
  {
    seq(|s|, i requires 0 <= i < |s| => if 'A' <= s[i] <= 'Z' then (s[i] as int + 32) as char else s[i])
  }

  predicate IsJumpKey(k: string) { k == " " || k == "arrowup" || k == "w" }
  predicate IsDuckKey(k: string) { k == "arrowdown" || k == "s" }

  /** The day-cycle modes and weather kinds the T and R keys step through. */
  const CycleOrder: seq<string> := ["auto", "night", "dawn", "day"]
  const WeatherOrder: seq<string> := ["none", "rain", "snow", "fog", "storm"]

  /** `indexOf`: the first position of `x`, or -1. */
  function IndexOf<T(==)>(xs: seq<T>, x: T): (i: int)
    ensures -1 <= i < |xs|
    ensures i >= 0 ==> xs[i] == x && forall j :: 0 <= j < i ==> xs[j] != x
    ensures i == -1 ==> x !in xs
  {
    if |xs| == 0 then -1
    else if xs[0] == x then 0
    else
      var k := IndexOf(xs[1..], x);
      assert forall j :: 1 <= j < |xs| ==> xs[1..][j - 1] == xs[j];
      if k == -1 then -1 else k + 1
  }

  /** `order[(order.indexOf(cur) + 1) % order.length]`: the next entry,
      wrapping round, and the first one for an unknown value. */
  function NextInOrder<T(==)>(order: seq<T>, cur: T): (r: T)
    requires |order| > 0
    ensures r in order
    ensures cur !in order ==> r == order[0]
  {
    order[(IndexOf(order, cur) + 1) % |order|]
  }

  predicate Distinct<T(==)>(xs: seq<T>) {
    forall i, j :: 0 <= i < j < |xs| ==> xs[i] != xs[j]
  }

  /** Pressing the cycling key `m` times. */
  function Cycled<T(==)>(order: seq<T>, cur: T, m: nat): (r: T)
    requires |order| > 0
  {
    if m == 0 then cur else Cycled(order, NextInOrder(order, cur), m - 1)
  }

  /** In a list without repeats, the key steps to the next position, and
      from the last one back to the first. */
  lemma NextOfMember<T>(order: seq<T>, i: nat)
    requires Distinct(order) && i < |order|
    ensures NextInOrder(order, order[i]) == order[if i + 1 < |order| then i + 1 else 0]
  {
    var k := IndexOf(order, order[i]);
    assert k == i;
    if i + 1 == |order| {
      ModSelf(|order|);
    } else {
      ModBelow(i + 1, |order|);
    }
  }

  lemma ModSelf(n: int)
    requires n > 0
    ensures n % n == 0
  {}

  lemma ModBelow(a: int, n: int)
    requires 0 <= a < n
    ensures a % n == a
  {}

  /** `m` presses from position `i`, for `i + m` below twice the length,
      land on position `i + m` taken round the end once. */
  lemma {:induction false} CycledIndex<T>(order: seq<T>, i: nat, m: nat)
    requires Distinct(order) && i < |order| && i + m < 2 * |order|
    ensures i + m < |order| ==> Cycled(order, order[i], m) == order[i + m]
    ensures i + m >= |order| ==> Cycled(order, order[i], m) == order[i + m - |order|]
    decreases m
  {
    var n := |order|;
    if m > 0 {
      NextOfMember(order, i);
      if i + 1 < n {
        CycledIndex(order, i + 1, m - 1);
      } else {
        CycledIndex(order, 0, m - 1);
      }
    }
  }

  /** As many presses as there are entries bring every mode back. */
  lemma CycleReturns<T>(order: seq<T>, i: nat)
    requires Distinct(order) && i < |order|
    ensures Cycled(order, order[i], |order|) == order[i]
  {
    CycledIndex(order, i, |order|);
  }

  /** Both key orders are without repeats, so T and R wrap after 4 and 5 presses. */
  lemma KeyOrdersDistinct()
    ensures Distinct(CycleOrder) && Distinct(WeatherOrder)
  {}

  /** `onKeyDown`: auto-repeat is ignored; while paused any key resumes;
      otherwise jump, duck, pause, day-cycle and weather keys. The new
      weather's particles are generated by `Weather.InitWeather`. */
  function KeyDown(g: Game, key: string, repeat: bool, viewH: real, u1: Unit, u2: Unit): (r: Game)
    ensures repeat ==> r == g
    ensures !repeat && g.mode == Paused ==> r == g.(mode := Playing)
    ensures !repeat && g.mode != Paused && IsJumpKey(Lower(key)) ==>
      (var s := StartOrJump(g, viewH, u1, u2); r == s.(input := s.input.(jumpHeld := true)))
    ensures !repeat && g.mode != Paused && IsDuckKey(Lower(key)) ==> r == g.(input := g.input.(duck := true))
    ensures !repeat && g.mode != Paused && Lower(key) == "p" ==>
      r == g.(mode := if g.mode == Playing then Paused else g.mode)
    ensures !repeat && g.mode != Paused && Lower(key) == "t" ==>
      r == g.(cycle := NextInOrder(CycleOrder, g.cycle))
    ensures !repeat && g.mode != Paused && Lower(key) == "r" ==>
      r == g.(weather := NextInOrder(WeatherOrder, g.weather))
    ensures (!repeat && g.mode != Paused && !IsJumpKey(Lower(key)) && !IsDuckKey(Lower(key))
             && Lower(key) != "p" && Lower(key) != "t" && Lower(key) != "r") ==> r == g
  {
    var k := Lower(key);
    if repeat then g
    else if g.mode == Paused then g.(mode := Playing)
    else if IsJumpKey(k) then
      var s := StartOrJump(g, viewH, u1, u2);
      s.(input := s.input.(jumpHeld := true))
    else if IsDuckKey(k) then g.(input := g.input.(duck := true))
    else if k == "p" then g.(mode := if g.mode == Playing then Paused else g.mode)
    else if k == "t" then g.(cycle := NextInOrder(CycleOrder, g.cycle))
    else if k == "r" then g.(weather := NextInOrder(WeatherOrder, g.weather))
    else g
  }

  /** P pauses a running game, and the next press (any key) resumes it
      exactly where it stopped. */
  lemma PauseRoundTrip(g: Game, key: string, viewH: real, u1: Unit, u2: Unit)
    requires g.mode == Playing
    ensures KeyDown(g, "P", false, viewH, u1, u2) == g.(mode := Paused)
    ensures KeyDown(KeyDown(g, "p", false, viewH, u1, u2), key, false, viewH, u1, u2) == g
  {
    assert Lower("P") == "p";
    assert Lower("p") == "p";
  }

  /** P leaves the ready and dead screens alone. */
  lemma PauseOnlyWhilePlaying(g: Game, viewH: real, u1: Unit, u2: Unit)
    requires g.mode == Ready || g.mode == Dead
    ensures KeyDown(g, "p", false, viewH, u1, u2) == g
  {
    assert Lower("p") == "p";
  }

  /** The speed left after releasing the jump: a rise is cut to 75 %. */
  function ReleasedVy(vy: real): (r: real)
    ensures vy < 0.0 ==> vy < r < 0.0
    ensures vy >= 0.0 ==> r == vy
  {
    if vy < 0.0 then vy * ReleaseCut else vy
  }

  /** `onKeyUp`: releasing a jump key ends the hold and cuts a rise short;
      releasing a duck key stands up. */
  function KeyUp(g: Game, key: string): (r: Game)
    ensures r.mode == g.mode && r.world == g.world && r.touch == g.touch
    ensures IsJumpKey(Lower(key)) ==>
      r == g.(input := g.input.(jumpHeld := false), player := g.player.(vy := ReleasedVy(g.player.vy)))
    ensures IsDuckKey(Lower(key)) ==> r == g.(input := g.input.(duck := false))
    ensures !IsJumpKey(Lower(key)) && !IsDuckKey(Lower(key)) ==> r == g
  {
    var k := Lower(key);
    if IsJumpKey(k) then
      g.(input := g.input.(jumpHeld := false), player := g.player.(vy := ReleasedVy(g.player.vy)))
    else if IsDuckKey(k) then g.(input := g.input.(duck := false))
    else g
  }

  /** A released jump falls under the heavier gravity on the next frame. */
  lemma ReleaseCutsTheJump(g: Game, key: string, dt: real)
    requires IsJumpKey(Lower(key)) && g.player.vy < 0.0
    ensures var r := KeyUp(g, key);
      !r.input.jumpHeld && r.player.vy < 0.0
      && GravityFactor(r.player.vy, r.input) == CutGravity
  {}

  // ---------------------------------------------------------------------
  // Pointers, blur and visibility

  /** `onPointerDown` at `px` across a canvas `rectW` wide: while paused it
      resumes and clears every hold; the left half ducks; the right half
      jumps exactly like the jump key. */
  function PointerDown(g: Game, id: int, px: real, rectW: real, viewH: real, u1: Unit, u2: Unit): (r: Game)
    ensures g.mode == Paused ==>
      r == g.(mode := Playing, input := g.input.(duck := false, jumpHeld := false), touch := Touch(None, None))
    ensures g.mode != Paused && px < rectW * 0.5 ==>
      (r.input.duck && r.touch.duckId == Some(id) && r.mode == g.mode && r.world == g.world
       && r.input.jumpBufferT == g.input.jumpBufferT
       && (g.touch.jumpId == Some(id) ==> !r.input.jumpHeld && r.touch.jumpId.None?)
       && (g.touch.jumpId != Some(id) ==> r.input.jumpHeld == g.input.jumpHeld && r.touch.jumpId == g.touch.jumpId))
    ensures g.mode != Paused && px >= rectW * 0.5 ==>
      (var s := StartOrJump(g, viewH, u1, u2);
       && r.mode == s.mode && r.world == s.world && r.player == s.player
       && r.input.jumpHeld && r.input.jumpHoldT == 0.0 && r.input.jumpBufferT == s.input.jumpBufferT
       && r.touch.jumpId == Some(id)
       && (g.touch.duckId == Some(id) ==> !r.input.duck && r.touch.duckId.None?)
       && (g.touch.duckId != Some(id) ==> r.input.duck == s.input.duck && r.touch.duckId == g.touch.duckId))
  {
    if g.mode == Paused then
      g.(mode := Playing, input := g.input.(duck := false, jumpHeld := false), touch := Touch(None, None))
    else if px < rectW * 0.5 then
      var g1 := g.(input := g.input.(duck := true), touch := g.touch.(duckId := Some(id)));
      if g.touch.jumpId == Some(id) then
        g1.(input := g1.input.(jumpHeld := false), touch := g1.touch.(jumpId := None))
      else g1
    else
      var s := StartOrJump(g, viewH, u1, u2);
      var g1 := s.(input := s.input.(jumpHeld := true, jumpHoldT := 0.0), touch := s.touch.(jumpId := Some(id)));
      if g.touch.duckId == Some(id) then
        g1.(input := g1.input.(duck := false), touch := g1.touch.(duckId := None))
      else g1
  }

  /** `onPointerUp` and `onPointerCancel` (the same effect): the finger
      that held the duck stands the cat up; the finger that held the jump
      ends the hold and cuts a rise short. */
  function PointerRelease(g: Game, id: int): (r: Game)
    ensures r.mode == g.mode && r.world == g.world
    ensures g.touch.duckId == Some(id) ==> !r.input.duck && r.touch.duckId.None?
    ensures g.touch.duckId != Some(id) ==> r.input.duck == g.input.duck && r.touch.duckId == g.touch.duckId
    ensures g.touch.jumpId == Some(id) ==>
      (!r.input.jumpHeld && r.touch.jumpId.None? && r.player == g.player.(vy := ReleasedVy(g.player.vy)))
    ensures g.touch.jumpId != Some(id) ==>
      (r.input.jumpHeld == g.input.jumpHeld && r.touch.jumpId == g.touch.jumpId && r.player == g.player)
    ensures r.input == g.input.(duck := r.input.duck, jumpHeld := r.input.jumpHeld)
  {
    var g1 := if g.touch.duckId == Some(id)
      then g.(input := g.input.(duck := false), touch := g.touch.(duckId := None))
      else g;
    if g.touch.jumpId == Some(id) then
      g1.(input := g1.input.(jumpHeld := false), touch := g1.touch.(jumpId := None),
          player := g1.player.(vy := ReleasedVy(g1.player.vy)))
    else g1
  }

  /** A tap on the right half then its release is a short hop: the jump is
      buffered and the hold is over. */
  lemma TapIsShortHop(g: Game, id: int, px: real, rectW: real, viewH: real, u1: Unit, u2: Unit)
    requires g.mode == Playing && px >= rectW * 0.5
    ensures var r := PointerRelease(PointerDown(g, id, px, rectW, viewH, u1, u2), id);
      r.mode == Playing && r.input.jumpBufferT == JumpBuffer && !r.input.jumpHeld && r.touch.jumpId.None?
  {}

  /** `onBlur` and `onVisibilityLike` (with `hidden` standing for a hidden
      or not-visible document): a running game pauses; nothing else changes. */
  function Suspend(g: Game, hidden: bool): (r: Game)
    ensures hidden && g.mode == Playing ==> r == g.(mode := Paused)
    ensures !(hidden && g.mode == Playing) ==> r == g
  {
    if hidden && g.mode == Playing then g.(mode := Paused) else g
  }

  /** Leaving the tab and coming back with any key resumes the same run. */
  lemma SuspendThenResume(g: Game, key: string, viewH: real, u1: Unit, u2: Unit)
    requires g.mode == Playing
    ensures KeyDown(Suspend(g, true), key, false, viewH, u1, u2) == g
  {}

  /** No handler brings back a run from the pause except by resuming it,
      and a paused game's world never changes under any input. */
  lemma PausedWorldIsFrozen(g: Game, key: string, id: int, px: real, rectW: real, viewH: real, u1: Unit, u2: Unit)
    requires g.mode == Paused
    ensures KeyDown(g, key, false, viewH, u1, u2).world == g.world
    ensures PointerDown(g, id, px, rectW, viewH, u1, u2).world == g.world
    ensures PointerRelease(g, id).world == g.world
    ensures Suspend(g, true) == g
  {}
}
