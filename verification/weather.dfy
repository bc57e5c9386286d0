/** Weather ambience: rain, snow and fog particles sized to the view, and
    the storm's lightning schedule (bolt spawning, flash fade, bolt aging).
    Sizes are the view's CSS pixels `w` by `h`; draws come from a stream at
    a cursor. */
module Weather {
  import opened Num
  import opened Utils

  datatype Drop = Drop(x: real, y: real, vx: real, vy: real, z: real)
  datatype Flake = Flake(x: real, y: real, vx: real, vy: real, sway: real, swaySpeed: real, r: real)
  datatype Blob = Blob(x: real, y: real, r: real, vx: real, a: real, phi: real, swaySpeed: real)
  datatype Point = Point(x: real, y: real)
  datatype Bolt = Bolt(pts: seq<Point>, branches: seq<seq<Point>>, life: real, age: real)
  /** `state.storm`: reduced motion, screen flash, seconds to the next bolt. */
  datatype Storm = Storm(rm: bool, flash: real, nextBolt: real)

  /** The weather part of the game state; `fogTex` records whether the fog
      texture was made. */
  datatype WeatherState = WeatherState(rain: seq<Drop>, snow: seq<Flake>, fog: seq<Blob>, fogTex: bool,
                                       lightning: seq<Bolt>, storm: Option<Storm>)

  /** `Math.PI * 2` as the double it evaluates to. */
  const TwoPi: real := 6.283185307179586
  const BaselineArea: real := 921600.0

  // ---------------------------------------------------------------------
  // Particle counts

  /** `Math.max(floor, Math.floor(base * w * h / (1280 * 720)))`. */
  function AreaCount(base: real, floor: int, w: int, h: int): (n: int)
    ensures n >= floor
  {
    MaxInt(floor, Floor(base * ((w * h) as real / BaselineArea)))
  }

  function RainCount(w: int, h: int, rm: bool): (n: int)
    ensures n >= 30
  {
    AreaCount(if rm then 80.0 else 160.0, 30, w, h)
  }

  function SnowCount(w: int, h: int, rm: bool): (n: int)
    ensures n >= 20
  {
    AreaCount(if rm then 80.0 else 140.0, 20, w, h)
  }

  function StormRainCount(w: int, h: int, rm: bool): (n: int)
    ensures n >= 60
  {
    AreaCount(if rm then 180.0 else 320.0, 60, w, h)
  }

  /** `Math.max(6, Math.floor(w / 140))`: one fog blob per 140 px. */
  function FogCount(w: int): (n: int)
    ensures n >= 6
  {
    MaxInt(6, Floor(w as real / 140.0))
  }

  /** At the 1280 x 720 baseline the counts are the authored ones. */
  lemma CountsAtBaseline()
    ensures RainCount(1280, 720, false) == 160 && RainCount(1280, 720, true) == 80
    ensures SnowCount(1280, 720, false) == 140 && SnowCount(1280, 720, true) == 80
    ensures StormRainCount(1280, 720, false) == 320 && StormRainCount(1280, 720, true) == 180
  {
    assert (1280 * 720) as real / BaselineArea == 1.0;
  }

  /** A larger view never gets fewer particles. */
  lemma AreaCountMonotone(base: real, floor: int, w1: int, h1: int, w2: int, h2: int)
    requires base >= 0.0 && w1 * h1 <= w2 * h2
    ensures AreaCount(base, floor, w1, h1) <= AreaCount(base, floor, w2, h2)
  {
    var a1 := (w1 * h1) as real / BaselineArea;
    var a2 := (w2 * h2) as real / BaselineArea;
    assert a1 <= a2;
    MulMonotone(base, a1, a2);
    var m1 := base * a1;
    var m2 := base * a2;
    assert Floor(m1) <= Floor(m2);
  }

  lemma MulMonotone(c: real, a: real, b: real)
    requires c >= 0.0 && a <= b
    ensures c * a <= c * b
  {
    var d := c * (b - a);
    assert d >= 0.0;
  }

  /** A storm always rains harder than plain rain at the same view size. */
  lemma StormOutrainsRain(w: int, h: int, rm: bool)
    requires w >= 0 && h >= 0
    ensures StormRainCount(w, h, rm) >= RainCount(w, h, rm)
  {
    var a := (w * h) as real / BaselineArea;
    assert a >= 0.0;
    MulMonotone(a, if rm then 80.0 else 160.0, if rm then 180.0 else 320.0);
  }

  // ---------------------------------------------------------------------
  // Particle generation

  /** `Math.floor(Math.max(m, w * f))`: how far left of the view particles start. */
  function Overscan(w: int, m: real, f: real): int { Floor(Max(m, w as real * f)) }

  /** `count` rain drops; `storm` selects the faster storm speeds. Draws:
      depth `z`, then x and y. */
  function Drops(count: nat, w: int, h: int, storm: bool, rnd: Stream, k: nat): (r: Made<seq<Drop>>)
    ensures |r.value| == count && r.k == k + 3 * count
    ensures forall i :: 0 <= i < count ==>
      0.0 <= r.value[i].z < 1.0 &&
      r.value[i].vy == (if storm then 420.0 + 520.0 * r.value[i].z else 320.0 + 380.0 * r.value[i].z) &&
      r.value[i].vx == (if storm then -80.0 - 70.0 * r.value[i].z else -40.0 - 40.0 * r.value[i].z)
  {
    if count == 0 then Made([], k)
    else
      var rest := Drops(count - 1, w, h, storm, rnd, k + 3);
      var z := rnd(k);
      var o := Overscan(w, 80.0, 0.08) as real;
      var d := Drop(rnd(k + 1) * (w as real + o) - o, rnd(k + 2) * (h as real + 120.0) - 120.0,
                    if storm then -80.0 - 70.0 * z else -40.0 - 40.0 * z,
                    if storm then 420.0 + 520.0 * z else 320.0 + 380.0 * z, z);
      assert forall i :: 1 <= i < count ==> ([d] + rest.value)[i] == rest.value[i - 1];
      Made([d] + rest.value, rest.k)
  }

  /** `count` snow flakes, seven draws each. */
  function Flakes(count: nat, w: int, h: int, rnd: Stream, k: nat): (r: Made<seq<Flake>>)
    ensures |r.value| == count && r.k == k + 7 * count
    ensures forall i :: 0 <= i < count ==> 1.0 <= r.value[i].r < 3.2
  {
    if count == 0 then Made([], k)
    else
      var rest := Flakes(count - 1, w, h, rnd, k + 7);
      var o := Overscan(w, 80.0, 0.08) as real;
      var f := Flake(rnd(k + 1) * (w as real + o) - o, rnd(k + 2) * (h as real + 80.0) - 80.0,
                     -14.0 - rnd(k + 3) * 10.0, 18.0 + rnd(k + 4) * 28.0,
                     rnd(k + 5) * TwoPi, 0.6 + rnd(k + 6) * 1.2, 1.0 + Scaled(rnd(k), 2.2));
      assert forall i :: 1 <= i < count ==> ([f] + rest.value)[i] == rest.value[i - 1];
      Made([f] + rest.value, rest.k)
  }

  /** `count` fog blobs in the band from `yTop`, seven draws each. */
  function Blobs(count: nat, w: int, yTop: real, bandH: real, rnd: Stream, k: nat): (r: Made<seq<Blob>>)
    ensures |r.value| == count && r.k == k + 7 * count
    ensures forall i :: 0 <= i < count ==> 80.0 <= r.value[i].r < 240.0 && 0.35 <= r.value[i].a < 0.6
  {
    if count == 0 then Made([], k)
    else
      var rest := Blobs(count - 1, w, yTop, bandH, rnd, k + 7);
      var o := Overscan(w, 120.0, 0.12) as real;
      var b := Blob(rnd(k + 1) * (w as real + o) - o * 0.5, yTop + rnd(k + 2) * bandH, 80.0 + Scaled(rnd(k), 160.0),
                    -20.0 - rnd(k + 3) * 25.0, 0.35 + Scaled(rnd(k + 4), 0.25), rnd(k + 5) * TwoPi,
                    0.8 + rnd(k + 6) * 1.2);
      assert forall i :: 1 <= i < count ==> ([b] + rest.value)[i] == rest.value[i - 1];
      Made([b] + rest.value, rest.k)
  }

  /** The first storm: no flash, the first bolt in [3, 6.5), or [3.5, 8)
      under reduced motion. */
  function FirstStorm(rm: bool, u: Unit): (s: Storm)
    ensures s.rm == rm && s.flash == 0.0
    ensures !rm ==> 3.0 <= s.nextBolt < 6.5
    ensures rm ==> 3.5 <= s.nextBolt < 8.0
  {
    Storm(rm, 0.0, (if rm then 3.5 else 3.0) + Scaled(u, if rm then 4.5 else 3.5))
  }

  /** An empty weather state: what `initWeather` clears first. */
  const Cleared: WeatherState := WeatherState([], [], [], false, [], None)

  /** `initWeather(mode, state, canvas, reduceMotion)` for a view `w` by `h`
      and the ground at `groundY`. */
  function InitWeather(mode: string, w: int, h: int, groundY: real, rm: bool, rnd: Stream, k: nat): (r: Made<WeatherState>)
    ensures mode != "rain" && mode != "snow" && mode != "fog" && mode != "storm" ==> r.value == Cleared
    ensures mode == "rain" ==> r.value == Cleared.(rain := r.value.rain) && |r.value.rain| == RainCount(w, h, rm)
    ensures mode == "snow" ==> r.value == Cleared.(snow := r.value.snow) && |r.value.snow| == SnowCount(w, h, rm)
    ensures mode == "fog" ==> r.value == Cleared.(fog := r.value.fog, fogTex := true) && |r.value.fog| == FogCount(w)
    ensures mode == "storm" ==>
      r.value == Cleared.(rain := r.value.rain, storm := r.value.storm) &&
      |r.value.rain| == StormRainCount(w, h, rm) && r.value.storm.Some? &&
      r.value.storm.value.rm == rm && r.value.storm.value.flash == 0.0
  {
    if mode == "rain" then
      var d := Drops(RainCount(w, h, rm), w, h, false, rnd, k);
      Made(Cleared.(rain := d.value), d.k)
    else if mode == "snow" then
      var f := Flakes(SnowCount(w, h, rm), w, h, rnd, k);
      Made(Cleared.(snow := f.value), f.k)
    else if mode == "fog" then
      var yTop := Max(0.0, groundY - 170.0);
      var bandH := Max(100.0, groundY + 36.0 - yTop);
      var b := Blobs(FogCount(w), w, yTop, bandH, rnd, k);
      Made(Cleared.(fog := b.value, fogTex := true), b.k)
    else if mode == "storm" then
      var d := Drops(StormRainCount(w, h, rm), w, h, true, rnd, k);
      Made(Cleared.(rain := d.value, storm := Some(FirstStorm(rm, rnd(d.k)))), d.k + 1)
    else Made(Cleared, k)
  }

  // ---------------------------------------------------------------------
  // Lightning

  const BoltLife: real := 0.22
  const SpawnFlash: real := 0.35
  const FlashFade: real := 0.6

  /** The trunk from point `i` to `steps`: two draws per point (vertical
      jitter, then the sideways step, which shrinks toward the bottom). */
  function Trunk(i: nat, steps: nat, x: real, y0: real, y1: real, rnd: Stream, k: nat): (r: Made<seq<Point>>)
    requires 0 < steps && i <= steps + 1
    ensures |r.value| == steps + 1 - i && r.k == k + 2 * |r.value|
    decreases steps + 1 - i
  {
    if i > steps then Made([], k)
    else
      var t := i as real / steps as real;
      var ny := y0 + (y1 - y0) * t + (rnd(k) * 8.0 - 4.0);
      var jitter := (1.0 - t) * 28.0;
      var nx := x + (rnd(k + 1) * 2.0 - 1.0) * jitter * 0.6;
      var rest := Trunk(i + 1, steps, nx, y0, y1, rnd, k + 2);
      Made([Point(nx, ny)] + rest.value, rest.k)
  }

  /** The points a branch adds below `(x, y)`: each 10 to 30 px lower. */
  function BranchTail(n: nat, x: real, y: real, rnd: Stream, k: nat): (r: Made<seq<Point>>)
    ensures |r.value| == n && r.k == k + 2 * n
    ensures n > 0 ==> r.value[0].y >= y + 10.0
    ensures forall i :: 0 <= i && i + 1 < n ==> r.value[i + 1].y >= r.value[i].y + 10.0
  {
    if n == 0 then Made([], k)
    else
      var px := x + (rnd(k) * 14.0 - 7.0);
      var py := y + (Scaled(rnd(k + 1), 20.0) + 10.0);
      var rest := BranchTail(n - 1, px, py, rnd, k + 2);
      assert forall i :: 1 <= i < n ==> ([Point(px, py)] + rest.value)[i] == rest.value[i - 1];
      Made([Point(px, py)] + rest.value, rest.k)
  }

  /** A branch: starts on the trunk and only goes down. */
  predicate DownwardBranch(b: seq<Point>, trunk: seq<Point>) {
    3 <= |b| <= 5 && b[0] in trunk &&
    forall i :: 0 <= i && i + 1 < |b| ==> b[i + 1].y >= b[i].y + 10.0
  }

  /** The branch loop over trunk points `i` to `|pts| - 3`: a 25% roll per
      point, then 2 to 4 segments. */
  function Branches(i: nat, pts: seq<Point>, rnd: Stream, k: nat): (r: Made<seq<seq<Point>>>)
    ensures |r.value| <= if i + 2 < |pts| then |pts| - 2 - i else 0
    ensures forall j :: 0 <= j < |r.value| ==> DownwardBranch(r.value[j], pts)
    decreases |pts| - i
  {
    if i + 2 >= |pts| then Made([], k)
    else if rnd(k) < 0.25 then
      var len := 2 + Floor(Scaled(rnd(k + 1), 3.0));
      var tail := BranchTail(len, pts[i].x, pts[i].y, rnd, k + 2);
      var b := [pts[i]] + tail.value;
      assert forall j :: 1 <= j < |b| ==> b[j] == tail.value[j - 1];
      var rest := Branches(i + 1, pts, rnd, tail.k);
      Made([b] + rest.value, rest.k)
    else Branches(i + 1, pts, rnd, k + 1)
  }

  /** `spawnLightning`'s bolt for a view `w` wide with the ground at `gy`:
      11 to 15 trunk points, downward branches off the inner points, a life
      of 0.22 s and age 0. */
  function SpawnBolt(w: int, gy: real, rnd: Stream, k: nat): (r: Made<Bolt>)
    ensures 11 <= |r.value.pts| <= 15
    ensures |r.value.branches| <= |r.value.pts| - 4
    ensures forall j :: 0 <= j < |r.value.branches| ==> DownwardBranch(r.value.branches[j], r.value.pts)
    ensures r.value.life == BoltLife && r.value.age == 0.0
  {
    var x0 := 40.0 + rnd(k) * (w as real - 80.0);
    var y0 := 30.0 + rnd(k + 1) * 120.0;
    var y1 := gy - (140.0 + rnd(k + 2) * 100.0);
    var steps := 10 + Floor(Scaled(rnd(k + 3), 5.0));
    var trunk := Trunk(0, steps, x0, y0, y1, rnd, k + 4);
    var branches := Branches(2, trunk.value, rnd, trunk.k);
    Made(Bolt(trunk.value, branches.value, BoltLife, 0.0), branches.k)
  }

  /** Every bolt ages by `dt`. */
  function AgeBolts(bs: seq<Bolt>, dt: real): (r: seq<Bolt>)
    ensures |r| == |bs|
    ensures forall i :: 0 <= i < |bs| ==> r[i] == bs[i].(age := bs[i].age + dt)
  {
    seq(|bs|, i requires 0 <= i < |bs| => bs[i].(age := bs[i].age + dt))
  }

  predicate Expired(b: Bolt) { b.age > b.life }

  /** How many bolts at the front have outlived their life. */
  function ExpiredPrefix(bs: seq<Bolt>): (n: nat)
    ensures n <= |bs|
    ensures forall i :: 0 <= i < n ==> Expired(bs[i])
    ensures n < |bs| ==> !Expired(bs[n])
  {
    if |bs| > 0 && Expired(bs[0]) then
      var m := ExpiredPrefix(bs[1..]);
      assert forall i :: 1 <= i < |bs| ==> bs[i] == bs[1..][i - 1];
      m + 1
    else 0
  }

  /** The cull: shift bolts off the front while the first has outlived its
      life; later expired bolts wait their turn. */
  function CullBolts(bs: seq<Bolt>): (r: seq<Bolt>)
    ensures |r| <= |bs| && r == bs[|bs| - |r|..]
    ensures forall i :: 0 <= i < |bs| - |r| ==> Expired(bs[i])
    ensures |r| > 0 ==> !Expired(r[0])
  {
    bs[ExpiredPrefix(bs)..]
  }

  /** The flash fade: a positive flash drops by 0.6/s, never below 0. */
  function FadeFlash(flash: real, dt: real): (f: real)
    ensures flash > 0.0 ==> f == Max(0.0, flash - dt * FlashFade)
    ensures flash >= 0.0 ==> f >= 0.0
    ensures flash <= 0.0 ==> f == flash
  {
    if flash > 0.0 then Max(0.0, flash - dt * FlashFade) else flash
  }

  /** The gap to the next bolt: [2.5, 5), or [3, 6) under reduced motion. */
  function NextGap(rm: bool, u: Unit): (g: real)
    ensures !rm ==> 2.5 <= g < 5.0
    ensures rm ==> 3.0 <= g < 6.0
  {
    var minGap := if rm then 3.0 else 2.5;
    var maxGap := if rm then 6.0 else 5.0;
    minGap + Scaled(u, maxGap - minGap)
  }

  datatype Sky = Sky(storm: Option<Storm>, lightning: seq<Bolt>, k: nat)

  /** `advanceLightning(state, dt, canvas)` for a view `w` wide with the
      ground at `gy`. */
  function AdvanceLightning(storm: Option<Storm>, lightning: seq<Bolt>, dt: real, w: int, gy: real, rnd: Stream, k: nat)
    : (r: Sky)
    ensures storm.None? ==> r == Sky(storm, lightning, k)
    ensures storm.Some? ==> r.storm.Some? && r.storm.value.rm == storm.value.rm
    ensures storm.Some? && storm.value.flash >= 0.0 ==> r.storm.value.flash >= 0.0
    ensures storm.Some? && storm.value.nextBolt - dt > 0.0 ==>
      r.storm.value.nextBolt == storm.value.nextBolt - dt &&
      r.storm.value.flash == FadeFlash(storm.value.flash, dt) &&
      r.lightning == CullBolts(AgeBolts(lightning, dt)) && r.k == k
    ensures storm.Some? && storm.value.nextBolt - dt <= 0.0 ==>
      (if storm.value.rm then 3.0 <= r.storm.value.nextBolt < 6.0 else 2.5 <= r.storm.value.nextBolt < 5.0) &&
      r.storm.value.flash == FadeFlash(Max(storm.value.flash, SpawnFlash), dt) &&
      r.lightning == CullBolts(AgeBolts(lightning + [SpawnBolt(w, gy, rnd, k).value], dt))
  {
    match storm
    case None => Sky(storm, lightning, k)
    case Some(s) =>
      var nb := s.nextBolt - dt;
      var spawned := if nb <= 0.0 then
        var b := SpawnBolt(w, gy, rnd, k);
        Sky(Some(Storm(s.rm, Max(s.flash, SpawnFlash), NextGap(s.rm, rnd(b.k)))), lightning + [b.value], b.k + 1)
      else Sky(Some(s.(nextBolt := nb)), lightning, k);
      var st := spawned.storm.value;
      Sky(Some(st.(flash := FadeFlash(st.flash, dt))), CullBolts(AgeBolts(spawned.lightning, dt)), spawned.k)
  }

  /** Bolts leave only from the front, oldest first: the bolts kept are the
      aged list with an expired prefix removed. */
  lemma LightningLeavesFromFront(storm: Option<Storm>, lightning: seq<Bolt>, dt: real, w: int, gy: real, rnd: Stream, k: nat)
    requires storm.Some?
    ensures var r := AdvanceLightning(storm, lightning, dt, w, gy, rnd, k).lightning;
      var aged := AgeBolts(lightning + (if storm.value.nextBolt - dt <= 0.0 then [SpawnBolt(w, gy, rnd, k).value] else []), dt);
      r == aged[|aged| - |r|..] && (forall i :: 0 <= i < |aged| - |r| ==> Expired(aged[i]))
  {
    if storm.value.nextBolt - dt > 0.0 {
      assert lightning + [] == lightning;
    }
  }

  /** A fresh bolt outlives a frame shorter than its life: spawning never
      culls the bolt just spawned when `dt` is below 0.22 s. */
  lemma FreshBoltSurvives(storm: Option<Storm>, lightning: seq<Bolt>, dt: real, w: int, gy: real, rnd: Stream, k: nat)
    requires storm.Some? && storm.value.nextBolt - dt <= 0.0 && dt <= BoltLife
    ensures var r := AdvanceLightning(storm, lightning, dt, w, gy, rnd, k).lightning;
      |r| >= 1 && r[|r| - 1] == SpawnBolt(w, gy, rnd, k).value.(age := dt)
  {
    var b := SpawnBolt(w, gy, rnd, k).value;
    var aged := AgeBolts(lightning + [b], dt);
    var r := CullBolts(aged);
    assert aged[|aged| - 1] == b.(age := dt);
    assert !Expired(aged[|aged| - 1]);
  }
}
