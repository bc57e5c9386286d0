/** Steam from the roof vents of the front tall buildings and the dust puffs
    of a landing: two bounded particle buffers, each pushed by a spawner
    and aged and filtered by an updater. */
module Effects {
  import opened Num
  import opened Utils
  import Scenery

  /** A steam or puff particle `{ x, y, r, a, vx, vy, life }`. */
  datatype Particle = Particle(x: real, y: real, r: real, a: real, vx: real, vy: real, life: real)

  /** A particle the filters keep. */
  predicate Alive(p: Particle) { p.life > 0.0 && p.a > 0.0 }

  /** `a` is `b` with some elements left out, order kept. */
  predicate SubseqOf<T(==)>(a: seq<T>, b: seq<T>)
    decreases |b|
  {
    if |a| == 0 then true
    else if |b| == 0 then false
    else if a[0] == b[0] then SubseqOf(a[1..], b[1..])
    else SubseqOf(a, b[1..])
  }

  /** Push `p`, first dropping the oldest element when more than `cap`
      are held (`if (xs.length > cap) xs.shift(); xs.push(p)`). */
  function PushBounded<T>(xs: seq<T>, p: T, cap: nat): (r: seq<T>)
    ensures |xs| <= cap + 1 ==> |r| <= cap + 1
    ensures |r| == if |xs| > cap then |xs| else |xs| + 1
    ensures r[|r| - 1] == p
    ensures r[..|r| - 1] == if |xs| > cap then xs[1..] else xs
  {
    var kept := if |xs| > cap then xs[1..] else xs;
    assert (kept + [p])[..|kept|] == kept;
    kept + [p]
  }

  /** The filter `xs.filter(p => p.life > 0 && p.a > 0)`. */
  function Survivors(xs: seq<Particle>): (r: seq<Particle>)
    ensures |r| <= |xs|
    ensures forall i :: 0 <= i < |r| ==> Alive(r[i])
    ensures forall p :: p in xs && Alive(p) ==> p in r
    ensures forall p :: p in r ==> p in xs
    ensures SubseqOf(r, xs)
  {
    if |xs| == 0 then []
    else
      var rest := Survivors(xs[1..]);
      assert forall p :: p in xs[1..] ==> p in xs;
      if Alive(xs[0]) then
        assert ([xs[0]] + rest)[1..] == rest;
        [xs[0]] + rest
      else
        SkipHeadKeepsSubseq(rest, xs);
        rest
  }

  /** A subsequence of the tail is a subsequence of the whole. */
  lemma {:induction false} SkipHeadKeepsSubseq<T>(a: seq<T>, b: seq<T>)
    requires |b| > 0 && SubseqOf(a, b[1..])
    ensures SubseqOf(a, b)
    decreases |b|, 1
  {
    if |a| > 0 && a[0] == b[0] {
      SubseqWeaken(a, b[1..]);
    }
  }

  /** Dropping the head of a subsequence leaves a subsequence. */
  lemma {:induction false} SubseqWeaken<T>(a: seq<T>, c: seq<T>)
    requires |a| > 0 && SubseqOf(a, c)
    ensures SubseqOf(a[1..], c)
    decreases |c| + 1, 0
  {
    if a[0] == c[0] {
      SkipHeadKeepsSubseq(a[1..], c);
    } else {
      SubseqWeaken(a, c[1..]);
      SkipHeadKeepsSubseq(a[1..], c);
    }
  }

  /** Applying the filter twice is applying it once. */
  lemma {:induction false} SurvivorsIdempotent(xs: seq<Particle>)
    ensures Survivors(Survivors(xs)) == Survivors(xs)
  {
    if |xs| > 0 {
      SurvivorsIdempotent(xs[1..]);
      var rest := Survivors(xs[1..]);
      if Alive(xs[0]) {
        assert ([xs[0]] + rest)[1..] == rest;
      }
    }
  }

  /** The filter decides each particle on its own and keeps the order:
      filtering a concatenation is filtering each part. */
  lemma {:induction false} SurvivorsAppend(a: seq<Particle>, b: seq<Particle>)
    ensures Survivors(a + b) == Survivors(a) + Survivors(b)
    decreases |a|
  {
    if |a| == 0 {
      assert a + b == b;
    } else {
      assert (a + b)[0] == a[0] && (a + b)[1..] == a[1..] + b;
      SurvivorsAppend(a[1..], b);
    }
  }

  /** One particle survives the filter iff it is alive. */
  lemma SurvivorsSingle(p: Particle)
    ensures Survivors([p]) == if Alive(p) then [p] else []
  {}

  // ---------------------------------------------------------------------
  // Steam

  const SteamCap: nat := 110
  const EmitMin: real := 1.2
  const EmitSpread: real := 1.6
  const SteamLife: real := 1.8

  /** A steam puff leaving a vent at `dx` on building `b` (draws for vx, vy). */
  function SteamParticle(b: Scenery.Building, dx: real, u1: Unit, u2: Unit): (p: Particle)
    ensures p.x == b.x + dx + 4.0 && p.y == b.y - 6.0 && p.life == SteamLife && Alive(p)
  {
    Particle(b.x + dx + 4.0, b.y - 6.0, 3.0, 0.45, -8.0 + u1 * 16.0, -18.0 - u2 * 14.0, SteamLife)
  }

  /** One prop after one `emitSteam` step, the buffer and the cursor. */
  datatype PropStep = PropStep(prop: Scenery.RoofProp, steam: seq<Particle>, k: nat)

  /** A vent counts its timer down and, at or below 0, restarts it in
      [1.2, 2.8) and emits a puff; a fan turns by `rs` (or 1.2) per second;
      other props are untouched. */
  function StepProp(b: Scenery.Building, p: Scenery.RoofProp, steam: seq<Particle>, dt: real, rnd: Stream, k: nat)
    : (r: PropStep)
    ensures |steam| <= SteamCap + 1 ==> |r.steam| <= SteamCap + 1
    ensures r.prop.dx == p.dx && Scenery.PropDy(r.prop) == Scenery.PropDy(p)
    ensures p.VentProp? ==> r.prop.VentProp?
    ensures p.VentProp? && p.emit - dt <= 0.0 ==>
      (EmitMin <= r.prop.emit < EmitMin + EmitSpread && r.k == k + 3 &&
       r.steam == PushBounded(steam, SteamParticle(b, p.dx, rnd(k + 1), rnd(k + 2)), SteamCap))
    ensures p.VentProp? && p.emit - dt > 0.0 ==> r.prop.emit == p.emit - dt && r.steam == steam && r.k == k
    ensures p.Fan? ==> r.prop == p.(rot := p.rot + (if p.rs == 0.0 then 1.2 else p.rs) * dt) && r.steam == steam
    ensures !p.VentProp? && !p.Fan? ==> r == PropStep(p, steam, k)
  {
    match p
    case VentProp(dx, emit) =>
      var e := emit - dt;
      if e <= 0.0 then
        var np := SteamParticle(b, dx, rnd(k + 1), rnd(k + 2));
        PropStep(Scenery.VentProp(dx, EmitMin + Scaled(rnd(k), EmitSpread)), PushBounded(steam, np, SteamCap), k + 3)
      else PropStep(Scenery.VentProp(dx, e), steam, k)
    case Fan(dx, rot, rs) =>
      PropStep(Scenery.Fan(dx, rot + (if rs == 0.0 then 1.2 else rs) * dt, rs), steam, k)
    case _ => PropStep(p, steam, k)
  }

  /** The props of one building from index `i`. */
  datatype RoofStep = RoofStep(roof: seq<Scenery.RoofProp>, steam: seq<Particle>, k: nat)

  function StepRoof(b: Scenery.Building, props: seq<Scenery.RoofProp>, steam: seq<Particle>, dt: real, rnd: Stream, k: nat)
    : (r: RoofStep)
    ensures |r.roof| == |props|
    ensures |steam| <= SteamCap + 1 ==> |r.steam| <= SteamCap + 1
    ensures forall i :: 0 <= i < |props| ==>
      r.roof[i].dx == props[i].dx && (props[i].VentProp? <==> r.roof[i].VentProp?)
    decreases |props|
  {
    if |props| == 0 then RoofStep([], steam, k)
    else
      var s := StepProp(b, props[0], steam, dt, rnd, k);
      var rest := StepRoof(b, props[1..], s.steam, dt, rnd, s.k);
      assert forall i :: 1 <= i < |props| ==> props[i] == props[1..][i - 1] && ([s.prop] + rest.roof)[i] == rest.roof[i - 1];
      RoofStep([s.prop] + rest.roof, rest.steam, rest.k)
  }

  datatype SteamWorld = SteamWorld(frontTall: seq<Scenery.Building>, steam: seq<Particle>, k: nat)

  /** `emitSteam(state, dt)` over the front tall buildings: each keeps its
      place and props (timers and fan angles aside), and the steam buffer
      stays within 111 particles. */
  function EmitSteam(front: seq<Scenery.Building>, steam: seq<Particle>, dt: real, rnd: Stream, k: nat)
    : (r: SteamWorld)
    ensures |r.frontTall| == |front|
    ensures |steam| <= SteamCap + 1 ==> |r.steam| <= SteamCap + 1
    ensures forall i :: 0 <= i < |front| ==>
      r.frontTall[i] == front[i].(roof := r.frontTall[i].roof) && |r.frontTall[i].roof| == |front[i].roof|
    decreases |front|
  {
    if |front| == 0 then SteamWorld([], steam, k)
    else
      var b := front[0];
      var s := StepRoof(b, b.roof, steam, dt, rnd, k);
      var rest := EmitSteam(front[1..], s.steam, dt, rnd, s.k);
      var b' := b.(roof := s.roof);
      RoofsCons(front, b', rest.frontTall);
      SteamWorld([b'] + rest.frontTall, rest.steam, rest.k)
  }

  /** The inductive step of `EmitSteam`: only roofs change, and each keeps
      its length. */
  lemma RoofsCons(front: seq<Scenery.Building>, b': Scenery.Building, rest: seq<Scenery.Building>)
    requires |front| > 0 && |rest| == |front| - 1
    requires b' == front[0].(roof := b'.roof) && |b'.roof| == |front[0].roof|
    requires forall i :: 0 <= i < |front| - 1 ==>
      rest[i] == front[i + 1].(roof := rest[i].roof) && |rest[i].roof| == |front[i + 1].roof|
    ensures var r := [b'] + rest;
      forall i :: 0 <= i < |front| ==> r[i] == front[i].(roof := r[i].roof) && |r[i].roof| == |front[i].roof|
  {
    var r := [b'] + rest;
    assert forall i :: 1 <= i < |front| ==> r[i] == rest[i - 1];
  }

  /** One step of a steam particle: drift, grow by 4/s, fade by 0.18/s. */
  function AgeSteam(s: Particle, dt: real): (r: Particle)
    ensures r.life == s.life - dt && r.a == s.a - 0.18 * dt && r.r == s.r + 4.0 * dt
  {
    Particle(s.x + s.vx * dt, s.y + s.vy * dt, s.r + 4.0 * dt, s.a - 0.18 * dt, s.vx, s.vy, s.life - dt)
  }

  /** `updateSteam(state, dt)`: age every particle, keep the live ones in
      order. */
  function UpdateSteam(steam: seq<Particle>, dt: real): (r: seq<Particle>)
    ensures |r| <= |steam|
    ensures forall i :: 0 <= i < |r| ==> Alive(r[i])
    ensures forall i :: 0 <= i < |steam| && Alive(AgeSteam(steam[i], dt)) ==> AgeSteam(steam[i], dt) in r
    ensures SubseqOf(r, seq(|steam|, i requires 0 <= i < |steam| => AgeSteam(steam[i], dt)))
  {
    var aged := seq(|steam|, i requires 0 <= i < |steam| => AgeSteam(steam[i], dt));
    var r := Survivors(aged);
    forall i | 0 <= i < |steam| && Alive(AgeSteam(steam[i], dt)) ensures AgeSteam(steam[i], dt) in r {
      assert aged[i] == AgeSteam(steam[i], dt) && aged[i] in aged;
    }
    r
  }

  /** Steam is updated particle by particle, in order: updating a
      concatenation is updating each part. */
  lemma UpdateSteamAppend(a: seq<Particle>, b: seq<Particle>, dt: real)
    ensures UpdateSteam(a + b, dt) == UpdateSteam(a, dt) + UpdateSteam(b, dt)
  {
    var ag := (xs: seq<Particle>) => seq(|xs|, i requires 0 <= i < |xs| => AgeSteam(xs[i], dt));
    assert ag(a + b) == ag(a) + ag(b);
    SurvivorsAppend(ag(a), ag(b));
  }

  /** One steam particle is kept, aged, iff it is still alive once aged. */
  lemma UpdateSteamSingle(p: Particle, dt: real)
    ensures UpdateSteam([p], dt) == if Alive(AgeSteam(p, dt)) then [AgeSteam(p, dt)] else []
  {}

  // ---------------------------------------------------------------------
  // Puffs

  const PuffCap: nat := 38
  const Pi: real := 3.141592653589793

  /** `Math.cos` and `Math.sin`, supplied by the host. */
  datatype Trig = Trig(cos: real -> real, sin: real -> real)

  /** One landing puff (six draws: angle, speed, x, y, radius, life). */
  function Puff(x: real, y: real, intensity: real, trig: Trig, rnd: Stream, k: nat): (p: Particle)
    ensures p.a == 0.5 && 0.6 <= p.life < 1.0 && Alive(p)
    ensures x - 4.0 <= p.x < x + 4.0 && y - 1.0 <= p.y < y + 1.0
  {
    var ang := -Pi / 2.0 + rnd(k) * Pi / 2.0;
    var sp := 30.0 + rnd(k + 1) * 60.0 + intensity;
    Particle(x + (Scaled(rnd(k + 2), 8.0) - 4.0), y + (Scaled(rnd(k + 3), 2.0) - 1.0), 2.0 + rnd(k + 4) * 3.0, 0.5,
             trig.cos(ang) * sp * 0.5, trig.sin(ang) * sp * 0.4, 0.6 + Scaled(rnd(k + 5), 0.4))
  }

  datatype Puffs = Puffs(puffs: seq<Particle>, k: nat)

  /** `spawnPuffs(state, x, y, intensity, reduceMotion)`: nothing under
      reduced motion; otherwise three puffs pushed, each after dropping the
      oldest when more than 38 are held. */
  function SpawnPuffs(puffs: seq<Particle>, x: real, y: real, intensity: real, reduceMotion: bool,
                      trig: Trig, rnd: Stream, k: nat): (r: Puffs)
    ensures reduceMotion ==> r == Puffs(puffs, k)
    ensures !reduceMotion ==> |r.puffs| == MaxInt(MinInt(|puffs| + 3, PuffCap + 1), |puffs|)
    ensures !reduceMotion ==> r.k == k + 18
    ensures !reduceMotion ==>
      (|r.puffs| >= 3 &&
       r.puffs[|r.puffs| - 3..] == [Puff(x, y, intensity, trig, rnd, k), Puff(x, y, intensity, trig, rnd, k + 6),
                                    Puff(x, y, intensity, trig, rnd, k + 12)])
    ensures |puffs| <= PuffCap + 1 ==> |r.puffs| <= PuffCap + 1
  {
    if reduceMotion then Puffs(puffs, k)
    else
      var p1 := Puff(x, y, intensity, trig, rnd, k);
      var p2 := Puff(x, y, intensity, trig, rnd, k + 6);
      var p3 := Puff(x, y, intensity, trig, rnd, k + 12);
      var s1 := PushBounded(puffs, p1, PuffCap);
      var s2 := PushBounded(s1, p2, PuffCap);
      var s3 := PushBounded(s2, p3, PuffCap);
      LastThreePushed(puffs, s1, s2, s3, p1, p2, p3);
      Puffs(s3, k + 18)
  }

  lemma LastThreePushed<T>(s0: seq<T>, s1: seq<T>, s2: seq<T>, s3: seq<T>, p1: T, p2: T, p3: T)
    requires s1 == PushBounded(s0, p1, PuffCap) && s2 == PushBounded(s1, p2, PuffCap) && s3 == PushBounded(s2, p3, PuffCap)
    ensures |s3| >= 3 && s3[|s3| - 3..] == [p1, p2, p3]
  {
    assert s2[|s2| - 1] == p2 && s2[|s2| - 2] == p1;
    assert s3[|s3| - 1] == p3 && s3[|s3| - 2] == p2 && s3[|s3| - 3] == p1;
  }

  /** One step of a puff: drift, fall back by 12/s², grow by 14/s, fade by 1.2/s. */
  function AgePuff(p: Particle, dt: real): (r: Particle)
    ensures r.life == p.life - dt && r.a == p.a - 1.2 * dt && r.r == p.r + 14.0 * dt && r.vy == p.vy - 12.0 * dt
  {
    Particle(p.x + p.vx * dt, p.y + p.vy * dt, p.r + 14.0 * dt, p.a - 1.2 * dt, p.vx, p.vy - 12.0 * dt, p.life - dt)
  }

  /** `updatePuffs(state, dt)`: age every puff, keep the live ones in order. */
  function UpdatePuffs(puffs: seq<Particle>, dt: real): (r: seq<Particle>)
    ensures |r| <= |puffs|
    ensures forall i :: 0 <= i < |r| ==> Alive(r[i])
    ensures forall i :: 0 <= i < |puffs| && Alive(AgePuff(puffs[i], dt)) ==> AgePuff(puffs[i], dt) in r
    ensures SubseqOf(r, seq(|puffs|, i requires 0 <= i < |puffs| => AgePuff(puffs[i], dt)))
  {
    var aged := seq(|puffs|, i requires 0 <= i < |puffs| => AgePuff(puffs[i], dt));
    var r := Survivors(aged);
    forall i | 0 <= i < |puffs| && Alive(AgePuff(puffs[i], dt)) ensures AgePuff(puffs[i], dt) in r {
      assert aged[i] == AgePuff(puffs[i], dt) && aged[i] in aged;
    }
    r
  }

  /** Puffs are updated one by one, in order: updating a concatenation is
      updating each part. */
  lemma UpdatePuffsAppend(a: seq<Particle>, b: seq<Particle>, dt: real)
    ensures UpdatePuffs(a + b, dt) == UpdatePuffs(a, dt) + UpdatePuffs(b, dt)
  {
    var ag := (xs: seq<Particle>) => seq(|xs|, i requires 0 <= i < |xs| => AgePuff(xs[i], dt));
    assert ag(a + b) == ag(a) + ag(b);
    SurvivorsAppend(ag(a), ag(b));
  }

  /** One puff is kept, aged, iff it is still alive once aged. */
  lemma UpdatePuffsSingle(p: Particle, dt: real)
    ensures UpdatePuffs([p], dt) == if Alive(AgePuff(p, dt)) then [AgePuff(p, dt)] else []
  {}
}
