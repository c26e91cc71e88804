/** Jumps: how fast a player may leave the ground, how high a whole jump goes, and how often the jump key
    works. */
module Jumping {
  import opened Vectors
  import opened Engine
  import opened Player
  import opened SlideMove
  import opened Movement
  import opened WalkSafety
  import opened AirAndGround
  import opened FreeFall

  // ----- speed at takeoff -----

  function BunnyLimit(env: Env): real { 1.7 * env.maxspeed }

  /** The cap keeps the direction, and the speed if it is within the limit; a faster player is left with
      exactly 0.65 of the limit. Without a top speed there is no limit. */
  lemma BunnyCap(env: Env, v: Vec) returns (scale: real)
    requires Sound(env.engine)
    ensures 0.0 <= scale <= 1.0 && PreventMegaBunnyJumping(env, v) == Scale(scale, v)
    ensures var before := Length(env.engine, v);
            var after := Length(env.engine, PreventMegaBunnyJumping(env, v));
            if 0.0 < env.maxspeed && before > BunnyLimit(env) then after == 0.65 * BunnyLimit(env) else after == before
  {
    hide Sound, Length, Scale;
    var most, speed := BunnyLimit(env), Length(env.engine, v);
    scale := 1.0;
    ScaleOne(v);
    if 0.0 < most < speed {
      scale := most / speed * 0.65;
      QuotientBounds(most, speed);
      LengthScale(env.engine, scale, v);
      assert scale * speed == 0.65 * (most / speed * speed);
    }
  }

  predicate LongJumps(env: Env, s: Mover, v: Vec) {
    Crouched(s.stance) && SuperJumps(env, s.stance.duckTime, Length(env.engine, v))
  }

  /** The velocity the cap leaves. */
  function CappedVelocity(env: Env, v: Vec): Vec { if env.bhopCap then PreventMegaBunnyJumping(env, v) else v }

  lemma ClampShrinks(v: Vec, bound: real, r: real)
    requires 0.0 <= bound && Within(Flat(v), r)
    ensures Within(Flat(Clamped(v, bound)), r)
  {
    ClampSquare(v.x, bound);
    ClampSquare(v.y, bound);
  }

  lemma ClampSquare(x: real, bound: real)
    requires 0.0 <= bound
    ensures Clamp(x, bound) * Clamp(x, bound) <= x * x
  {
    if x > bound {
      ProductMonotone(bound, bound, x, x);
    } else if x < -bound {
      ProductMonotone(bound, bound, -x, -x);
    }
  }

  /** No jump but the long jump gains level speed; with the cap on none leaves the ground at a level speed
      above 1.7 times the top speed. The long jump leaves at no more than 560. */
  lemma LeapSpeed(env: Env, s: Mover, r: real)
    requires Sound(env.engine) && 0.0 <= env.vars.maxvelocity && Within(Flat(s.velocity), r) && Within(s.view.forward, 1.0)
    ensures var long := LongJumps(env, s, CappedVelocity(env, s.velocity));
            var level := Flat(Leap(env, s).velocity);
            && (long ==> Within(level, 560.0))
            && (!long ==> Within(level, r))
            && (!long && env.bhopCap && 0.0 < env.maxspeed ==> Within(level, BunnyLimit(env)))
  {
    hide Sound, Length, PreventMegaBunnyJumping, Clamped, Within, Scale, Square, SuperJumps, Fall, Flat;
    var c := CappedVelocity(env, s.velocity);
    var v := JumpVelocity(env, Crouched(s.stance), s.stance.duckTime, s.view.forward, c);
    if LongJumps(env, s, c) {
      LongJumpLevel(env, s.view.forward, v);
      LeapLevel(env, s, v, 560.0);
    } else {
      CappedWithin(env, s.velocity, r);
      FlatWithZ(c, v.z);
      LeapLevel(env, s, v, r);
      if env.bhopCap && 0.0 < env.maxspeed {
        var scale := BunnyCap(env, s.velocity);
        LengthWithin(env.engine, c, BunnyLimit(env));
        FlatWithin(c, BunnyLimit(env));
        LeapLevel(env, s, v, BunnyLimit(env));
      }
    }
  }

  lemma FlatWithin(v: Vec, r: real)
    requires Within(v, r)
    ensures Within(Flat(v), r)
  {
    assert 0.0 <= v.z * v.z;
  }

  lemma FlatWithZ(v: Vec, z: real)
    ensures Flat(WithZ(v, z)) == Flat(v)
  {}

  lemma FlatScale(k: real, v: Vec)
    ensures Flat(Scale(k, v)) == Scale(k, Flat(v))
  {}

  /** The cap takes level speed away in proportion. */
  lemma CappedWithin(env: Env, v: Vec, r: real)
    requires Sound(env.engine) && Within(Flat(v), r)
    ensures Within(Flat(CappedVelocity(env, v)), r)
  {
    hide Sound, Scale, Square, Flat, PreventMegaBunnyJumping;
    var scale := BunnyCap(env, v);
    FlatScale(scale, v);
    SquareScale(scale, Flat(v));
    SquareNonNegative(Flat(v));
    ProductMonotone(scale, scale, 1.0, 1.0);
    ProductMonotone(scale * scale, Square(Flat(v)), 1.0, Square(Flat(v)));
  }

  lemma LengthWithin(e: Callbacks, v: Vec, r: real)
    requires Sound(e) && Length(e, v) <= r
    ensures Within(v, r)
  {
    hide Sound, Length, Square;
    LengthSquared(e, v);
    ProductMonotone(Length(e, v), Length(e, v), r, r);
  }

  lemma LongJumpLevel(env: Env, forward: Vec, v: Vec)
    requires Within(forward, 1.0) && v.x == forward.x * 350.0 * 1.6 && v.y == forward.y * 350.0 * 1.6
    ensures Within(Flat(v), 560.0)
  {
    var x, y := forward.x, forward.y;
    assert 0.0 <= forward.z * forward.z;
    assert v.x * v.x == 313600.0 * (x * x) && v.y * v.y == 313600.0 * (y * y);
  }

  /** Half a frame of gravity and the speed limit do not add level speed. */
  lemma LeapLevel(env: Env, s: Mover, v: Vec, r: real)
    requires 0.0 <= env.vars.maxvelocity && Within(Flat(v), r)
    ensures Within(Flat(SecondHalf(env, s.waterjumptime, v)), r)
  {
    hide Within, Clamped;
    assert Flat(Fall(env, v)) == Flat(v);
    ClampShrinks(Fall(env, v), env.vars.maxvelocity, r);
  }

  /** The long jump takes the module, the duck key, a duck not long over, and a speed between 50 and 500. */
  lemma LongJumpsIff(env: Env, s: Mover, v: Vec)
    requires Sound(env.engine)
    ensures LongJumps(env, s, v) <==>
              && (s.stance.inDuck || s.stance.ducking) && env.canSuperJump && env.cmd.duck && s.stance.duckTime > 0.0
              && 2500.0 < Square(v) < 250000.0
  {
    hide Sound, Length, Square;
    LengthSquared(env.engine, v);
    var speed := Length(env.engine, v);
    if 50.0 < speed {
      SquareStrict(50.0, speed);
    } else {
      ProductMonotone(speed, speed, 50.0, 50.0);
    }
    if speed < 500.0 {
      SquareStrict(speed, 500.0);
    } else {
      ProductMonotone(500.0, 500.0, speed, speed);
    }
  }

  // ----- a whole jump -----

  /** The jump key makes a player who stands on something, out of deep water, leave it, unless it was down
      before. */
  predicate Jumps(env: Env, d: Mover) {
    env.cmd.jump && !env.dead && d.onground != -1 && d.waterlevel < 2 && d.waterjumptime == 0.0 && !d.keys.oldJump
  }

  function TakeoffFrom(env: Env, d: Mover): Vec {
    CappedVelocity(env, FirstHalf(env, d.velocity, d.basevelocity))
  }

  /** The velocity at takeoff, before gravity. */
  function Takeoff(env: Env, d: Mover): Vec {
    JumpVelocity(env, Crouched(d.stance), d.stance.duckTime, d.view.forward, TakeoffFrom(env, d))
  }

  predicate JumpsFreely(env: Env, d: Mover) {
    && Jumps(env, d) && d.basevelocity == ORIGIN && d.keys.forwardmove == 0.0 && d.keys.sidemove == 0.0
    && Leaves(env, d.stance.usehull, d.origin, Takeoff(env, d))
  }

  /** The frame of a jump with nothing in the way moves the player as if falling freely from the takeoff. */
  lemma JumpFrame(env: Env, s: Mover)
    requires Sound(env.engine) && JumpsFreely(env, Ready(env, s))
    ensures var d := Ready(env, s);
            var s' := PlayerMove(env, s);
            var mid := MidVelocity(env, Takeoff(env, d));
            && s'.origin == Add(d.origin, Scale(env.frametime, mid))
            && s'.velocity == MidVelocity(env, mid)
            && Drifts(s') && s'.onground == -1 && s'.stance == d.stance
  {
    hide Sound, Ready, Step, JumpVelocity, FirstHalf, SecondHalf, MidVelocity, PreventMegaBunnyJumping;
    hide Add, Scale, InTheAir, Free, Clampless;
    var d := Ready(env, s);
    var g := AddCorrectGravity(env, d);
    var v := Takeoff(env, d);
    Halves(env, v);
    StepDrifts(env, g, v);
  }

  /** An uncapped jump keeps the level velocity; the long jump goes at 560 where the player looks. */
  lemma TakeoffDirection(env: Env, d: Mover)
    requires Limited(d.velocity, env.vars.maxvelocity) && d.basevelocity == ORIGIN
    ensures var long := LongJumps(env, d, TakeoffFrom(env, d));
            && (long ==> Flat(Takeoff(env, d)) == Scale(560.0, Flat(d.view.forward)))
            && (!long && !env.bhopCap ==> Flat(Takeoff(env, d)) == Flat(d.velocity))
  {
    hide Length, PreventMegaBunnyJumping, HalfGravity, SuperJumps;
  }

  /** The height of a jump under gravity 800. */
  function JumpTop(env: Env, d: Mover): real { if LongJumps(env, d, TakeoffFrom(env, d)) then 56.0 else 45.0 }

  /** A jump and whatever frames of falling come after it stay on one parabola, from the place and with the
      velocity of the takeoff, however the time is divided. */
  lemma JumpPath(env: Env, s: Mover, envs: seq<Env>, hulls: set<int>, g: real)
    requires Sound(env.engine) && JumpsFreely(env, Ready(env, s)) && FrameGravity(env) == g
    requires FitsIn(Ready(env, s).stance, hulls)
    requires var d := Ready(env, s);
             var v := Takeoff(env, d);
             FreePath(envs, hulls, Crouched(d.stance), Parabola(d.origin, v, g, env.frametime), Slope(v, g, env.frametime), g)
    ensures var d := Ready(env, s);
            var r := Run(envs, PlayerMove(env, s));
            var time := env.frametime + Total(envs);
            r.origin == Parabola(d.origin, Takeoff(env, d), g, time) && r.velocity == Slope(Takeoff(env, d), g, time)
  {
    hide Sound, Ready, JumpsFreely, Takeoff, FreePath, FitsIn, Crouched, Drifts, PlayerMove, Run, Parabola, Slope;
    hide FrameGravity, MidVelocity, Add, Scale;
    var d := Ready(env, s);
    var p, v := d.origin, Takeoff(env, d);
    JumpFrame(env, s);
    ParabolaStart(p, v, g);
    FallStep(env, p, v, g, 0.0);
    FreeFallExact(envs, PlayerMove(env, s), hulls, g);
    ParabolaJoins(p, v, g, env.frametime, Total(envs));
  }

  lemma ParabolaJoins(p: Vec, v: Vec, g: real, a: real, b: real)
    ensures Parabola(Parabola(p, v, g, a), Slope(v, g, a), g, b) == Parabola(p, v, g, a + b)
    ensures Slope(Slope(v, g, a), g, b) == Slope(v, g, a + b)
  {
    hide Sunk, Coast;
    CoastJoins(p.x, 0.0, v.x, 0.0, a, b);
    CoastJoins(p.y, 0.0, v.y, 0.0, a, b);
    CoastJoins(p.z, Sunk(g, a), v.z, g * a, a, b);
    SunkJoins(g, a, b);
    assert g * (a + b) == g * a + g * b;
    var l, r := Parabola(Parabola(p, v, g, a), Slope(v, g, a), g, b), Parabola(p, v, g, a + b);
    assert l.x == r.x;
    assert l.y == r.y;
    assert l.z == Coast(Coast(p.z, v.z, a) - Sunk(g, a), v.z - g * a, b) - Sunk(g, b);
    assert l.z == r.z;
  }

  lemma CoastJoins(p: real, sunk: real, v: real, loss: real, a: real, b: real)
    ensures Coast(Coast(p, v, a) - sunk, v - loss, b) == Coast(p, v, a + b) - sunk - loss * b
  {
    assert (v - loss) * b == v * b - loss * b;
    assert v * (a + b) == v * a + v * b;
  }

  lemma SunkJoins(g: real, a: real, b: real)
    ensures Sunk(g, a + b) == Sunk(g, a) + Sunk(g, b) + (g * a) * b
  {
    var c, d := g * a, g * b;
    assert d * a == c * b;
    assert g * (a + b) * (a + b) == c * a + c * b + d * a + d * b;
  }

  /** Under gravity 800 a jump rises 45 units over where it started, or 56 if it is the long jump, and no
      more; in general, as many times more as gravity is less. It is there exactly when gravity has used up
      the takeoff speed. */
  lemma JumpHeight(env: Env, s: Mover, envs: seq<Env>, hulls: set<int>, g: real)
    requires Sound(env.engine) && JumpsFreely(env, Ready(env, s)) && FrameGravity(env) == g && 0.0 < g
    requires FitsIn(Ready(env, s).stance, hulls)
    requires var d := Ready(env, s);
             var v := Takeoff(env, d);
             FreePath(envs, hulls, Crouched(d.stance), Parabola(d.origin, v, g, env.frametime), Slope(v, g, env.frametime), g)
    ensures var d := Ready(env, s);
            var rise := Run(envs, PlayerMove(env, s)).origin.z - d.origin.z;
            var top := JumpTop(env, d) * 800.0 / g;
            && rise <= top
            && (rise == top <==> Takeoff(env, d).z == g * (env.frametime + Total(envs)))
  {
    hide Sound, Ready, JumpsFreely, FreePath, FitsIn, Crouched, PlayerMove, Run, Slope, LongJumps, TakeoffFrom;
    hide Sunk, Coast;
    var d := Ready(env, s);
    var v := Takeoff(env, d);
    JumpPath(env, s, envs, hulls, g);
    TakeoffSpeed(env, d);
    Peak(d.origin.z, v.z, JumpTop(env, d), g, env.frametime + Total(envs));
  }

  lemma TakeoffSpeed(env: Env, d: Mover)
    requires Sound(env.engine)
    ensures Takeoff(env, d).z * Takeoff(env, d).z == 1600.0 * JumpTop(env, d)
  {
    hide Length, TakeoffFrom;
    assert SqrtSound(env.engine, 2.0 * 800.0 * 56.0) && SqrtSound(env.engine, 2.0 * 800.0 * 45.0);
  }

  lemma ProductStrict(g: real, a: real, b: real)
    requires 0.0 < g && a < b
    ensures g * a < g * b
  {
    assert 0.0 < g * (b - a);
  }

  /** The highest point of the parabola. */
  lemma Peak(start: real, up: real, height: real, g: real, time: real)
    requires 0.0 < g && up * up == 1600.0 * height
    ensures Coast(start, up, time) - Sunk(g, time) - start <= height * 800.0 / g
    ensures Coast(start, up, time) - Sunk(g, time) - start == height * 800.0 / g <==> up == g * time
  {
    var loss := g * time;
    var rise := up * time - loss * time / 2.0;
    assert Coast(start, up, time) - Sunk(g, time) - start == rise;
    var d := up - loss;
    assert 0.0 <= d * d;
    assert d * d == up * up - 2.0 * (up * loss) + loss * loss;
    assert up * loss == g * (up * time) && loss * loss == g * (loss * time);
    assert d * d == 1600.0 * height - 2.0 * (g * rise);
    var top := height * 800.0 / g;
    assert g * top == height * 800.0;
    if top < rise {
      ProductStrict(g, top, rise);
    }
    if up == loss {
      assert g * (rise - top) == 0.0;
    } else if rise == top {
      assert d * d == 0.0;
      SquareZero(d);
    }
  }
}
