/** How fast the player can get: acceleration in the air, and friction on the ground. */
module AirAndGround {
  import opened Vectors
  import opened Engine
  import opened Player
  import opened SlideMove
  import opened SlideBounds
  import opened Movement

  // ----- acceleration -----

  /** With speed c already in the wished direction, adding a <= target - c there adds at most target
      squared to the speed squared. */
  lemma PushGain(a: real, c: real, target: real)
    requires 0.0 <= a && a + c <= target && 0.0 <= target
    ensures 2.0 * a * c + a * a <= target * target
  {
    assert 2.0 * a * c + a * a == (a + c) * (a + c) - c * c;
    if 0.0 <= a + c {
      ProductMonotone(a + c, a + c, target, target);
      assert 0.0 <= c * c;
    } else {
      ProductMonotone(-(a + c), -(a + c), -c, -c);
      assert 0.0 <= target * target;
    }
  }

  /** Accelerating up to a target speed in some direction adds at most the square of the target to the
      speed squared, however large the push. */
  lemma PushedSpeed(v: Vec, wishdir: Vec, target: real, push: real)
    requires wishdir == ORIGIN || Square(wishdir) == 1.0
    requires 0.0 <= target && 0.0 <= push
    ensures Square(Pushed(v, wishdir, target, push)) <= Square(v) + target * target
  {
    hide Square, Dot, Add, Scale;
    var c := Dot(v, wishdir);
    var a := Min(push, target - c);
    SquareOrigin();
    ZeroDirection(v);
    assert 0.0 <= target * target;
    if target - c > 0.0 {
      PushSpeed(v, wishdir, a);
      PushGain(a, c, target);
    }
  }

  /** The speed in the wished direction ends at the target, or short of it by what the push lacks, and is
      never taken away; nothing changes across that direction. */
  lemma PushedAlong(v: Vec, w: Vec, target: real, push: real)
    requires Square(w) == 1.0
    ensures var c := Dot(v, w);
            && Dot(Pushed(v, w, target, push), w) == (if target <= c then c else Min(c + push, target))
            && forall u: Vec :: Dot(u, w) == 0.0 ==> Dot(Pushed(v, w, target, push), u) == Dot(v, u)
  {
    var c := Dot(v, w);
    var a := if target <= c then 0.0 else Min(push, target - c);
    AddScaleDot(v, w, a, w);
    assert a * 1.0 == a;
    assert Pushed(v, w, target, push) == (if target <= c then v else Add(v, Scale(a, w)));
    forall u: Vec | Dot(u, w) == 0.0 ensures Dot(Pushed(v, w, target, push), u) == Dot(v, u) {
      AddScaleDot(v, w, a, u);
      assert a * Dot(w, u) == a * 0.0;
    }
  }

  lemma AddScaleDot(v: Vec, w: Vec, a: real, u: Vec)
    ensures Dot(Add(v, Scale(a, w)), u) == Dot(v, u) + a * Dot(w, u)
    ensures Dot(w, u) == Dot(u, w)
  {}

  lemma ZeroDirection(v: Vec)
    ensures Dot(v, ORIGIN) == 0.0
    ensures forall a: real :: Add(v, Scale(a, ORIGIN)) == v
  {}

  /** Pushes and limits do not run backwards. */
  predicate Forwards(env: Env) {
    0.0 <= env.maxspeed && 0.0 <= env.frametime && 0.0 <= env.friction && 0.0 <= env.vars.airaccelerate
  }

  lemma PushNonNegative(env: Env, target: real, accel: real)
    requires 0.0 <= env.frametime && 0.0 <= env.friction && 0.0 <= target && 0.0 <= accel
    ensures 0.0 <= AccelPush(env, target, accel)
  {
    ProductMonotone(0.0, 0.0, accel, env.frametime);
    ProductMonotone(0.0, 0.0, accel * env.frametime, target);
    ProductMonotone(0.0, 0.0, accel * env.frametime * target, env.friction);
  }

  lemma AirAccelerateSpeed(env: Env, s: Mover, wishdir: Vec, wishspeed: real)
    requires Forwards(env) && 0.0 <= wishspeed && (wishdir == ORIGIN || Square(wishdir) == 1.0)
    ensures Square(AirAccelerate(env, s, wishdir, wishspeed, env.vars.airaccelerate).velocity) <= Square(s.velocity) + 900.0
  {
    hide Square, Pushed, AccelPush;
    var target := Min(wishspeed, 30.0);
    var push := AccelPush(env, wishspeed, env.vars.airaccelerate);
    PushNonNegative(env, wishspeed, env.vars.airaccelerate);
    PushedSpeed(s.velocity, wishdir, target, push);
    ProductMonotone(target, target, 30.0, 30.0);
  }

  /** A move in the air without a base velocity adds at most 900 to the speed squared. */
  lemma AirMoveSpeed(env: Env, s: Mover)
    requires Sound(env.engine) && TameBounce(env) && Forwards(env) && s.basevelocity == ORIGIN
    ensures Square(AirMove(env, s).velocity) <= Square(s.velocity) + 900.0
    ensures AirMove(env, s).basevelocity == ORIGIN
  {
    hide Sound, TameBounce, Forwards, FlyMove, Square, Pushed, WishVelocity, FlattenView, Length, Normalize;
    var v := s.(view := FlattenView(env, s.view));
    var wish := WishVelocity(v.view, s.keys);
    var wishdir := Normalize(env.engine, wish);
    var wishspeed := Min(Length(env.engine, wish), env.maxspeed);
    NormalizeSound(env.engine, wish);
    WishSpeedNonNegative(env, wish);
    AirAccelerateSpeed(env, v, wishdir, wishspeed);
    var a := AirAccelerate(env, v, wishdir, wishspeed, env.vars.airaccelerate);
    AddZero(a.velocity);
    FlyMoveKeepsSpeed(env, AddBase(a));
    FlyMoveKeepsBase(env, AddBase(a));
  }

  lemma FlyMoveKeepsBase(env: Env, s: Mover)
    ensures FlyMove(env, s).basevelocity == s.basevelocity
  {
    hide WholeSlide;
  }

  lemma AddZero(v: Vec)
    ensures Add(v, ORIGIN) == v
  {}

  lemma WishSpeedNonNegative(env: Env, wish: Vec)
    requires Sound(env.engine) && Forwards(env)
    ensures 0.0 <= Min(Length(env.engine, wish), env.maxspeed)
  {
    LengthSquared(env.engine, wish);
  }

  /** The player after a number of air moves in a row. */
  function AirMoves(envs: seq<Env>, s: Mover): Mover {
    if envs == [] then s else AirMove(envs[|envs| - 1], AirMoves(envs[..|envs| - 1], s))
  }

  /** However the player strafes, n air moves in a row add at most 900 n to the speed squared. */
  lemma {:induction false} AirMovesSpeed(envs: seq<Env>, s: Mover)
    requires s.basevelocity == ORIGIN
    requires forall i :: 0 <= i < |envs| ==> Sound(envs[i].engine) && TameBounce(envs[i]) && Forwards(envs[i])
    ensures Square(AirMoves(envs, s).velocity) <= Square(s.velocity) + 900.0 * |envs| as real
    ensures AirMoves(envs, s).basevelocity == ORIGIN
  {
    hide AirMove, Square, Sound, TameBounce, Forwards;
    if envs != [] {
      AirMovesSpeed(envs[..|envs| - 1], s);
      AirMoveSpeed(envs[|envs| - 1], AirMoves(envs[..|envs| - 1], s));
    }
  }

  // ----- swimming -----

  /** Friction and pushes do not run backwards. */
  predicate SwimsForwards(env: Env) {
    0.0 <= env.frametime && 0.0 <= env.friction && 0.0 <= env.vars.friction && 0.0 <= env.vars.accelerate
  }

  lemma DragWithin(env: Env, v: Vec)
    requires Sound(env.engine) && SwimsForwards(env)
    ensures var (u, left) := WaterDrag(env, v);
            0.0 <= left <= Length(env.engine, v) && Within(u, left)
  {
    hide Sound, Length, Scale, Square;
    LengthSquared(env.engine, v);
    var speed := Length(env.engine, v);
    if speed == 0.0 {
      assert Square(v) == 0.0;
    } else {
      var left := if WaterSpeed(env, speed) < 0.0 then 0.0 else WaterSpeed(env, speed);
      DragLoss(env, speed);
      QuotientBounds(left, speed);
      WithinScale(left / speed, v, speed);
    }
  }

  lemma DragLoss(env: Env, speed: real)
    requires SwimsForwards(env) && 0.0 <= speed
    ensures WaterSpeed(env, speed) <= speed
  {
    ProductMonotone(0.0, 0.0, env.frametime, speed);
    ProductMonotone(0.0, 0.0, env.frametime * speed, env.vars.friction);
    ProductMonotone(0.0, 0.0, env.frametime * speed * env.vars.friction, env.friction);
  }

  lemma UnitWithin(e: Callbacks, v: Vec)
    requires Sound(e)
    ensures Within(Normalize(e, v), 1.0)
  {
    hide Sound, Normalize, Length, Scale, Square;
    NormalizeSound(e, v);
    SquareOrigin();
  }

  /** Swimming, a player is never faster than four fifths of the top speed, or than before. */
  lemma WaterVelocityBound(env: Env, w: View, k: Keys, v0: Vec, base: Vec, most: real)
    requires Sound(env.engine) && SwimsForwards(env)
    requires 0.8 * env.maxspeed <= most && Length(env.engine, Add(v0, base)) <= most
    ensures Within(WaterVelocity(env, w, k, v0, base).0, most)
  {
    hide Sound, Length, Scale, Square, Add, Within, Normalize, SwimVelocity, WaterDrag, AccelPush;
    DragWithin(env, Add(v0, base));
    var (v, left) := WaterDrag(env, Add(v0, base));
    WithinMore(v, left, most);
    var wish0 := SwimVelocity(w, k);
    var wishlength := Length(env.engine, wish0);
    var capped := wishlength > env.maxspeed && wishlength != 0.0;
    var wish := if capped then Scale(env.maxspeed / wishlength, wish0) else wish0;
    var wishspeed := (if capped then env.maxspeed else wishlength) * 0.8;
    LengthSquared(env.engine, wish0);
    if wishspeed >= 0.1 && wishspeed - left > 0.0 {
      PushNonNegative(env, wishspeed, env.vars.accelerate);
      var push := Min(AccelPush(env, wishspeed, env.vars.accelerate), wishspeed - left);
      UnitWithin(env.engine, wish);
      WithinScale(push, Normalize(env.engine, wish), 1.0);
      WithinAdd(v, left, Scale(push, Normalize(env.engine, wish)), push * 1.0);
      WithinMore(Add(v, Scale(push, Normalize(env.engine, wish))), left + push * 1.0, most);
    }
  }

  // ----- friction -----

  lemma LengthScale(e: Callbacks, k: real, v: Vec)
    requires Sound(e) && 0.0 <= k
    ensures Length(e, Scale(k, v)) == k * Length(e, v)
  {
    hide Length, Scale, Square, Sound;
    LengthSquared(e, v);
    LengthSquared(e, Scale(k, v));
    SquareScale(k, v);
    var a, b := Length(e, Scale(k, v)), k * Length(e, v);
    assert b * b == k * k * (Length(e, v) * Length(e, v));
    ProductMonotone(0.0, 0.0, k, Length(e, v));
    RootMonotone(a, b);
    RootMonotone(b, a);
  }

  /** Scaling to the speed that is left: the direction is kept and the length is the speed left. */
  lemma SlowedLength(e: Callbacks, v: Vec, drop: real)
    requires Sound(e) && Length(e, v) != 0.0 && 0.0 <= drop
    ensures var left := SpeedAfter(Length(e, v), drop);
            && Length(e, Slowed(v, Length(e, v), drop)) == left
            && 0.0 <= left / Length(e, v) <= 1.0
  {
    hide Length, Scale, Sound;
    var speed := Length(e, v);
    LengthSquared(e, v);
    var left := SpeedAfter(speed, drop);
    QuotientBounds(left, speed);
    LengthScale(e, left / speed, v);
  }

  lemma QuotientBounds(a: real, b: real)
    requires 0.0 <= a <= b && 0.0 < b
    ensures 0.0 <= a / b <= 1.0 && (a / b) * b == a
  {}

  /** Friction, stop speed and frame time are positive. */
  predicate Rubs(env: Env) {
    && 0.0 < env.friction && 0.0 < env.vars.friction && 0.0 < env.vars.edgefriction
    && 0.0 < env.vars.stopspeed && 0.0 < env.frametime
  }

  /** The friction underfoot is this or more, at an edge or not. */
  function LeastFriction(env: Env): real { env.friction * (env.vars.friction * Min(1.0, env.vars.edgefriction)) }

  /** What a frame of friction takes at least. */
  function LeastDrop(env: Env): real { env.vars.stopspeed * LeastFriction(env) * env.frametime }

  lemma GroundFrictionBound(env: Env, hull: int, origin: Vec, velocity: Vec, speed: real)
    requires Rubs(env) && speed != 0.0
    ensures 0.0 < LeastFriction(env) <= GroundFriction(env, hull, origin, velocity, speed)
  {
    hide Add, Sub, Min;
    var k, f, e := env.friction, env.vars.friction, env.vars.edgefriction;
    FrictionFactors(k, f, e);
    var g := GroundFriction(env, hull, origin, velocity, speed);
    assert LeastFriction(env) == k * (f * Min(1.0, e));
    if g != k * f {
      assert g == k * (f * e);
    }
  }

  lemma FrictionFactors(k: real, f: real, e: real)
    requires 0.0 < k && 0.0 < f && 0.0 < e
    ensures 0.0 < k * (f * Min(1.0, e)) && k * (f * Min(1.0, e)) <= k * f && k * (f * Min(1.0, e)) <= k * (f * e)
  {
    var m := Min(1.0, e);
    assert 0.0 < f * m;
    assert 0.0 < k * (f * m);
    ProductMonotone(f, m, f, 1.0);
    ProductMonotone(f, m, f, e);
    ProductMonotone(k, f * m, k, f);
    ProductMonotone(k, f * m, k, f * e);
  }

  lemma DropBound(env: Env, speed: real, friction: real)
    requires Rubs(env) && LeastFriction(env) <= friction && 0.0 < LeastFriction(env)
    ensures 0.0 < LeastDrop(env) <= Drop(env, speed, friction)
  {
    hide LeastFriction;
    var control := if speed < env.vars.stopspeed then env.vars.stopspeed else speed;
    ProductMonotone(env.vars.stopspeed, LeastFriction(env), control, friction);
    ProductMonotone(env.vars.stopspeed * LeastFriction(env), env.frametime, control * friction, env.frametime);
    assert 0.0 < env.vars.stopspeed * LeastFriction(env);
  }

  /** One frame of friction on the ground scales the velocity down; either the speed falls below 0.1, or
      it falls by at least the least drop. */
  lemma FrictionStep(env: Env, s: Mover) returns (scale: real)
    requires Sound(env.engine) && Rubs(env) && s.onground != -1 && s.waterjumptime == 0.0
    ensures var s' := Friction(env, s);
            && 0.0 <= scale <= 1.0 && s' == s.(velocity := Scale(scale, s.velocity))
            && var before := Length(env.engine, s.velocity);
               var after := Length(env.engine, s'.velocity);
               && (after < 0.1 || after <= before - LeastDrop(env))
               && 0.0 < LeastDrop(env)
  {
    hide Sound, Length, Rubs, GroundFriction, LeastFriction, LeastDrop, Drop;
    var speed := Length(env.engine, s.velocity);
    GroundFrictionBound(env, s.stance.usehull, s.origin, s.velocity, 1.0);
    DropBound(env, speed, LeastFriction(env));
    if speed < 0.1 {
      scale := 1.0;
    } else {
      var friction := GroundFriction(env, s.stance.usehull, s.origin, s.velocity, speed);
      GroundFrictionBound(env, s.stance.usehull, s.origin, s.velocity, speed);
      DropBound(env, speed, friction);
      SlowedLength(env.engine, s.velocity, Drop(env, speed, friction));
      scale := SpeedAfter(speed, Drop(env, speed, friction)) / speed;
    }
  }

  function FrictionTimes(env: Env, s: Mover, n: nat): Mover {
    if n == 0 then s else Friction(env, FrictionTimes(env, s, n - 1))
  }

  lemma ScaleScale(a: real, b: real, v: Vec)
    requires 0.0 <= a <= 1.0 && 0.0 <= b <= 1.0
    ensures Scale(a, Scale(b, v)) == Scale(a * b, v) && 0.0 <= a * b <= 1.0
  {
    ProductMonotone(0.0, 0.0, a, b);
    ProductMonotone(a, b, 1.0, 1.0);
    assert a * (b * v.x) == (a * b) * v.x && a * (b * v.y) == (a * b) * v.y && a * (b * v.z) == (a * b) * v.z;
  }

  /** Any number of frames of friction keeps the direction and never speeds up; and once enough frames
      have passed for the least drop to have used up the initial speed, the speed is below 0.1. */
  lemma {:induction false} FrictionStops(env: Env, s: Mover, n: nat) returns (scale: real)
    requires Sound(env.engine) && Rubs(env) && s.onground != -1 && s.waterjumptime == 0.0
    ensures 0.0 <= scale <= 1.0
    ensures FrictionTimes(env, s, n) == s.(velocity := Scale(scale, s.velocity))
    ensures var speed := Length(env.engine, FrictionTimes(env, s, n).velocity);
            && (speed < 0.1 || speed <= Length(env.engine, s.velocity) - n as real * LeastDrop(env))
            && (Length(env.engine, s.velocity) <= n as real * LeastDrop(env) ==> speed < 0.1)
  {
    hide Sound, Rubs, Friction, LeastDrop, Length;
    scale := 1.0;
    if n > 0 {
      var before := FrictionStops(env, s, n - 1);
      var step := FrictionStep(env, FrictionTimes(env, s, n - 1));
      ScaleScale(step, before, s.velocity);
      scale := step * before;
      FrictionCount(n, LeastDrop(env));
    }
  }

  lemma FrictionCount(n: nat, drop: real)
    requires n > 0
    ensures n as real * drop == (n - 1) as real * drop + drop
  {
    assert n as real == (n - 1) as real + 1.0;
  }

  // ----- steps -----

  /** Of the slide on the level and the slide up a step, the one that goes farther over the ground is
      taken, when the one up a step ends on a floor; otherwise the one on the level. */
  lemma StepMoveGoesFarther(env: Env, s: Mover)
    ensures var level := FlyMove(env, s);
            var lifted := Lifted(env, TakePosition(level, s));
            var t := Tracing(env, lifted, lifted.origin, Sub(lifted.origin, Up(env.vars.stepsize)));
            var landed := if Open(t) then t.endpos else lifted.origin;
            var onFloor := t.normal.z >= 0.7;
            var there := StepMove(env, s).origin;
            && (there == level.origin || (onFloor && there == landed))
            && FlatDistanceSquared(there, s.origin) >= FlatDistanceSquared(level.origin, s.origin)
            && (onFloor ==> FlatDistanceSquared(there, s.origin) >= FlatDistanceSquared(landed, s.origin))
            && StepMove(env, s).velocity.z == level.velocity.z
  {
    hide FlyMove, Lifted, FlatDistanceSquared, Sub;
  }

  /** A step move ends at a level speed of at most the whole speed before it; as the height comes from the
      slide on the level and the rest perhaps from the one up a step, the speed squared at most doubles. */
  lemma StepMoveSpeed(env: Env, s: Mover)
    requires Sound(env.engine) && TameBounce(env)
    ensures var v := StepMove(env, s).velocity;
            Square(Flat(v)) <= Square(s.velocity) && Square(v) <= 2.0 * Square(s.velocity)
  {
    hide Sound, TameBounce, FlyMove, FlatDistanceSquared, Square, Flat, WithZ;
    var level := FlyMove(env, s);
    FlyMoveKeepsSpeed(env, s);
    var start := TakePosition(level, s);
    var t := Tracing(env, start, start.origin, Add(start.origin, Up(env.vars.stepsize)));
    var from := if Open(t) then start.(origin := t.endpos) else start;
    FlyMoveKeepsSpeed(env, from);
    var lifted := FlyMove(env, from);
    assert lifted == Lifted(env, start);
    Recombined(level.velocity, level.velocity);
    Recombined(lifted.velocity, level.velocity);
    WithOwnZ(level.velocity);
  }

  lemma WithOwnZ(v: Vec)
    ensures WithZ(v, v.z) == v
  {}

  lemma Recombined(v: Vec, w: Vec)
    ensures Square(Flat(WithZ(v, w.z))) <= Square(v) && Square(WithZ(v, w.z)) <= Square(v) + Square(w)
  {
    assert 0.0 <= v.z * v.z && 0.0 <= w.x * w.x && 0.0 <= w.y * w.y;
  }

  /** A walking move gains no level speed over what friction left and the keys gave it: without a base
      velocity, at most the square of the top speed. */
  lemma WalkMoveSpeed(env: Env, s: Mover)
    requires Sound(env.engine) && TameBounce(env) && Forwards(env) && 0.0 <= env.vars.accelerate
    requires s.basevelocity == ORIGIN
    ensures Square(Flat(WalkMove(env, s).velocity)) <= Square(Flat(s.velocity)) + env.maxspeed * env.maxspeed
  {
    hide Sound, TameBounce, Forwards, WalkAccelerate, StepMove, Square, Flat, Length, Scale, Add;
    WalkAccelerateSpeed(env, s);
    var a := WalkAccelerate(env, s);
    StepMoveSpeed(env, a);
    SquareNonNegative(a.velocity);
    Recombined(a.velocity, a.velocity);
    WithOwnZ(a.velocity);
    Recombined(ORIGIN, ORIGIN);
    WithOwnZ(ORIGIN);
    SquareOrigin();
  }

  lemma WalkAccelerateSpeed(env: Env, s: Mover)
    requires Sound(env.engine) && Forwards(env) && 0.0 <= env.vars.accelerate && s.basevelocity == ORIGIN
    ensures Square(WalkAccelerate(env, s).velocity) <= Square(Flat(s.velocity)) + env.maxspeed * env.maxspeed
  {
    hide Sound, Length, Normalize, Square, Pushed, AccelPush, FlattenView, WishVelocity;
    var v := s.(view := FlattenView(env, s.view));
    var wish := WishVelocity(v.view, s.keys);
    var target := Min(Length(env.engine, wish), env.maxspeed);
    NormalizeSound(env.engine, wish);
    WishSpeedNonNegative(env, wish);
    PushNonNegative(env, target, env.vars.accelerate);
    var flat := Flat(s.velocity);
    var pushed := Pushed(flat, Normalize(env.engine, wish), target, AccelPush(env, target, env.vars.accelerate));
    PushedSpeed(flat, Normalize(env.engine, wish), target, AccelPush(env, target, env.vars.accelerate));
    ProductMonotone(target, target, env.maxspeed, env.maxspeed);
    AddZero(flat);
    AddZero(Flat(flat));
    AddZero(Flat(pushed));
    Recombined(flat, flat);
    Recombined(pushed, pushed);
    WithOwnZ(pushed);
    assert 0.0 <= target * target;
  }

  // ----- the speed limit -----

  predicate Limited(v: Vec, m: real) { -m <= v.x <= m && -m <= v.y <= m && -m <= v.z <= m }

  lemma ClampNearest(r: real, m: real, x: real)
    requires -m <= x <= m
    ensures -m <= Clamp(r, m) <= m && Abs(r - Clamp(r, m)) <= Abs(r - x)
  {}

  /** The limit changes a velocity no more than it must, on any axis: no velocity within it is nearer. */
  lemma LimitNearest(v: Vec, m: real)
    requires 0.0 <= m
    ensures Limited(Clamped(v, m), m)
    ensures forall w: Vec :: Limited(w, m) ==>
              && Abs(v.x - Clamped(v, m).x) <= Abs(v.x - w.x) && Abs(v.y - Clamped(v, m).y) <= Abs(v.y - w.y)
              && Abs(v.z - Clamped(v, m).z) <= Abs(v.z - w.z)
  {
    forall w: Vec | Limited(w, m)
      ensures Abs(v.x - Clamped(v, m).x) <= Abs(v.x - w.x) && Abs(v.y - Clamped(v, m).y) <= Abs(v.y - w.y)
      ensures Abs(v.z - Clamped(v, m).z) <= Abs(v.z - w.z)
    {
      ClampNearest(v.x, m, w.x);
      ClampNearest(v.y, m, w.y);
      ClampNearest(v.z, m, w.z);
    }
  }

  /** A frame out of deep water ends within the server's speed limit on every axis. */
  lemma StepLimited(env: Env, s: Mover)
    requires 0.0 <= env.vars.maxvelocity
    ensures Limited(Step(env, s).velocity, env.vars.maxvelocity)
  {
    hide JumpButton, GroundDrag, WalkMove, AirMove, CatagorizePosition, RemoveBase, Fall;
  }
}
