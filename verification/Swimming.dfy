/** Swimming: where the keys push a player in water, how the water holds him back, when he jumps out of it, and
    which way currents go. */
module Swimming {
  import opened Vectors
  import opened Engine
  import opened Player
  import opened SlideMove
  import opened Movement
  import opened AirAndGround
  import opened FreeFall
  import opened Walking

  // ----- what the keys ask for in water -----

  predicate Idle(k: Keys) { k.forwardmove == 0.0 && k.sidemove == 0.0 && k.upmove == 0.0 }

  /** In water the keys ask for speed along the view, up or down included, and straight up or down; a player who
      asks for nothing sinks at 60. */
  lemma SwimAsks(w: View, k: Keys, u: Vec)
    ensures Dot(SwimVelocity(w, k), u) ==
            if Idle(k) then -60.0 * u.z
            else k.forwardmove * Dot(w.forward, u) + k.sidemove * Dot(w.right, u) + k.upmove * u.z
  {
    hide Dot, Add, Scale;
    var keys := Add(Scale(k.forwardmove, w.forward), Scale(k.sidemove, w.right));
    var rise := if Idle(k) then -60.0 else k.upmove;
    TwoDot(k.forwardmove, w.forward, k.sidemove, w.right, u);
    RiseDot(keys, rise, u);
  }

  lemma RiseDot(a: Vec, rise: real, u: Vec)
    ensures Dot(Add(a, Up(rise)), u) == Dot(a, u) + rise * u.z
  {
    assert (a.z + rise) * u.z == a.z * u.z + rise * u.z;
  }

  /** Four fifths of what is asked for, and of the top speed. */
  function SwimSpeed(env: Env, wish: Vec): real { 0.8 * Min(Length(env.engine, wish), env.maxspeed) }

  /** What water friction leaves of a speed. */
  function SpeedInWater(env: Env, speed: real): real {
    var left := speed - speed * (env.frametime * env.vars.friction * env.friction);
    if left < 0.0 then 0.0 else left
  }

  lemma DragExact(env: Env, v: Vec) returns (r: real)
    requires Sound(env.engine) && SwimsForwards(env)
    ensures var left := SpeedInWater(env, Length(env.engine, v));
            0.0 <= r <= 1.0 && WaterDrag(env, v) == (Scale(r, v), left) && Length(env.engine, Scale(r, v)) == left
  {
    hide Sound, Length, Scale, SwimsForwards, WaterSpeed, SpeedInWater;
    var speed := Length(env.engine, v);
    LengthSquared(env.engine, v);
    SameDrag(env, speed);
    r := 1.0;
    ScaleOne(v);
    if speed != 0.0 {
      var left := SpeedInWater(env, speed);
      DragLoss(env, speed);
      QuotientBounds(left, speed);
      r := left / speed;
      LengthScale(env.engine, r, v);
    }
  }

  lemma SameDrag(env: Env, speed: real)
    ensures SpeedInWater(env, speed) == if WaterSpeed(env, speed) < 0.0 then 0.0 else WaterSpeed(env, speed)
    ensures speed == 0.0 ==> SpeedInWater(env, speed) == 0.0
  {
    assert env.frametime * speed * env.vars.friction * env.friction ==
           speed * (env.frametime * env.vars.friction * env.friction);
  }

  /** Swimming, the velocity is scaled by the water, and the keys add along what they ask for and nowhere else;
      the water takes its share of the speed, and from rest the player gains what the acceleration gives. */
  lemma SwimSteers(env: Env, w: View, k: Keys, v0: Vec, base: Vec) returns (r: real, g: real)
    requires Sound(env.engine) && SwimsForwards(env) && 0.0 <= env.maxspeed
    ensures var wish := SwimVelocity(w, k);
            var speed := SwimSpeed(env, wish);
            var push := env.vars.accelerate * env.frametime * speed * env.friction;
            var (v, moving) := WaterVelocity(env, w, k, v0, base);
            && 0.0 <= r <= 1.0 && 0.0 <= g && v == Add(Scale(r, Add(v0, base)), Scale(g, wish))
            && Length(env.engine, Scale(r, Add(v0, base))) == SpeedInWater(env, Length(env.engine, Add(v0, base)))
            && (moving <==> 0.1 <= speed)
            && Length(env.engine, Scale(g, wish)) ==
                 var missing := speed - SpeedInWater(env, Length(env.engine, Add(v0, base)));
                 if moving && 0.0 < missing then Min(push, missing) else 0.0
  {
    hide Sound, Length, Normalize, Scale, Add, SwimVelocity, WaterDrag, SpeedInWater, SwimsForwards, AccelPush;
    var wish := SwimVelocity(w, k);
    var speed := SwimSpeed(env, wish);
    var total := Add(v0, base);
    r := DragExact(env, total);
    var left := SpeedInWater(env, Length(env.engine, total));
    var capped := if Length(env.engine, wish) > env.maxspeed && Length(env.engine, wish) != 0.0
                  then Scale(env.maxspeed / Length(env.engine, wish), wish) else wish;
    LengthSquared(env.engine, wish);
    g := 0.0;
    ZeroScale(wish);
    LengthOrigin(env.engine);
    AddZero(Scale(r, total));
    if 0.1 <= speed && 0.0 < speed - left {
      SwimPushed(env, speed);
      var amount := Min(AccelPush(env, speed, env.vars.accelerate), speed - left);
      CappedDirection(env, wish);
      g := Multiple(env.engine, wish, amount);
    }
  }

  lemma SwimPushed(env: Env, speed: real)
    requires SwimsForwards(env) && 0.0 <= speed
    ensures 0.0 <= AccelPush(env, speed, env.vars.accelerate)
    ensures AccelPush(env, speed, env.vars.accelerate) == env.vars.accelerate * env.frametime * speed * env.friction
  {
    PushNonNegative(env, speed, env.vars.accelerate);
  }

  /** Capping what is asked for keeps its direction. */
  lemma CappedDirection(env: Env, wish: Vec)
    requires Sound(env.engine) && 0.1 <= SwimSpeed(env, wish)
    ensures wish != ORIGIN
    ensures Length(env.engine, wish) > env.maxspeed && Length(env.engine, wish) != 0.0 ==>
              Normalize(env.engine, Scale(env.maxspeed / Length(env.engine, wish), wish)) == Normalize(env.engine, wish)
  {
    hide Sound, Length, Scale, Normalize, SwimSpeed;
    var length := Length(env.engine, wish);
    LengthSquared(env.engine, wish);
    SpeedBounds(env, wish);
    if wish == ORIGIN {
      LengthOrigin(env.engine);
    }
    if length > env.maxspeed {
      var k := env.maxspeed / length;
      QuotientAbove(env.maxspeed, length, k);
      SameDirection(env.engine, wish, k);
    }
  }

  lemma SpeedBounds(env: Env, wish: Vec)
    requires 0.1 <= SwimSpeed(env, wish)
    ensures 0.0 < env.maxspeed && 0.0 < Length(env.engine, wish)
  {
    hide Length;
  }

  lemma QuotientAbove(a: real, b: real, k: real)
    requires 0.0 < a && 0.0 < b && k == a / b
    ensures 0.0 < k
  {}

  lemma SameDirection(e: Callbacks, v: Vec, k: real)
    requires Sound(e) && 0.0 < k && 0.0 < Length(e, v)
    ensures Normalize(e, Scale(k, v)) == Normalize(e, v)
  {
    hide Sound, Length, Scale;
    var length, scaled := Length(e, v), Length(e, Scale(k, v));
    LengthScale(e, k, v);
    var inverse, whole := 1.0 / scaled, 1.0 / length;
    InverseOfScaled(k, length, scaled, inverse, whole);
    ScaleTwice(inverse, k, v);
    var m := inverse * k;
    assert m == whole;
  }

  lemma InverseOfScaled(k: real, length: real, scaled: real, inverse: real, whole: real)
    requires 0.0 < k && 0.0 < length && scaled == k * length && inverse == 1.0 / scaled && whole == 1.0 / length
    ensures 0.0 < scaled && inverse * k == whole
  {
    assert 0.0 < k * length;
    assert inverse * scaled == 1.0;
    var m := inverse * k;
    assert m * length == inverse * (k * length);
    assert whole * length == 1.0;
    assert (m - whole) * length == 0.0;
  }

  // ----- moving in open water -----

  /** Nothing solid anywhere. */
  ghost predicate Boundless(env: Env) {
    forall hull: int, a: Vec, b: Vec :: Free(env, hull, a, b) && Open(env.engine.playerTrace(hull, a, b))
  }

  /** With nothing in the way a swimmer goes where the velocity takes him; one who asks for less than a tenth
      stays where he is. */
  lemma WaterMoveFree(env: Env, s: Mover)
    requires Sound(env.engine) && Boundless(env)
    ensures var (v, moving) := WaterVelocity(env, s.view, s.keys, s.velocity, s.basevelocity);
            WaterMove(env, s) == if moving then s.(velocity := v, origin := Add(s.origin, Scale(env.frametime, v)))
                                 else s.(velocity := v)
  {
    hide Sound, WaterVelocity, Add, Scale, FlyMove;
    var v := WaterVelocity(env, s.view, s.keys, s.velocity, s.basevelocity).0;
    var dest := Add(s.origin, Scale(env.frametime, v));
    var start := Add(dest, Up(env.vars.stepsize + 1.0));
    assert Free(env, s.stance.usehull, start, dest) && Open(env.engine.playerTrace(s.stance.usehull, start, dest));
    FreeTrace(env.engine, s.stance.usehull, start, dest);
  }

  lemma CatagorizeBoundless(env: Env, s: Mover)
    requires Sound(env.engine) && Boundless(env)
    ensures var s' := CatagorizePosition(env, s);
            s'.origin == s.origin && s'.velocity == s.velocity && s'.onground == -1 && s'.stance == s.stance
  {
    hide Sound, ProbeWater, Add, AddToTouched;
    var down := Sub(s.origin, Up(2.0));
    assert Free(env, s.stance.usehull, s.origin, down);
    FreeTrace(env.engine, s.stance.usehull, s.origin, down);
  }

  /** The frame of a player over his eyes in open water, with no current and the jump key up: no gravity, the
      water's drag, the push of the keys, and he goes there. */
  lemma SwimFrame(env: Env, s: Mover) returns (r: real, g: real)
    requires Sound(env.engine) && Boundless(env) && SwimsForwards(env) && 0.0 <= env.maxspeed && !env.cmd.jump
    requires var d := Ready(env, s);
             d.waterlevel == 3 && d.waterjumptime == 0.0 && d.basevelocity == ORIGIN
    ensures var d := Ready(env, s);
            var wish := SwimVelocity(d.view, d.keys);
            var v := Add(Scale(r, d.velocity), Scale(g, wish));
            var s' := PlayerMove(env, s);
            && 0.0 <= r <= 1.0 && 0.0 <= g && s'.velocity == v && s'.onground == -1
            && Length(env.engine, Scale(r, d.velocity)) == SpeedInWater(env, Length(env.engine, d.velocity))
            && s'.origin == (if 0.1 <= SwimSpeed(env, wish) then Add(d.origin, Scale(env.frametime, v)) else d.origin)
  {
    hide Sound, Boundless, Ready, WaterVelocity, WaterMove, CatagorizePosition, Length, Scale, SpeedInWater;
    hide SwimVelocity, SwimSpeed, CheckWaterJump;
    var d := Ready(env, s);
    AddZero(d.velocity);
    var b := JumpButton(env, d);
    r, g := SwimSteers(env, d.view, b.keys, d.velocity, ORIGIN);
    SameSwim(d.view, d.keys, b.keys);
    WaterMoveFree(env, b);
    var m := WaterMove(env, b);
    SubNone(m.velocity);
    CatagorizeBoundless(env, RemoveBase(m));
    AwayFromOrigin(b, m);
  }

  lemma SameSwim(w: View, k: Keys, k': Keys)
    requires k'.forwardmove == k.forwardmove && k'.sidemove == k.sidemove && k'.upmove == k.upmove
    ensures SwimVelocity(w, k') == SwimVelocity(w, k)
  {}

  lemma AwayFromOrigin(b: Mover, m: Mover)
    requires m.basevelocity == ORIGIN
    ensures RemoveBase(m) == m.(velocity := Sub(m.velocity, ORIGIN))
  {}

  // ----- up and out -----

  /** In deep water the jump key lifts the player at 100, at 80 in slime and at 50 in anything else, and lets
      go of the ground. */
  lemma SwimsUp(env: Env, s: Mover)
    requires env.cmd.jump && !env.dead && s.waterjumptime == 0.0 && s.waterlevel >= 2
    ensures var s' := JumpButton(env, s);
            && s'.onground == -1 && Flat(s'.velocity) == Flat(s.velocity)
            && s'.velocity.z == (if s.watertype == -3 then 100.0 else if s.watertype == -4 then 80.0 else 50.0)
  {}

  /** The wall ahead at the knees is nearly vertical, and above it the way is clear. */
  predicate LedgeAhead(env: Env, s: Mover) {
    var low := Vec(s.origin.x, s.origin.y, s.origin.z + 8.0);
    var high := Vec(s.origin.x, s.origin.y, s.origin.z + HullMaxs(s.stance.usehull).z);
    var wall := env.engine.playerTrace(POINT, low, Add(low, Scale(24.0, s.view.forward)));
    && wall.fraction < 1.0 && Abs(wall.normal.z) < 0.1
    && env.engine.playerTrace(POINT, high, Add(high, Scale(24.0, s.view.forward))).fraction == 1.0
  }

  /** A player who looks along the level jumps out of the water if and only if no water jump is under way, he
      does not sink faster than 180, is not backing away, and there is a ledge ahead. */
  lemma WaterJumpStartsIff(env: Env, s: Mover)
    requires Sound(env.engine) && LevelView(s.view) && s.waterjumptime == 0.0
    ensures CheckWaterJump(env, s).waterjumptime != 0.0 <==>
              -180.0 <= s.velocity.z && 0.0 <= Dot(Flat(s.velocity), s.view.forward) && LedgeAhead(env, s)
  {
    hide Sound, Normalize, Length, Square, Dot, Scale;
    UnitNormal(env.engine, s.view.forward);
    assert Flat(s.view.forward) == s.view.forward;
    BackingIff(env, s);
    LedgePlaces(s.origin);
  }

  lemma LedgePlaces(p: Vec)
    ensures forall h: real :: Add(p, Up(h)) == Vec(p.x, p.y, p.z + h)
  {}

  lemma BackingIff(env: Env, s: Mover)
    requires Sound(env.engine) && LevelView(s.view)
    ensures BackingUp(env, s) <==> Dot(Flat(s.velocity), s.view.forward) < 0.0
  {
    hide Sound, Length, Square, Dot, Scale, Flat;
    var f, v := s.view.forward, Flat(s.velocity);
    UnitNormal(env.engine, f);
    assert Flat(f) == f by { FlatLevel(f); }
    LengthSquared(env.engine, v);
    var length := Length(env.engine, v);
    if length == 0.0 {
      NoLength(env.engine, v);
      OriginDot(f);
    } else {
      ScaleDot(1.0 / length, v, f);
      SignKept(1.0 / length, length, Dot(v, f));
    }
  }

  lemma FlatLevel(v: Vec)
    requires v.z == 0.0
    ensures Flat(v) == v
  {}

  lemma SignKept(k: real, length: real, d: real)
    requires 0.0 < length && k == 1.0 / length
    ensures k * d < 0.0 <==> d < 0.0
  {
    assert 0.0 < k;
  }

  /** That is asked in every frame at the waist, and only there. */
  lemma OutOfWater(env: Env, s: Mover)
    requires Sound(env.engine) && LevelView(s.view) && s.waterjumptime == 0.0
    ensures Movement.Swimming(env, s).waterjumptime != 0.0 <==>
              s.waterlevel == 2 &&
              -180.0 <= s.velocity.z && 0.0 <= Dot(Flat(s.velocity), s.view.forward) && LedgeAhead(env, s)
  {
    hide LedgeAhead, BackingUp, LedgeTrace, Sound, LevelView;
    WaterJumpStartsIff(env, s);
  }

  // ----- currents -----

  /** Which way the contents of a current run: the four points of the level, up and down. */
  function Runs(contents: int): Vec {
    match contents
    case -9 => Vec(1.0, 0.0, 0.0)
    case -10 => Vec(0.0, 1.0, 0.0)
    case -11 => Vec(-1.0, 0.0, 0.0)
    case -12 => Vec(0.0, -1.0, 0.0)
    case -13 => Vec(0.0, 0.0, 1.0)
    case -14 => Vec(0.0, 0.0, -1.0)
    case _ => ORIGIN
  }

  /** A current pushes the way it runs, by 50 for each level. */
  lemma CurrentRuns(env: Env, hull: int, origin: Vec, viewZ: real)
    ensures var w := ProbeWater(env, hull, origin, viewZ);
            w.push == Scale(50.0 * w.level as real, Runs(env.engine.truePointContents(Feet(hull, origin))))
  {
    hide Submerged, Feet, Middle, Eyes;
    var flow := env.engine.truePointContents(Feet(hull, origin));
    ZeroScale(Runs(flow));
  }
}
