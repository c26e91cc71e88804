/** A player who falls touching nothing follows the parabola exactly, however the time is cut into
    commands: the two half-steps of gravity bracket the move. */
module FreeFall {
  import opened Vectors
  import opened Engine
  import opened Player
  import opened SlideMove
  import opened Movement
  import opened WalkSafety

  function FrameGravity(env: Env): real { EntGravity(env) * env.vars.gravity }

  /** Gravity is the server's, times the player's own unless that is nought. */
  lemma GravityIs(env: Env)
    ensures env.gravity == 0.0 ==> FrameGravity(env) == env.vars.gravity
    ensures env.gravity != 0.0 ==> FrameGravity(env) == env.gravity * env.vars.gravity
  {}

  /** The velocity in the middle of the frame. */
  function MidVelocity(env: Env, v: Vec): Vec { WithZ(v, v.z - FrameGravity(env) * 0.5 * env.frametime) }

  predicate Clampless(env: Env, v: Vec) { Clamped(v, env.vars.maxvelocity) == v }

  /** Nothing is in the way from a to b. */
  predicate Free(env: Env, hull: int, a: Vec, b: Vec) {
    var t := env.engine.playerTrace(hull, a, b);
    t.fraction == 1.0 && !t.allsolid
  }

  /** The feet at p are dry, and there is no ground within two units below or the player rises too fast to
      be on it. */
  predicate InTheAir(env: Env, hull: int, p: Vec, v: Vec) {
    !Submerged(env, Feet(hull, p)) && (v.z > 180.0 || Free(env, hull, p, Sub(p, Up(2.0))))
  }

  /** A hull that leaves p at velocity v and falls for the frame touches nothing, ends in the air and
      reaches no speed limit. */
  predicate Leaves(env: Env, hull: int, p: Vec, v: Vec) {
    var mid := MidVelocity(env, v);
    var end := Add(p, Scale(env.frametime, mid));
    && Free(env, hull, p, end) && InTheAir(env, hull, end, mid)
    && Clampless(env, mid) && Clampless(env, MidVelocity(env, mid))
  }

  predicate FallsAt(env: Env, hulls: set<int>, p: Vec, v: Vec) {
    forall hull | hull in hulls :: InTheAir(env, hull, p, v) && Leaves(env, hull, p, v)
  }

  /** No keys move the player, and the duck key is down for a crouching player and up for one who stands. */
  predicate HandsOff(env: Env, crouched: bool) {
    && env.cmd.forwardmove == 0.0 && env.cmd.sidemove == 0.0
    && env.cmd.duck == crouched && (crouched ==> !env.noDuck && !env.dead)
  }

  predicate Crouched(t: Stance) { t.inDuck || t.ducking }

  /** The hulls a player in this stance may come to use in the air: a duck under way is finished there. */
  predicate FitsIn(t: Stance, hulls: set<int>) { t.usehull in hulls && (t.inDuck ==> DUCKED in hulls) }

  /** No base velocity and no water jump. */
  predicate Drifts(s: Mover) { s.basevelocity == ORIGIN && s.waterjumptime == 0.0 }

  /** What a player in the air keeps: the posture and the hulls. */
  predicate KeepsPosture(s: Mover, s': Mover, hulls: set<int>) {
    Crouched(s'.stance) == Crouched(s.stance) && FitsIn(s'.stance, hulls)
  }

  lemma FreeTrace(e: Callbacks, hull: int, a: Vec, b: Vec)
    requires Sound(e) && e.playerTrace(hull, a, b).fraction == 1.0
    ensures var t := e.playerTrace(hull, a, b);
            t.endpos == b && t.normal == ORIGIN && t.ent == -1
  {
    hide TestSound, NestedBoxClear, SqrtSound, Clear;
    assert TraceSound(e, hull, a, b);
    WholeWay(a, b);
  }

  lemma WholeWay(a: Vec, b: Vec)
    ensures Add(a, Scale(1.0, Sub(b, a))) == b
  {}

  /** Standing nowhere and dry: only the ground and water fields say so. */
  function Aloft(s: Mover): Mover {
    s.(onground := -1, waterlevel := 0, watertype := CONTENTS_EMPTY, basevelocity := Add(s.basevelocity, ORIGIN))
  }

  lemma CatagorizeAloft(env: Env, s: Mover)
    requires Sound(env.engine) && InTheAir(env, s.stance.usehull, s.origin, s.velocity)
    ensures CatagorizePosition(env, s) == Aloft(s)
  {
    hide Sound, Feet, Sub, Add, TraceSound;
    if s.velocity.z <= 180.0 {
      FreeTrace(env.engine, s.stance.usehull, s.origin, Sub(s.origin, Up(2.0)));
    }
  }

  /** In the air the duck key finishes a duck under way, and nothing else. */
  lemma DuckAloft(env: Env, s: Mover, hulls: set<int>)
    requires s.onground == -1 && HandsOff(env, Crouched(s.stance)) && FitsIn(s.stance, hulls)
    requires s.keys.forwardmove == 0.0 && s.keys.sidemove == 0.0
    ensures var s' := Duck(env, s);
            && s' == s.(stance := s'.stance, keys := s'.keys) && KeepsPosture(s, s', hulls)
            && s'.keys.forwardmove == 0.0 && s'.keys.sidemove == 0.0
  {
    hide UnDuck, CatagorizePosition, FixPlayerCrouchStuck, DuckingView;
  }

  /** A slide with nothing in the way goes straight to its end. */
  lemma FlyMoveFree(env: Env, s: Mover)
    requires Sound(env.engine) && Free(env, s.stance.usehull, s.origin, Add(s.origin, Scale(env.frametime, s.velocity)))
    ensures FlyMove(env, s) == s.(origin := Add(s.origin, Scale(env.frametime, s.velocity)))
  {
    hide Sound, Add, Scale, Turned, AddToTouched, Remaining;
    var end := Add(s.origin, Scale(env.frametime, s.velocity));
    FreeTrace(env.engine, s.stance.usehull, s.origin, end);
    NoMotion(s.origin, env.frametime);
    var f := SlideAt(env, s, 1);
    assert SlideAt(env, s, 0) == StartSlide(env, s);
    assert f == Bump(env, StartSlide(env, s));
    StoppedStays(env, s, 1, NUM_BUMPS);
    assert WholeSlide(env, s) == f;
    assert f.origin == end && f.touch == s.touch;
  }

  lemma NoMotion(p: Vec, time: real)
    ensures Add(p, Scale(time, ORIGIN)) == p
  {}

  lemma NoKeys(w: View, k: Keys)
    requires k.forwardmove == 0.0 && k.sidemove == 0.0
    ensures WishVelocity(w, k) == ORIGIN
  {
    assert w.forward.x * k.forwardmove == 0.0 && w.forward.y * k.forwardmove == 0.0;
    assert w.right.x * k.sidemove == 0.0 && w.right.y * k.sidemove == 0.0;
  }

  lemma NoWish(env: Env, w: View, k: Keys)
    requires Sound(env.engine) && k.forwardmove == 0.0 && k.sidemove == 0.0
    ensures var wish := WishVelocity(w, k);
            && Normalize(env.engine, wish) == ORIGIN && Length(env.engine, wish) == 0.0
  {
    hide Sound, Normalize, Length, WishVelocity, Scale, Square;
    NoKeys(w, k);
    NormalizeSound(env.engine, ORIGIN);
    LengthOrigin(env.engine);
  }

  lemma AirMoveFree(env: Env, s: Mover)
    requires Sound(env.engine) && s.keys.forwardmove == 0.0 && s.keys.sidemove == 0.0 && s.basevelocity == ORIGIN
    requires Free(env, s.stance.usehull, s.origin, Add(s.origin, Scale(env.frametime, s.velocity)))
    ensures var s' := AirMove(env, s);
            s' == s.(origin := Add(s.origin, Scale(env.frametime, s.velocity)), view := s'.view)
  {
    hide Sound, Add, Scale, FlyMove, FlattenView, WishVelocity, Normalize, Length, AccelPush;
    var v := s.(view := FlattenView(env, s.view));
    NoWish(env, v.view, s.keys);
    PushNowhere(s.velocity, Min(Min(0.0, env.maxspeed), 30.0), AccelPush(env, Min(0.0, env.maxspeed), env.vars.airaccelerate));
    FlyMoveFree(env, v);
  }

  lemma PushNowhere(v: Vec, target: real, push: real)
    requires target <= 0.0
    ensures Pushed(v, ORIGIN, target, push) == v && Add(v, ORIGIN) == v
  {}

  /** The two halves of gravity, with no base velocity and no speed limit in the way. */
  lemma Halves(env: Env, v: Vec)
    requires Clampless(env, MidVelocity(env, v))
    ensures FirstHalf(env, v, ORIGIN) == MidVelocity(env, v)
    ensures SecondHalf(env, 0.0, v) == MidVelocity(env, v)
    ensures Flat(ORIGIN) == ORIGIN && Add(ORIGIN, ORIGIN) == ORIGIN && Sub(v, ORIGIN) == v
  {
    hide Clamped;
    assert Fall(env, v) == MidVelocity(env, v);
    assert Rise(Fall(env, v), 0.0, env.frametime) == Fall(env, v);
  }

  function Lifting(env: Env, v: Vec, base: Vec): Vec { WithZ(v, MidVelocity(env, v).z + base.z * env.frametime) }

  lemma FirstHalfLifts(env: Env, v: Vec, base: Vec)
    requires Clampless(env, Lifting(env, v, base))
    ensures FirstHalf(env, v, base) == Lifting(env, v, base)
  {
    hide Clamped;
    assert Fall(env, v) == MidVelocity(env, v);
    assert Rise(Fall(env, v), base.z, env.frametime) == Lifting(env, v, base);
  }

  /** A base velocity lifts the player while half of gravity is taken, if no limit is reached; that uses it up,
      but for its level part. */
  lemma BaseLifts(env: Env, s: Mover)
    requires s.waterjumptime == 0.0 && Clampless(env, Lifting(env, s.velocity, s.basevelocity))
    ensures var s' := AddCorrectGravity(env, s);
            && s'.velocity == Lifting(env, s.velocity, s.basevelocity)
            && s'.basevelocity == Vec(s.basevelocity.x, s.basevelocity.y, 0.0)
  {
    hide FirstHalf, Lifting;
    FirstHalfLifts(env, s.velocity, s.basevelocity);
  }

  /** A base velocity carries the player along with it, and is his no more when it is taken off again. */
  lemma CarriedByBase(env: Env, s: Mover)
    requires Sound(env.engine) && s.keys.forwardmove == 0.0 && s.keys.sidemove == 0.0
    requires Free(env, s.stance.usehull, s.origin, Add(s.origin, Scale(env.frametime, Add(s.velocity, s.basevelocity))))
    ensures var s' := RemoveBase(AirMove(env, s));
            && s'.velocity == s.velocity
            && s'.origin == Add(s.origin, Scale(env.frametime, Add(s.velocity, s.basevelocity)))
  {
    hide Sound, Scale, FlyMove, FlattenView, WishVelocity, Normalize, Length, AccelPush;
    var v := s.(view := FlattenView(env, s.view));
    NoWish(env, v.view, s.keys);
    PushNowhere(s.velocity, Min(Min(0.0, env.maxspeed), 30.0), AccelPush(env, Min(0.0, env.maxspeed), env.vars.airaccelerate));
    FlyMoveFree(env, AddBase(v));
  }

  /** The step of a player in the air who is already in the middle of the frame's fall. */
  lemma StepDrifts(env: Env, s: Mover, v: Vec)
    requires Sound(env.engine)
    requires var b := JumpButton(env, s);
             && Drifts(b) && b.onground == -1 && b.keys.forwardmove == 0.0 && b.keys.sidemove == 0.0
             && b.velocity == MidVelocity(env, v) && Leaves(env, b.stance.usehull, b.origin, v)
    ensures var b := JumpButton(env, s);
            var s' := Step(env, s);
            && s'.origin == Add(b.origin, Scale(env.frametime, b.velocity))
            && s'.velocity == MidVelocity(env, b.velocity)
            && Drifts(s') && s'.onground == -1 && s'.stance == b.stance && s'.keys == b.keys
  {
    hide Sound, JumpButton, CatagorizePosition, AirMove, WalkMove, SecondHalf, MidVelocity, Clamped, Add, Sub, Scale;
    hide Submerged, Free, Feet;
    var b := JumpButton(env, s);
    Halves(env, v);
    Halves(env, b.velocity);
    var g := CheckVelocity(env, GroundDrag(env, b));
    assert g == b;
    AirMoveFree(env, g);
    var m := AirMove(env, g);
    CatagorizeAloft(env, m);
  }

  /** One frame of free fall, to the unit. */
  lemma FrameFalls(env: Env, s: Mover, hulls: set<int>)
    requires Sound(env.engine) && Drifts(s) && HandsOff(env, Crouched(s.stance)) && FitsIn(s.stance, hulls)
    requires FallsAt(env, hulls, s.origin, s.velocity)
    ensures var s' := PlayerMove(env, s);
            var mid := MidVelocity(env, s.velocity);
            && s'.origin == Add(s.origin, Scale(env.frametime, mid))
            && s'.velocity == MidVelocity(env, mid)
            && Drifts(s') && s'.onground == -1 && KeepsPosture(s, s', hulls)
  {
    hide Sound, CatagorizePosition, Duck, Step, Swim, WaterJump, FlyMove, FirstHalf, MidVelocity, Add, Scale;
    hide InTheAir, Free, Clampless;
    var s1 := StartFrame(env, s);
    CatagorizeAloft(env, s1);
    Halves(env, s.velocity);
    var s2 := Aloft(s1);
    DuckAloft(env, s2, hulls);
    var s4 := AddCorrectGravity(env, Duck(env, s2));
    assert s4.velocity == MidVelocity(env, s.velocity) && s4.basevelocity == ORIGIN;
    StepDrifts(env, s4, s.velocity);
  }

  // ----- any division of the time -----

  function Total(envs: seq<Env>): real {
    if envs == [] then 0.0 else Total(envs[..|envs| - 1]) + envs[|envs| - 1].frametime
  }

  function Coast(p: real, v: real, time: real): real { p + v * time }

  function Parabola(p: Vec, v: Vec, g: real, time: real): Vec {
    Vec(Coast(p.x, v.x, time), Coast(p.y, v.y, time), Coast(p.z, v.z, time) - Sunk(g, time))
  }

  function Sunk(g: real, time: real): real { g * time * time / 2.0 }

  function Slope(v: Vec, g: real, time: real): Vec { WithZ(v, v.z - g * time) }

  lemma ParabolaStart(p: Vec, v: Vec, g: real)
    ensures Parabola(p, v, g, 0.0) == p && Slope(v, g, 0.0) == v
  {}

  lemma CoastStep(p: real, v: real, time: real, dt: real)
    ensures Coast(p, v, time) + dt * v == Coast(p, v, time + dt)
  {}

  lemma SunkStep(g: real, time: real, dt: real)
    ensures Sunk(g, time + dt) == Sunk(g, time) + dt * (g * time + g * 0.5 * dt)
  {
    var a, b := g * time, g * dt;
    calc {
      g * (time + dt) * (time + dt);
      (a + b) * (time + dt);
      a * time + a * dt + b * time + b * dt;
      { assert b * time == a * dt; }
      a * time + 2.0 * (a * dt) + b * dt;
    }
    assert dt * (a + 0.5 * b) == a * dt + 0.5 * (b * dt);
  }

  lemma ParabolaStep(p: Vec, v: Vec, g: real, time: real, dt: real)
    ensures Add(Parabola(p, v, g, time), Scale(dt, Vec(v.x, v.y, v.z - (g * time + g * 0.5 * dt)))) ==
            Parabola(p, v, g, time + dt)
  {
    hide Coast, Sunk;
    CoastStep(p.x, v.x, time, dt);
    CoastStep(p.y, v.y, time, dt);
    CoastStep(p.z, v.z, time, dt);
    SunkStep(g, time, dt);
    var loss := g * time + g * 0.5 * dt;
    assert dt * (v.z - loss) == dt * v.z - dt * loss;
  }

  /** Each frame falls freely from the point of the parabola that its time comes to. */
  ghost predicate FreePath(envs: seq<Env>, hulls: set<int>, crouched: bool, p: Vec, v: Vec, g: real) {
    forall k :: 0 <= k < |envs| ==>
      && Sound(envs[k].engine) && FrameGravity(envs[k]) == g && HandsOff(envs[k], crouched)
      && FallsAt(envs[k], hulls, Parabola(p, v, g, Total(envs[..k])), Slope(v, g, Total(envs[..k])))
  }

  /** Every division of the same time ends at the same place with the same velocity: that of the exact
      parabola. */
  lemma {:induction false} FreeFallExact(envs: seq<Env>, s: Mover, hulls: set<int>, g: real)
    requires Drifts(s) && FitsIn(s.stance, hulls)
    requires FreePath(envs, hulls, Crouched(s.stance), s.origin, s.velocity, g)
    ensures var s' := Run(envs, s);
            var time := Total(envs);
            && s'.origin == Parabola(s.origin, s.velocity, g, time)
            && s'.velocity == Slope(s.velocity, g, time)
            && Drifts(s') && KeepsPosture(s, s', hulls)
  {
    hide Sound, FallsAt, HandsOff, Drifts, FitsIn, Crouched, PlayerMove, Parabola, Slope, MidVelocity, FrameGravity;
    hide Add, Scale;
    var n := |envs|;
    ParabolaStart(s.origin, s.velocity, g);
    if n > 0 {
      var env, before := envs[n - 1], envs[..n - 1];
      var r := Run(before, s);
      forall k | 0 <= k < n - 1 ensures before[..k] == envs[..k] {}
      FreeFallExact(before, s, hulls, g);
      FrameFalls(env, r, hulls);
      FallStep(env, s.origin, s.velocity, g, Total(before));
    }
  }

  lemma FallStep(env: Env, p: Vec, v: Vec, g: real, time: real)
    requires FrameGravity(env) == g
    ensures var mid := MidVelocity(env, Slope(v, g, time));
            var dt := env.frametime;
            && Add(Parabola(p, v, g, time), Scale(dt, mid)) == Parabola(p, v, g, time + dt)
            && MidVelocity(env, mid) == Slope(v, g, time + dt)
  {
    hide FrameGravity;
    ParabolaStep(p, v, g, time, env.frametime);
  }
}
