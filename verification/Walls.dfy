/** When slides speed a player up: exactly the bounces that do, with a wall that makes them. */
module Walls {
  import opened Vectors
  import opened Engine
  import opened Player
  import opened SlideMove
  import opened SlideBounds
  import opened Worlds

  /** A standing player in the air, at rest but for its velocity. */
  function Airborne(p: Vec, v: Vec): Mover {
    Mover(p, v, ORIGIN, View(ORIGIN, ORIGIN, ORIGIN), Stance(STANDING, false, false, 0.0, 28.0),
          Keys(false, false, 0.0, 0.0, 0.0), ORIGIN, 0.0, -1, 0, -1, [])
  }

  // ----- a wall, for a bounce that gives back more than it takes -----

  function WallTrace(hull: int, a: Vec, b: Vec): Trace {
    var lo, hi := -(a.x + HullMaxs(hull).x), -(b.x + HullMaxs(hull).x);
    var f := Fallen(lo, hi);
    var solid := lo < 0.0;
    Trace(solid && hi < 0.0, solid, f, Add(a, Scale(f, Sub(b, a))), if f < 1.0 then Vec(-1.0, 0.0, 0.0) else ORIGIN,
          if f < 1.0 then 0 else -1)
  }

  /** Everything with a positive x is solid. */
  function HalfSpace(e: Callbacks): Callbacks {
    e.(clear := (lo: Vec, hi: Vec) => hi.x <= 0.0,
       playerTrace := (hull: int, a: Vec, b: Vec) => WallTrace(hull, a, b),
       testPlayerPosition := (hull: int, p: Vec) => if p.x + HullMaxs(hull).x <= 0.0 then -1 else 0,
       numphysent := 1)
  }

  lemma AcrossBetween(a: Vec, f: real, b: Vec, reach: real)
    ensures -(Add(a, Scale(f, Sub(b, a))).x + reach) == -(a.x + reach) + f * (-(b.x + reach) - -(a.x + reach))
  {}

  lemma EndsBefore(hull: int, a: Vec, b: Vec)
    requires a.x + HullMaxs(hull).x <= 0.0
    ensures WallTrace(hull, a, b).endpos.x + HullMaxs(hull).x <= 0.0
  {
    hide HullMaxs, Fallen, Add, Scale, Sub;
    var lo, hi := -(a.x + HullMaxs(hull).x), -(b.x + HullMaxs(hull).x);
    FallenLands(lo, hi);
    AcrossBetween(a, Fallen(lo, hi), b, HullMaxs(hull).x);
  }

  lemma WallClear(e: Callbacks, hull: int, p: Vec)
    ensures Clear(HalfSpace(e), hull, p) <==> p.x + HullMaxs(hull).x <= 0.0
  {
    hide HullMins, HullMaxs, WallTrace;
  }

  lemma WallTraceSound(e: Callbacks, hull: int, a: Vec, b: Vec)
    ensures TraceSound(HalfSpace(e), hull, a, b)
  {
    hide HullMins, HullMaxs, Clear, Add, Scale, Sub, Fallen, Square;
    var t := WallTrace(hull, a, b);
    WallClear(e, hull, a);
    WallClear(e, hull, t.endpos);
    FallenLands(-(a.x + HullMaxs(hull).x), -(b.x + HullMaxs(hull).x));
    if a.x + HullMaxs(hull).x <= 0.0 {
      EndsBefore(hull, a, b);
    }
    AcrossX(-1.0);
  }

  lemma HalfSpaceSound(e: Callbacks)
    requires Sound(e)
    ensures Sound(HalfSpace(e))
  {
    var w := HalfSpace(e);
    forall hull, a, b ensures TraceSound(w, hull, a, b) {
      WallTraceSound(e, hull, a, b);
    }
    forall hull, p ensures TestSound(w, hull, p) {
      WallClear(e, hull, p);
    }
    forall x ensures SqrtSound(w, x) {
      assert SqrtSound(e, x);
    }
  }

  /** A player at the wall, moving into it. */
  predicate AtWall(s: Mover) {
    s.onground == -1 && s.velocity == Vec(1.0, 0.0, 0.0) && s.origin.x + HullMaxs(s.stance.usehull).x == 0.0
  }

  lemma IntoTheWall(hull: int, a: Vec, b: Vec)
    requires a.x + HullMaxs(hull).x == 0.0
    ensures a.x < b.x ==> WallTrace(hull, a, b) == Trace(false, false, 0.0, a, Vec(-1.0, 0.0, 0.0), 0)
    ensures b.x < a.x ==> WallTrace(hull, a, b).fraction == 1.0 && !WallTrace(hull, a, b).allsolid
  {
    hide HullMaxs;
    var lo, hi := -(a.x + HullMaxs(hull).x), -(b.x + HullMaxs(hull).x);
    if a.x < b.x {
      assert Fallen(lo, hi) == 0.0;
    }
  }

  lemma WallTurns(env: Env)
    requires Bounce(env) > 1.0
    ensures Reflect(env, Vec(1.0, 0.0, 0.0), Vec(-1.0, 0.0, 0.0)) == Vec(-Bounce(env), 0.0, 0.0)
  {
    hide Bounce;
  }

  /** The first bump gets nowhere and turns the player back faster than he came. */
  lemma FirstBump(env: Env, e: Callbacks, s: Mover)
    requires env.movetype == MOVETYPE_WALK && Bounce(env) > 1.0 && env.engine == HalfSpace(e) && AtWall(s)
    requires 0.001 < env.frametime
    ensures var f := SlideAt(env, s, 1);
            && f.status == Running && f.velocity == Vec(-Bounce(env), 0.0, 0.0) && f.origin == s.origin
            && f.hull == s.stance.usehull && f.timeLeft == env.frametime && f.allFraction == 0.0
  {
    hide Bounce, Reflect, WallTrace, HullMaxs, AddToTouched;
    var f := StartSlide(env, s);
    var end := Add(f.origin, Scale(f.timeLeft, f.velocity));
    var pushed := Add(end, Scale(0.001, Vec(-1.0, 0.0, 0.0)));
    assert end.x == s.origin.x + env.frametime && pushed.x == end.x - 0.001;
    IntoTheWall(f.hull, f.origin, end);
    IntoTheWall(f.hull, f.origin, pushed);
    WallTurns(env);
    var t := BumpTrace(env, f);
    assert t == Trace(false, false, 0.0, f.origin, Vec(-1.0, 0.0, 0.0), 0);
    var landed := Landed(f.(allFraction := f.allFraction + t.fraction), t);
    assert landed.planes == [t.normal] && landed.original == f.velocity;
    assert SlideAt(env, s, 0) == f && SlideAt(env, s, 1) == Bump(env, f) == Deflect(env, landed);
  }

  /** The second bump has nothing in the way. */
  lemma SecondBump(env: Env, e: Callbacks, f: Slide)
    requires env.engine == HalfSpace(e) && f.origin.x + HullMaxs(f.hull).x == 0.0 && f.allFraction == 0.0
    requires f.velocity.x < 0.0 && 0.0 < f.timeLeft
    ensures var g := Bump(env, f);
            g.status == Stopped && g.velocity == f.velocity && g.allFraction == 1.0
  {
    hide WallTrace, HullMaxs;
    var end := Add(f.origin, Scale(f.timeLeft, f.velocity));
    ProductBelow(f.timeLeft, f.velocity.x);
    assert end.x == f.origin.x + f.timeLeft * f.velocity.x;
    IntoTheWall(f.hull, f.origin, end);
  }

  lemma ProductBelow(a: real, b: real)
    requires 0.0 < a && b < 0.0
    ensures a * b < 0.0
  {}

  /** With a bounce over 1 a player who runs into a wall in the air leaves it faster than he came. */
  lemma WallSpeedsUp(env: Env, e: Callbacks, s: Mover)
    requires env.movetype == MOVETYPE_WALK && Bounce(env) > 1.0 && env.engine == HalfSpace(e) && AtWall(s)
    requires 0.001 < env.frametime
    ensures FlyMove(env, s).velocity == Vec(-Bounce(env), 0.0, 0.0)
    ensures Square(FlyMove(env, s).velocity) > Square(s.velocity)
  {
    hide Bounce, SlideAt, HalfSpace, HullMaxs, Square, Bump;
    FirstBump(env, e, s);
    var f := SlideAt(env, s, 1);
    SecondBump(env, e, f);
    assert SlideAt(env, s, 2) == Bump(env, f) by { NextBump(env, s, 1); }
    StoppedStays(env, s, 2, NUM_BUMPS);
    AcrossX(-Bounce(env));
    AcrossX(1.0);
    SquareStrict(1.0, Bounce(env));
  }

  lemma NextBump(env: Env, s: Mover, k: nat)
    requires SlideAt(env, s, k).status == Running
    ensures SlideAt(env, s, k + 1) == Bump(env, SlideAt(env, s, k))
  {
    hide Bump;
  }

  // ----- the worst traces, for a bounce that drives the player on into walls -----

  /** A world without solids whose every trace nevertheless hits a wall across the x axis half way. */
  function Wall(e: Callbacks): Callbacks {
    e.(clear := (lo: Vec, hi: Vec) => true,
       playerTrace := (hull: int, a: Vec, b: Vec) =>
         Trace(false, false, 0.5, Add(a, Scale(0.5, Sub(b, a))), Vec(1.0, 0.0, 0.0), 0),
       testPlayerPosition := (hull: int, p: Vec) => -1,
       numphysent := 1)
  }

  lemma WallSound(e: Callbacks)
    requires Sound(e)
    ensures Sound(Wall(e))
  {
    hide Add, Scale, Sub;
    forall hull, a, b ensures TraceSound(Wall(e), hull, a, b) {}
    forall x ensures SqrtSound(Wall(e), x) {
      assert SqrtSound(e, x);
    }
  }

  function Rebound(b: real, x: real): real { -(b * x) }

  /** The slide is running along the x axis, not slower than it started, and faster once it has bounced. */
  predicate Bouncing(f: Slide, bumps: nat) {
    && f.status == Running && f.onground == -1 && f.allFraction >= 0.5 * bumps as real
    && f.velocity == Vec(f.velocity.x, 0.0, 0.0) && Abs(f.velocity.x) >= 1.0
    && (bumps > 0 ==> Abs(f.velocity.x) > 1.0)
  }

  lemma ReboundGrows(b: real, x: real)
    requires Abs(x) >= 1.0 && !(-1.0 <= b <= 1.0)
    ensures Abs(Rebound(b, x)) > 1.0
  {
    ProductMonotone(Abs(b), 1.0, Abs(b), Abs(x));
    assert Abs(b) * Abs(x) == b * x || Abs(b) * Abs(x) == -(b * x);
  }

  lemma WallReflects(env: Env, x: real)
    requires Abs(x) >= 1.0 && !(-1.0 <= Bounce(env) <= 1.0)
    ensures Reflect(env, Vec(x, 0.0, 0.0), Vec(1.0, 0.0, 0.0)) == Vec(Rebound(Bounce(env), x), 0.0, 0.0)
  {
    hide Bounce;
    var b := Bounce(env);
    ReboundGrows(b, x);
    assert Overbounce(env, Vec(1.0, 0.0, 0.0)) == 1.0 + b;
    assert x - x * (1.0 + b) == Rebound(b, x);
  }

  lemma WallBump(env: Env, e: Callbacks, f: Slide, bumps: nat)
    requires env.movetype == MOVETYPE_WALK && !TameBounce(env) && env.engine == Wall(e) && Bouncing(f, bumps)
    ensures Bouncing(Bump(env, f), bumps + 1)
  {
    hide Reflect, Add, Sub, Bounce, Rebound, AddToTouched, Remaining;
    var t := BumpTrace(env, f);
    assert t.fraction == 0.5 && t.normal == Vec(1.0, 0.0, 0.0) && !t.allsolid;
    var x := f.velocity.x;
    WallReflects(env, x);
    ReboundGrows(Bounce(env), x);
    var landed := Landed(f.(allFraction := f.allFraction + t.fraction), t);
    assert landed.planes == [t.normal] && landed.original == f.velocity;
    assert Bump(env, f) == Deflect(env, landed);
  }

  lemma {:induction false} WallSlide(env: Env, e: Callbacks, s: Mover, k: nat)
    requires env.movetype == MOVETYPE_WALK && !TameBounce(env) && env.engine == Wall(e)
    requires s.onground == -1 && s.velocity == Vec(1.0, 0.0, 0.0)
    ensures Bouncing(SlideAt(env, s, k), k)
  {
    hide Bump, TameBounce;
    if k > 0 {
      WallSlide(env, e, s, k - 1);
      WallBump(env, e, SlideAt(env, s, k - 1), k - 1);
    }
  }

  /** With too lively a bounce, a player in the air who meets walls gains speed. */
  lemma LivelySlide(env: Env, e: Callbacks, s: Mover)
    requires env.movetype == MOVETYPE_WALK && !TameBounce(env) && env.engine == Wall(e)
    requires s.onground == -1 && s.velocity == Vec(1.0, 0.0, 0.0)
    ensures Square(FlyMove(env, s).velocity) > Square(s.velocity)
  {
    hide SlideAt, TameBounce, Square, Wall;
    WallSlide(env, e, s, NUM_BUMPS);
    var f := WholeSlide(env, s);
    assert f.allFraction >= 2.0;
    AcrossX(f.velocity.x);
    AcrossX(1.0);
    SquareStrict(1.0, Abs(f.velocity.x));
  }

  lemma AcrossX(x: real)
    ensures Square(Vec(x, 0.0, 0.0)) == Abs(x) * Abs(x)
  {}

  lemma SameBounce(env: Env, e: Callbacks)
    ensures Bounce(env.(engine := e)) == Bounce(env) && TameBounce(env.(engine := e)) == TameBounce(env)
    ensures !TameBounce(env) ==> env.movetype == MOVETYPE_WALK
  {}

  lemma AirborneFacts(p: Vec, v: Vec)
    ensures Airborne(p, v).onground == -1 && Airborne(p, v).velocity == v
  {}

  lemma AtTheWall()
    ensures AtWall(Airborne(Vec(-16.0, 0.0, 0.0), Vec(1.0, 0.0, 0.0)))
  {}

  /** For a bounce that is not tame, a world and a player who gains speed in it. */
  lemma GainingSlide(env: Env) returns (e: Callbacks, s: Mover)
    requires Sound(env.engine) && !TameBounce(env)
    ensures Sound(e) && Square(FlyMove(env.(engine := e), s).velocity) > Square(s.velocity)
  {
    hide Sound, FlyMove, Wall, HalfSpace, Square, AtWall, Airborne, Bounce, TameBounce;
    if Bounce(env) > 1.0 && 0.001 < env.frametime {
      e, s := HalfSpace(env.engine), Airborne(Vec(-16.0, 0.0, 0.0), Vec(1.0, 0.0, 0.0));
      HalfSpaceSound(env.engine);
      SameBounce(env, e);
      AtTheWall();
      WallSpeedsUp(env.(engine := e), env.engine, s);
    } else {
      e, s := Wall(env.engine), Airborne(ORIGIN, Vec(1.0, 0.0, 0.0));
      WallSound(env.engine);
      SameBounce(env, e);
      AirborneFacts(ORIGIN, Vec(1.0, 0.0, 0.0));
      LivelySlide(env.(engine := e), env.engine, s);
    }
  }

  /** No slide speeds the player up, in any world and from any state, if and only if the bounce is tame or
      there is none. */
  lemma SlidesKeepSpeedIff(env: Env)
    requires Sound(env.engine)
    ensures (forall e: Callbacks, s: Mover | Sound(e) ::
               Square(FlyMove(env.(engine := e), s).velocity) <= Square(s.velocity)) <==> TameBounce(env)
  {
    hide Sound, FlyMove, Square, TameBounce;
    if TameBounce(env) {
      forall e: Callbacks, s: Mover | Sound(e) ensures Square(FlyMove(env.(engine := e), s).velocity) <= Square(s.velocity) {
        SameBounce(env, e);
        FlyMoveKeepsSpeed(env.(engine := e), s);
      }
    } else {
      var e, s := GainingSlide(env);
    }
  }
}
