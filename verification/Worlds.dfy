/** Worlds that keep the engine's contract, so that what is proved under the contract is proved of something:
    open space over a floor, in which traces do hit. */
module Worlds {
  import opened Vectors
  import opened Engine
  import opened Movement
  import opened FreeFall
  import opened Player
  import opened Jumping

  /** How far down the trace of a box gets, as a fraction, when its underside goes from height a to b. */
  function Fallen(a: real, b: real): real {
    if a < 0.0 then 0.0 else if b >= 0.0 then 1.0 else a / (a - b)
  }

  function FloorTrace(hull: int, a: Vec, b: Vec): Trace {
    var lo, hi := a.z + HullMins(hull).z, b.z + HullMins(hull).z;
    var f := Fallen(lo, hi);
    var solid := lo < 0.0;
    Trace(solid && hi < 0.0, solid, f, Add(a, Scale(f, Sub(b, a))), if f < 1.0 then Vec(0.0, 0.0, 1.0) else ORIGIN,
          if f < 1.0 then 0 else -1)
  }

  /** Everything below height 0 is solid. */
  function FloorWorld(sqrt: real -> real): Callbacks {
    Callbacks(
      (lo: Vec, hi: Vec) => lo.z >= 0.0,
      (hull: int, a: Vec, b: Vec) => FloorTrace(hull, a, b),
      (hull: int, p: Vec) => if p.z + HullMins(hull).z >= 0.0 then -1 else 0,
      (p: Vec) => if p.z >= 0.0 then -1 else -2,
      (p: Vec) => if p.z >= 0.0 then -1 else -2,
      sqrt, 1)
  }

  lemma FallenLands(a: real, b: real)
    ensures 0.0 <= Fallen(a, b) <= 1.0
    ensures 0.0 <= a ==> a + Fallen(a, b) * (b - a) >= 0.0
  {
    if 0.0 <= a && b < 0.0 {
      assert a / (a - b) * (a - b) == a;
    }
  }

  /** The world over a floor keeps the contract, for any square root that is one. */
  lemma FloorWorldSound(sqrt: real -> real)
    requires forall x :: 0.0 <= x ==> 0.0 <= sqrt(x) && sqrt(x) * sqrt(x) == x
    ensures Sound(FloorWorld(sqrt))
  {
    var e := FloorWorld(sqrt);
    forall hull, a, b ensures TraceSound(e, hull, a, b) {
      FloorTraceSound(sqrt, hull, a, b);
    }
    forall hull, p ensures TestSound(e, hull, p) {
      assert Clear(e, hull, p) <==> p.z + HullMins(hull).z >= 0.0;
    }
  }

  lemma HeightBetween(a: Vec, f: real, b: Vec, rise: real)
    ensures Add(a, Scale(f, Sub(b, a))).z + rise == (a.z + rise) + f * ((b.z + rise) - (a.z + rise))
  {}

  /** Where the trace of a box that starts above the floor ends, the box is above the floor. */
  lemma EndsAbove(hull: int, a: Vec, b: Vec)
    requires 0.0 <= a.z + HullMins(hull).z
    ensures 0.0 <= FloorTrace(hull, a, b).endpos.z + HullMins(hull).z
  {
    hide HullMins, Fallen, Add, Scale, Sub;
    var lo, hi := a.z + HullMins(hull).z, b.z + HullMins(hull).z;
    FallenLands(lo, hi);
    HeightBetween(a, Fallen(lo, hi), b, HullMins(hull).z);
  }

  lemma FloorClear(sqrt: real -> real, hull: int, p: Vec)
    ensures Clear(FloorWorld(sqrt), hull, p) <==> 0.0 <= p.z + HullMins(hull).z
  {
    hide HullMins, HullMaxs, FloorTrace;
  }

  lemma FloorTraceSound(sqrt: real -> real, hull: int, a: Vec, b: Vec)
    ensures TraceSound(FloorWorld(sqrt), hull, a, b)
  {
    hide HullMins, HullMaxs, Clear, Add, Scale, Sub, Fallen, Square;
    var t := FloorTrace(hull, a, b);
    FloorClear(sqrt, hull, a);
    FloorClear(sqrt, hull, t.endpos);
    FallenLands(a.z + HullMins(hull).z, b.z + HullMins(hull).z);
    if 0.0 <= a.z + HullMins(hull).z {
      EndsAbove(hull, a, b);
    }
    UpIsUnit();
  }

  /** A player above the floor falls freely for a frame that ends two units or more above it, if no speed
      limit is reached: what free fall asks for can happen. */
  lemma FallsAboveFloor(env: Env, sqrt: real -> real, hull: int, p: Vec, v: Vec)
    requires env.engine == FloorWorld(sqrt)
    requires Clampless(env, MidVelocity(env, v)) && Clampless(env, MidVelocity(env, MidVelocity(env, v)))
    requires 2.0 <= p.z + HullMins(hull).z
    requires 2.0 <= Add(p, Scale(env.frametime, MidVelocity(env, v))).z + HullMins(hull).z
    ensures FallsAt(env, {hull}, p, v)
  {
    hide MidVelocity, Clampless, Scale, HullMaxs;
    forall q: Vec, u: Vec | 2.0 <= q.z + HullMins(hull).z ensures InTheAir(env, hull, q, u) {
      assert Fallen(q.z + HullMins(hull).z, Sub(q, Up(2.0)).z + HullMins(hull).z) == 1.0;
    }
  }

  /** A player on the floor who jumps at more than 180 units a second leaves it freely, if no speed limit is
      reached: what a jump asks for can happen too. */
  lemma JumpsFromFloor(env: Env, sqrt: real -> real, d: Mover)
    requires env.engine == FloorWorld(sqrt) && Jumps(env, d)
    requires d.basevelocity == ORIGIN && d.keys.forwardmove == 0.0 && d.keys.sidemove == 0.0
    requires var mid := MidVelocity(env, Takeoff(env, d));
             && 180.0 < mid.z && 0.0 <= env.frametime
             && Clampless(env, mid) && Clampless(env, MidVelocity(env, mid))
    requires 0.0 <= d.origin.z + HullMins(d.stance.usehull).z
    ensures JumpsFreely(env, d)
  {
    hide MidVelocity, Takeoff, Clampless, HullMaxs, Jumps;
    var mid := MidVelocity(env, Takeoff(env, d));
    ProductMonotone(0.0, 0.0, env.frametime, mid.z);
    assert Add(d.origin, Scale(env.frametime, mid)).z == d.origin.z + env.frametime * mid.z;
  }

  // ----- a jump that happens -----

  /** A command of a hundredth of a second, with no key down but perhaps the jump key, under the game's usual
      gravity. */
  function Tick(sqrt: real -> real, jump: bool): Env {
    Env(FloorWorld(sqrt), MoveVars(800.0, 100.0, 10.0, 10.0, 4.0, 2.0, 1.0, 18.0, 2000.0),
        Cmd(10, false, jump, false, WalkKeys(false, false, false, false), 0.0, 0.0, 0.0, ORIGIN, ORIGIN, ORIGIN),
        0.01, MOVETYPE_WALK, 1.0, 1.0, 320.0, false, false, false, false, false, false)
  }

  /** A player who stands still on the floor. */
  function Standing(): Mover {
    Mover(Vec(0.0, 0.0, 36.0), ORIGIN, ORIGIN, View(ORIGIN, ORIGIN, ORIGIN), Stance(STANDING, false, false, 0.0, VEC_VIEW),
          Keys(false, false, 0.0, 0.0, 0.0), ORIGIN, 0.0, 0, 0, CONTENTS_EMPTY, [])
  }

  lemma StandsReady(sqrt: real -> real)
    ensures Ready(Tick(sqrt, true), Standing()) == Standing()
  {
    hide FloorWorld, CatagorizePosition, UnDuck, HoldDuck, Scale;
    assert StartFrame(Tick(sqrt, true), Standing()) == Standing();
    StandsOnFloor(Tick(sqrt, true), sqrt, Standing());
  }

  /** The floor less than two units under the feet. */
  lemma FloorUnderfoot(hull: int, p: Vec, gap: real)
    requires p.z + HullMins(hull).z == gap && 0.0 <= gap < 2.0
    ensures FloorTrace(hull, p, Sub(p, Up(2.0))) == Trace(false, false, gap / 2.0, Lower(p, gap), Vec(0.0, 0.0, 1.0), 0)
  {
    hide HullMins;
    assert Fallen(gap, gap - 2.0) == gap / 2.0;
  }

  function Lower(p: Vec, gap: real): Vec { Vec(p.x, p.y, p.z - gap) }

  lemma LowerNone(p: Vec)
    ensures Lower(p, 0.0) == p
  {}

  lemma DryFeet(env: Env, sqrt: real -> real, hull: int, p: Vec, viewZ: real)
    requires env.engine == FloorWorld(sqrt) && 0.0 <= p.z + HullMins(hull).z
    ensures ProbeWater(env, hull, p, viewZ) == Water(0, CONTENTS_EMPTY, ORIGIN)
  {
    hide FloorTrace, HullMins, HullMaxs;
    assert 1.0 <= Feet(hull, p).z;
  }

  lemma TracesFloor(env: Env, sqrt: real -> real, s: Mover, a: Vec, b: Vec)
    requires env.engine == FloorWorld(sqrt)
    ensures Tracing(env, s, a, b) == FloorTrace(s.stance.usehull, a, b)
  {
    hide FloorTrace;
  }

  /** The player on dry ground. */
  function Dry(s: Mover): Mover { s.(waterlevel := 0, watertype := CONTENTS_EMPTY) }

  lemma DryStays(env: Env, s: Mover)
    requires ProbeWater(env, s.stance.usehull, s.origin, s.stance.viewZ) == Water(0, CONTENTS_EMPTY, ORIGIN)
    requires s.basevelocity == ORIGIN
    ensures CheckWater(env, s) == Dry(s)
  {
    hide ProbeWater;
  }

  lemma FloorSnaps(s: Mover, gap: real)
    requires s.waterlevel == 0
    ensures Grounded(s, Trace(false, false, gap / 2.0, Lower(s.origin, gap), Vec(0.0, 0.0, 1.0), 0)) ==
            s.(onground := 0, waterjumptime := 0.0, origin := Lower(s.origin, gap))
  {}

  /** A player who is not rising fast and less than two units above the floor is put on it. */
  lemma FindsFloor(env: Env, sqrt: real -> real, s: Mover, gap: real)
    requires env.engine == FloorWorld(sqrt) && s.velocity.z <= 180.0 && s.basevelocity == ORIGIN
    requires s.origin.z + HullMins(s.stance.usehull).z == gap && 0.0 <= gap < 2.0
    ensures CatagorizePosition(env, s) == Dry(s).(onground := 0, waterjumptime := 0.0, origin := Lower(s.origin, gap))
  {
    hide FloorTrace, FloorWorld, ProbeWater, Tracing, HullMins, Grounded, CheckWater, Sub, Lower;
    var down := Sub(s.origin, Up(2.0));
    DryFeet(env, sqrt, s.stance.usehull, s.origin, s.stance.viewZ);
    DryStays(env, s);
    FloorUnderfoot(s.stance.usehull, s.origin, gap);
    TracesFloor(env, sqrt, Dry(s), s.origin, down);
    FloorSnaps(Dry(s), gap);
  }

  lemma StandsOnFloor(env: Env, sqrt: real -> real, s: Mover)
    requires env.engine == FloorWorld(sqrt) && s.stance.usehull == STANDING && s.origin.z == 36.0 && s.velocity.z <= 180.0
    requires s.onground == 0 && s.waterjumptime == 0.0 && s.basevelocity == ORIGIN
    requires s.waterlevel == 0 && s.watertype == CONTENTS_EMPTY
    ensures CatagorizePosition(env, s) == s
  {
    hide CatagorizePosition, FloorWorld;
    FindsFloor(env, sqrt, s, 0.0);
  }

  lemma TakeoffBounds(u: real)
    requires 0.0 <= u && u * u == 2.0 * 800.0 * 45.0
    ensures 265.0 <= u <= 270.0
  {
    RootMonotone(265.0, u);
    RootMonotone(u, 270.0);
  }

  lemma TickGravity(sqrt: real -> real, jump: bool)
    ensures FrameGravity(Tick(sqrt, jump)) == 800.0
  {}

  lemma TickFalls(env: Env, v: Vec)
    requires FrameGravity(env) == 800.0 && env.frametime == 0.01
    ensures MidVelocity(env, v) == WithZ(v, v.z - 4.0)
  {
    hide FrameGravity;
  }

  lemma InRange(env: Env, v: Vec)
    requires env.vars.maxvelocity == 2000.0 && v.x == 0.0 && v.y == 0.0 && -2000.0 <= v.z <= 2000.0
    ensures Clampless(env, v)
  {}

  lemma JumpStarts(env: Env, sqrt: real -> real, d: Mover)
    requires env.engine == FloorWorld(sqrt) && Jumps(env, d) && env.vars.maxvelocity == 2000.0 && env.frametime == 0.01
    requires FrameGravity(env) == 800.0
    requires d.basevelocity == ORIGIN && d.keys.forwardmove == 0.0 && d.keys.sidemove == 0.0
    requires 0.0 <= d.origin.z + HullMins(d.stance.usehull).z
    requires Takeoff(env, d).x == 0.0 && Takeoff(env, d).y == 0.0 && 265.0 <= Takeoff(env, d).z <= 270.0
    ensures JumpsFreely(env, d)
  {
    hide FloorWorld, JumpsFreely, Jumps, Takeoff, MidVelocity, Clampless, HullMins, FrameGravity;
    var mid := MidVelocity(env, Takeoff(env, d));
    TickFalls(env, Takeoff(env, d));
    TickFalls(env, mid);
    InRange(env, mid);
    InRange(env, MidVelocity(env, mid));
    JumpsFromFloor(env, sqrt, d);
  }

  lemma JumpGoesOn(sqrt: real -> real, v: Vec)
    requires v.x == 0.0 && v.y == 0.0 && 265.0 <= v.z <= 270.0
    ensures FallsAt(Tick(sqrt, false), {STANDING}, Parabola(Standing().origin, v, 800.0, 0.01), Slope(v, 800.0, 0.01))
  {
    hide FloorWorld, FallsAt, MidVelocity, Parabola, Slope, Clampless, FrameGravity;
    var next := Tick(sqrt, false);
    var p, u := Parabola(Standing().origin, v, 800.0, 0.01), Slope(v, 800.0, 0.01);
    TickGravity(sqrt, false);
    TickFalls(next, u);
    TickFalls(next, MidVelocity(next, u));
    RisesOn(Standing().origin, v);
    InRange(next, MidVelocity(next, u));
    InRange(next, MidVelocity(next, MidVelocity(next, u)));
    FallsAboveFloor(next, sqrt, STANDING, p, u);
  }

  /** Everything that the theorem on the height of a jump asks for happens: a player jumps off a solid floor
      and is in the air for another command. */
  lemma JumpHappens(sqrt: real -> real)
    requires forall x :: 0.0 <= x ==> 0.0 <= sqrt(x) && sqrt(x) * sqrt(x) == x
    ensures var env := Tick(sqrt, true);
            var d := Ready(env, Standing());
            var v := Takeoff(env, d);
            && Sound(env.engine) && JumpsFreely(env, d) && FrameGravity(env) == 800.0
            && FitsIn(d.stance, {STANDING})
            && FreePath([Tick(sqrt, false)], {STANDING}, Crouched(d.stance), Parabola(d.origin, v, 800.0, env.frametime),
                        Slope(v, 800.0, env.frametime), 800.0)
  {
    hide FloorWorld, FallsAt, JumpsFreely, Sound, Ready, Takeoff, MidVelocity, FrameGravity, Parabola, Slope;
    var env, next := Tick(sqrt, true), Tick(sqrt, false);
    FloorWorldSound(sqrt);
    StandsReady(sqrt);
    TickGravity(sqrt, true);
    TickGravity(sqrt, false);
    TakeoffUp(sqrt);
    var v := Takeoff(env, Standing());
    TakeoffBounds(v.z);
    JumpStarts(env, sqrt, Standing());
    JumpGoesOn(sqrt, v);
    ParabolaStart(Parabola(Standing().origin, v, 800.0, 0.01), Slope(v, 800.0, 0.01), 800.0);
    assert [next][..0] == [];
  }

  lemma TakeoffUp(sqrt: real -> real)
    requires forall x :: 0.0 <= x ==> 0.0 <= sqrt(x) && sqrt(x) * sqrt(x) == x
    ensures var v := Takeoff(Tick(sqrt, true), Standing());
            v.x == 0.0 && v.y == 0.0 && 0.0 <= v.z && v.z * v.z == 2.0 * 800.0 * 45.0
  {}

  /** Where the jump is after a hundredth of a second, and after two. */
  lemma RisesOn(p: Vec, v: Vec)
    requires 265.0 <= v.z <= 270.0
    ensures var q, u := Parabola(p, v, 800.0, 0.01), Slope(v, 800.0, 0.01);
            && p.z + 2.0 <= q.z && u == WithZ(v, v.z - 8.0)
            && p.z + 2.0 <= Add(q, Scale(0.01, WithZ(u, u.z - 4.0))).z
  {}

  lemma UpIsUnit()
    ensures Square(Vec(0.0, 0.0, 1.0)) == 1.0
  {}
}
