/** What becomes of a velocity at an impact, direction by direction: it loses what goes into the plane and
    keeps what goes along it. */
module Impacts {
  import opened Vectors
  import opened Engine
  import opened Player
  import opened SlideMove
  import opened SlideBounds
  import opened Worlds
  import opened Walls

  // ----- one clip -----

  /** The epsilon zeroing changes what is measured along u by no more than this. */
  function Blur(u: Vec): real { 0.1 * (Abs(u.x) + Abs(u.y) + Abs(u.z)) }

  lemma SnapNear(r: real, w: real) returns (d: real)
    ensures d == Snap(r) * w - r * w && Abs(d) <= 0.1 * Abs(w)
  {
    d := Snap(r) * w - r * w;
    if Snap(r) != r {
      ProductMonotone(Abs(r), Abs(w), 0.1, Abs(w));
      assert Abs(r * w) == Abs(r) * Abs(w);
    }
  }

  lemma DeflectionAlong(v: Vec, n: Vec, o: real, u: Vec)
    ensures Dot(Deflection(v, n, o), u) == Dot(v, u) - o * Dot(v, n) * Dot(n, u)
  {
    var k := Dot(v, n) * o;
    assert (v.x - k * n.x) * u.x == v.x * u.x - k * (n.x * u.x);
    assert (v.y - k * n.y) * u.y == v.y * u.y - k * (n.y * u.y);
    assert (v.z - k * n.z) * u.z == v.z * u.z - k * (n.z * u.z);
    assert k * (n.x * u.x) + k * (n.y * u.y) + k * (n.z * u.z) == k * Dot(n, u);
  }

  /** Measured along any u, the clip takes away overbounce times the part of the velocity that goes into the
      plane, as u sees it, but for the epsilon zeroing. */
  lemma ClipAlong(v: Vec, n: Vec, o: real, u: Vec)
    ensures Abs(Dot(ClipVelocity(v, n, o), u) - (Dot(v, u) - o * Dot(v, n) * Dot(n, u))) <= Blur(u)
  {
    hide Deflection, Snap, Dot, Blur;
    DeflectionAlong(v, n, o, u);
    SnapDot(Deflection(v, n, o), u);
  }

  lemma SnapDot(d: Vec, u: Vec)
    ensures Abs(Dot(Vec(Snap(d.x), Snap(d.y), Snap(d.z)), u) - Dot(d, u)) <= Blur(u)
  {
    hide Snap, Abs;
    var a := SnapNear(d.x, u.x);
    var b := SnapNear(d.y, u.y);
    var c := SnapNear(d.z, u.z);
    AbsSum(a, b, c);
    assert Dot(Vec(Snap(d.x), Snap(d.y), Snap(d.z)), u) - Dot(d, u) == a + b + c;
  }

  lemma AbsSum(a: real, b: real, c: real)
    ensures Abs(a + b + c) <= Abs(a) + Abs(b) + Abs(c)
  {}

  /** Off a plane: along every direction in the plane the velocity is kept, along its normal it is turned to
      (1 - o) times itself, but for the epsilon zeroing. */
  lemma ClipDirections(v: Vec, n: Vec, o: real)
    requires Square(n) == 1.0
    ensures forall u: Vec :: Dot(u, n) == 0.0 ==> Abs(Dot(ClipVelocity(v, n, o), u) - Dot(v, u)) <= Blur(u)
    ensures Abs(Dot(ClipVelocity(v, n, o), n) - (1.0 - o) * Dot(v, n)) <= Blur(n)
  {
    hide ClipVelocity, Blur, Dot;
    forall u: Vec | Dot(u, n) == 0.0 ensures Abs(Dot(ClipVelocity(v, n, o), u) - Dot(v, u)) <= Blur(u) {
      ClipAlong(v, n, o, u);
      DotSymmetric(n, u);
    }
    ClipAlong(v, n, o, n);
    assert o * Dot(v, n) * 1.0 == o * Dot(v, n);
    assert (1.0 - o) * Dot(v, n) == Dot(v, n) - o * Dot(v, n);
  }

  // ----- the crease -----

  /** Along the crease of two planes the velocity leaves both alone, and what it has along the crease is what
      it had, times the square of the crease. */
  lemma CreaseAlong(v: Vec, planes: seq<Vec>)
    requires |planes| == 2
    ensures var dir := Cross(planes[0], planes[1]);
            && Dot(Crease(v, planes), planes[0]) == 0.0 && Dot(Crease(v, planes), planes[1]) == 0.0
            && Dot(Crease(v, planes), dir) == Dot(v, dir) * Square(dir)
  {
    hide Cross, Dot;
    var a, b := planes[0], planes[1];
    var dir := Cross(a, b);
    CrossPerpendicular(a, b);
    ScaleDot(Dot(dir, v), dir, a);
    ScaleDot(Dot(dir, v), dir, b);
    ScaleDot(Dot(dir, v), dir, dir);
    DotSymmetric(dir, v);
  }

  lemma CrossPerpendicular(a: Vec, b: Vec)
    ensures Dot(Cross(a, b), a) == 0.0 && Dot(Cross(a, b), b) == 0.0
  {
    var Vec(p, q, r) := a;
    var Vec(s, t, u) := b;
    assert (q * u - r * t) * p + (r * s - p * u) * q + (p * t - q * s) * r == 0.0;
    assert (q * u - r * t) * s + (r * s - p * u) * t + (p * t - q * s) * u == 0.0;
  }

  // ----- an impact in a slide -----

  /** How much of what goes into a plane comes back: nothing off a floor, nothing while standing with the
      usual friction. */
  function Rebound(env: Env, onground: int, n: Vec): real {
    if n.z <= 0.7 && env.movetype == MOVETYPE_WALK && (onground == -1 || env.friction != 1.0)
    then env.vars.bounce * (1.0 - env.friction) else 0.0
  }

  /** After an impact on one plane the slide goes on along that plane: it keeps the velocity in every direction
      in the plane and turns what it has into the plane to its rebound, but for the epsilon zeroing - unless
      that would take it back, or it comes to rest. The entity hit is recorded with the velocity it was hit
      at, a floor and a wall are noted. */
  lemma ImpactGoesOn(env: Env, f: Slide, t: Trace)
    requires t == BumpTrace(env, f) && f.status == Running && f.velocity != ORIGIN && !t.allsolid
    requires 0.0 < t.fraction < 1.0 && Square(t.normal) == 1.0
    ensures var g := Bump(env, f);
            && g.origin == t.endpos && g.timeLeft == f.timeLeft - f.timeLeft * t.fraction
            && g.touch == (if Touches(f.touch, t.ent) then f.touch else f.touch + [Touch(t, f.velocity)])
            && g.floor == (f.floor || 0.7 < t.normal.z) && g.wall == (f.wall || t.normal.z == 0.0)
            && (g.status == Running ==>
                  && Abs(Dot(g.velocity, t.normal) + Rebound(env, f.onground, t.normal) * Dot(f.velocity, t.normal)) <= Blur(t.normal)
                  && forall u: Vec :: Dot(u, t.normal) == 0.0 ==> Abs(Dot(g.velocity, u) - Dot(f.velocity, u)) <= Blur(u))
            && (g.status != Running ==>
                  g.status == Stopped && g.velocity == ORIGIN && !(f.onground == -1 && env.movetype == MOVETYPE_WALK))
  {
    hide BumpTrace, Touches, ClipVelocity, Square, Dot, Blur;
    var landed := Landed(f.(allFraction := f.allFraction + t.fraction), t);
    assert landed.planes == [t.normal] && landed.original == f.velocity;
    OnePlane(f.velocity, t.normal);
    var o := if Reflects(env, f.onground, [t.normal]) then Overbounce(env, t.normal) else 1.0;
    ClipDirections(f.velocity, t.normal, o);
    assert 1.0 - o == -Rebound(env, f.onground, t.normal);
    assert (1.0 - o) * Dot(f.velocity, t.normal) == -(Rebound(env, f.onground, t.normal) * Dot(f.velocity, t.normal));
  }

  lemma OnePlane(original: Vec, n: Vec)
    ensures SlideAlong(original, [n], 0) == (ClipVelocity(original, n, 1.0), true)
  {
    hide ClipVelocity, Dot;
  }

  // ----- a whole slide along a wall -----

  /** A velocity component that the epsilon zeroing leaves alone. */
  predicate Brisk(r: real) { r == 0.0 || Abs(r) >= 0.1 }

  /** A player who runs into the wall of the half-space, no more than this far away, and not straight on. */
  predicate GrazesWall(env: Env, s: Mover, gap: real) {
    && s.origin.x + gap + HullMaxs(s.stance.usehull).x == 0.0
    && 0.0 <= gap && gap + 0.001 < env.frametime * s.velocity.x && 0.0 < env.frametime
    && Brisk(s.velocity.y) && Brisk(s.velocity.z) && !(s.velocity.y == 0.0 && s.velocity.z == 0.0)
  }

  lemma AlongTheWall(hull: int, a: Vec, b: Vec)
    requires a.x + HullMaxs(hull).x == 0.0 && b.x == a.x
    ensures WallTrace(hull, a, b).fraction == 1.0 && !WallTrace(hull, a, b).allsolid && WallTrace(hull, a, b).endpos == b
  {
    hide HullMaxs;
    assert Fallen(-(a.x + HullMaxs(hull).x), -(b.x + HullMaxs(hull).x)) == 1.0;
  }

  /** The trace into the wall ends where the gap is used up. */
  lemma UpToTheWall(hull: int, a: Vec, b: Vec, gap: real, reach: real)
    requires a.x + gap + HullMaxs(hull).x == 0.0 && b.x == a.x + reach && 0.0 <= gap < reach
    ensures var t := WallTrace(hull, a, b);
            && t.fraction == gap / reach && 0.0 <= t.fraction < 1.0 && (t.fraction == 0.0 <==> gap == 0.0)
            && !t.allsolid && t.normal == Vec(-1.0, 0.0, 0.0) && t.ent == 0
            && t.endpos == Add(a, Scale(gap / reach, Sub(b, a)))
  {
    hide HullMaxs, Add, Scale, Sub;
    QuotientBelowOne(gap, reach);
  }

  lemma QuotientBelowOne(a: real, b: real)
    requires 0.0 <= a < b
    ensures 0.0 <= a / b < 1.0 && (a / b) * b == a && (a / b == 0.0 <==> a == 0.0)
  {
    var q := a / b;
    assert q * b == a;
    if 1.0 <= q {
      ProductMonotone(1.0, b, q, b);
    }
  }

  lemma ClipAtWall(v: Vec)
    requires Brisk(v.y) && Brisk(v.z)
    ensures ClipVelocity(v, Vec(-1.0, 0.0, 0.0), 1.0) == Vec(0.0, v.y, v.z)
  {}

  lemma TurnedAtWall(env: Env, onground: int, v: Vec)
    requires Bounce(env) == 0.0 && Brisk(v.y) && Brisk(v.z) && !(v.y == 0.0 && v.z == 0.0)
    ensures var r := Turned(env, onground, v, v, [Vec(-1.0, 0.0, 0.0)]);
            r.velocity == Vec(0.0, v.y, v.z) && !r.stop
  {
    hide ClipVelocity, Bounce, Square;
    ClipAtWall(v);
    OnePlane(v, Vec(-1.0, 0.0, 0.0));
    OnwardAlongWall(v);
  }

  lemma OnwardAlongWall(v: Vec)
    requires !(v.y == 0.0 && v.z == 0.0)
    ensures 0.0 < Dot(Vec(0.0, v.y, v.z), v)
  {
    SquarePositive(v.y);
    SquarePositive(v.z);
  }

  lemma SquarePositive(r: real)
    ensures 0.0 <= r * r && (r != 0.0 ==> 0.0 < r * r)
  {}

  lemma TracedToWall(env: Env, e: Callbacks, s: Mover, gap: real)
    requires env.engine == HalfSpace(e) && GrazesWall(env, s, gap)
    ensures var t := BumpTrace(env, StartSlide(env, s));
            var q := gap / (env.frametime * s.velocity.x);
            && t.fraction == q && 0.0 <= q < 1.0 && q * (env.frametime * s.velocity.x) == gap
            && !t.allsolid && t.normal == Vec(-1.0, 0.0, 0.0) && t.ent == 0
            && (0.0 < q ==> t.endpos == Add(s.origin, Scale(q, Scale(env.frametime, s.velocity))))
  {
    hide WallTrace, HullMaxs, Brisk;
    var f := StartSlide(env, s);
    var step := Scale(env.frametime, s.velocity);
    var end := Add(s.origin, step);
    var reach := env.frametime * s.velocity.x;
    QuotientBelowOne(gap, reach);
    UpToTheWall(f.hull, s.origin, end, gap, reach);
    SubOfSum(s.origin, step);
    if gap == 0.0 {
      UpToTheWall(f.hull, s.origin, Add(end, Scale(0.001, Vec(-1.0, 0.0, 0.0))), gap, reach - 0.001);
    }
  }

  lemma SubOfSum(a: Vec, b: Vec)
    ensures Sub(Add(a, b), a) == b
  {}

  /** Up to the wall. */
  lemma ReachesWall(env: Env, e: Callbacks, s: Mover, gap: real) returns (q: real)
    requires env.engine == HalfSpace(e) && Bounce(env) == 0.0 && GrazesWall(env, s, gap)
    ensures var g := SlideAt(env, s, 1);
            && 0.0 <= q < 1.0 && q * (env.frametime * s.velocity.x) == gap
            && g.status == Running && g.hull == s.stance.usehull && g.allFraction == q
            && g.velocity == Vec(0.0, s.velocity.y, s.velocity.z)
            && g.origin == WallPlace(env, s, q)
            && g.timeLeft == Remaining(env.frametime, q)
            && !g.floor && g.wall && Touches(g.touch, 0)
  {
    hide BumpTrace, AddToTouched, Turned, Bounce, Brisk, HullMaxs, Scale, Add;
    var f := StartSlide(env, s);
    var t := BumpTrace(env, f);
    q := gap / (env.frametime * s.velocity.x);
    TracedToWall(env, e, s, gap);
    TurnedAtWall(env, s.onground, s.velocity);
    var landed := Landed(f.(allFraction := f.allFraction + t.fraction), t);
    assert landed.planes == [t.normal] && landed.original == s.velocity;
    NoStep(s.origin, Scale(env.frametime, s.velocity));
    Recorded(f.touch, t, f.velocity);
    assert f.velocity != ORIGIN;
    assert SlideAt(env, s, 0) == f && SlideAt(env, s, 1) == Bump(env, f) == Deflect(env, landed);
  }

  lemma Recorded(touch: seq<Touch>, t: Trace, v: Vec)
    ensures Touches(AddToTouched(touch, t, v), t.ent)
  {
    if !Touches(touch, t.ent) {
      assert AddToTouched(touch, t, v)[|touch|].trace.ent == t.ent;
    }
  }

  lemma NoStep(p: Vec, step: Vec)
    ensures Add(p, Scale(0.0, step)) == p
  {}

  /** From there along the wall, with nothing in the way. */
  lemma GoesAlongWall(env: Env, e: Callbacks, f: Slide)
    requires env.engine == HalfSpace(e) && f.origin.x + HullMaxs(f.hull).x == 0.0
    requires f.velocity.x == 0.0 && f.velocity != ORIGIN
    ensures var g := Bump(env, f);
            && g.status == Stopped && g.velocity == f.velocity && g.allFraction == f.allFraction + 1.0
            && (g.floor, g.wall, g.touch) == (f.floor, f.wall, f.touch)
            && g.origin == Add(f.origin, Scale(f.timeLeft, f.velocity))
  {
    hide WallTrace, HullMaxs;
    var end := Add(f.origin, Scale(f.timeLeft, f.velocity));
    assert f.timeLeft * 0.0 == 0.0;
    AlongTheWall(f.hull, f.origin, end);
  }

  /** Where the slide would have come to on the level of the wall. */
  function AlongWall(env: Env, s: Mover, gap: real): Vec {
    Vec(s.origin.x + gap, s.origin.y + env.frametime * s.velocity.y, s.origin.z + env.frametime * s.velocity.z)
  }

  function WallPlace(env: Env, s: Mover, q: real): Vec { Add(s.origin, Scale(q, Scale(env.frametime, s.velocity))) }

  lemma TwoLegs(env: Env, s: Mover, q: real, gap: real)
    requires q * (env.frametime * s.velocity.x) == gap
    ensures var wall := WallPlace(env, s, q);
            && wall.x == s.origin.x + gap
            && Add(wall, Scale(Remaining(env.frametime, q), Vec(0.0, s.velocity.y, s.velocity.z))) == AlongWall(env, s, gap)
  {
    TwoLegsAlong(env.frametime, q, s.velocity.y);
    TwoLegsAlong(env.frametime, q, s.velocity.z);
    assert Remaining(env.frametime, q) * 0.0 == 0.0;
  }

  lemma TwoLegsAlong(time: real, q: real, v: real)
    ensures q * (time * v) + (time - time * q) * v == time * v
  {}

  /** At the wall, what is left of the frame leads to that place. */
  lemma AtTheWallNow(env: Env, e: Callbacks, s: Mover, gap: real)
    requires env.engine == HalfSpace(e) && Bounce(env) == 0.0 && GrazesWall(env, s, gap)
    ensures var g := SlideAt(env, s, 1);
            && g.status == Running && 0.0 <= g.allFraction && g.velocity == Vec(0.0, s.velocity.y, s.velocity.z) != ORIGIN
            && g.origin.x + HullMaxs(g.hull).x == 0.0
            && Add(g.origin, Scale(g.timeLeft, g.velocity)) == AlongWall(env, s, gap)
            && !g.floor && g.wall && Touches(g.touch, 0)
  {
    hide SlideAt, HalfSpace, HullMaxs, Bounce, GrazesWall, Add, Scale, Touches, WallPlace, Remaining, AlongWall;
    GrazingFacts(env, s, gap);
    var q := ReachesWall(env, e, s, gap);
    TwoLegs(env, s, q, gap);
  }

  lemma GrazingFacts(env: Env, s: Mover, gap: real)
    requires GrazesWall(env, s, gap)
    ensures s.origin.x + gap + HullMaxs(s.stance.usehull).x == 0.0 && Vec(0.0, s.velocity.y, s.velocity.z) != ORIGIN
  {
    hide HullMaxs;
  }

  /** The slide after its second bump. */
  lemma TwoBumps(env: Env, e: Callbacks, s: Mover, gap: real)
    requires env.engine == HalfSpace(e) && Bounce(env) == 0.0 && GrazesWall(env, s, gap)
    ensures var g := SlideAt(env, s, 2);
            && g.status == Stopped && 0.0 < g.allFraction && g.velocity == Vec(0.0, s.velocity.y, s.velocity.z)
            && g.origin == AlongWall(env, s, gap) && !g.floor && g.wall && Touches(g.touch, 0)
  {
    hide SlideAt, Bump, HalfSpace, HullMaxs, Bounce, GrazesWall, Add, Scale, Touches, AlongWall;
    AtTheWallNow(env, e, s, gap);
    GoesAlongWall(env, e, SlideAt(env, s, 1));
    NextBump(env, s, 1);
  }

  /** A slide that meets a wall on the way goes up to it and then on along it for the rest of the frame: what
      the player had into the wall is gone, and the rest of the way is as if the wall were not there. */
  lemma SlidesAlongWall(env: Env, e: Callbacks, s: Mover, gap: real)
    requires env.engine == HalfSpace(e) && Bounce(env) == 0.0 && GrazesWall(env, s, gap)
    ensures var s' := FlyMove(env, s);
            && s'.velocity == Vec(0.0, s.velocity.y, s.velocity.z)
            && s'.origin == AlongWall(env, s, gap)
            && Blocked(WholeSlide(env, s)) == 2 && Touches(s'.touch, 0)
  {
    hide SlideAt, HalfSpace, Bounce, GrazesWall, Touches;
    TwoBumps(env, e, s, gap);
    StoppedStays(env, s, 2, NUM_BUMPS);
  }

  // ----- a slide that starts in solid -----

  /** A player all in solid stays where he is, is stopped, and the slide says so. */
  lemma TrappedStops(env: Env, s: Mover)
    requires s.velocity != ORIGIN && BumpTrace(env, StartSlide(env, s)).allsolid
    ensures FlyMove(env, s) == s.(velocity := ORIGIN) && Blocked(WholeSlide(env, s)) == 4
  {
    hide BumpTrace, Turned, AddToTouched, Remaining;
    var f := SlideAt(env, s, 1);
    assert SlideAt(env, s, 0) == StartSlide(env, s);
    assert f == Bump(env, StartSlide(env, s));
    StoppedStays(env, s, 1, NUM_BUMPS);
  }

  /** Every trace from here gets nowhere, though the player is not all in solid. */
  ghost predicate Hemmed(env: Env, hull: int, p: Vec) {
    forall b: Vec :: env.engine.playerTrace(hull, p, b).fraction == 0.0 && !env.engine.playerTrace(hull, p, b).allsolid
  }

  lemma {:induction false} HemmedSlide(env: Env, s: Mover, k: nat)
    requires Hemmed(env, s.stance.usehull, s.origin)
    ensures var f := SlideAt(env, s, k);
            f.origin == s.origin && f.hull == s.stance.usehull && f.allFraction == 0.0 && f.status != Trapped
  {
    hide Bump;
    if k > 0 {
      HemmedSlide(env, s, k - 1);
      HemmedBump(env, SlideAt(env, s, k - 1));
    }
  }

  lemma HemmedBump(env: Env, f: Slide)
    requires Hemmed(env, f.hull, f.origin)
    ensures var g := Bump(env, f);
            g.origin == f.origin && g.hull == f.hull && g.allFraction == f.allFraction && (g.status == Trapped ==> f.status == Trapped)
  {
    hide Turned, AddToTouched, Remaining, Add, Scale;
    var t := BumpTrace(env, f);
    assert t.fraction == 0.0 && !t.allsolid;
  }

  /** A player hemmed in on all sides stays where he is and is stopped. */
  lemma HemmedStops(env: Env, s: Mover)
    requires Hemmed(env, s.stance.usehull, s.origin)
    ensures FlyMove(env, s).origin == s.origin && FlyMove(env, s).velocity == ORIGIN
  {
    hide SlideAt, Hemmed;
    HemmedSlide(env, s, NUM_BUMPS);
  }
}
