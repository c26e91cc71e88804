/** What a slide (PM_FlyMove) keeps, bump by bump and as a whole: it never speeds the player up, it pays for
    distance with time, it never leaves clear space, and it never runs out of room for planes. */
module SlideBounds {
  import opened Vectors
  import opened Engine
  import opened Player
  import opened SlideMove

  // ----- speed -----

  predicate Subunit(planes: seq<Vec>) { forall i :: 0 <= i < |planes| ==> Square(planes[i]) <= 1.0 }

  /** A bounce never adds energy: either there is none, or the overbounce factor stays between 0 and 2. */
  predicate TameBounce(env: Env) { env.movetype != MOVETYPE_WALK || -1.0 <= Bounce(env) <= 1.0 }

  lemma DeflectionSquare(v: Vec, n: Vec, o: real)
    ensures Square(Deflection(v, n, o)) ==
            Square(v) - (2.0 * o - o * o * Square(n)) * (Dot(v, n) * Dot(v, n))
  {
    hide Square, Dot;
    var d := Dot(v, n);
    var k := -(d * o);
    DeflectionIsPush(v, n, d * o, k);
    PushSpeed(v, n, k);
    Gathered(d, o, Square(n), k);
    assert Deflection(v, n, o) == Add(v, Scale(k, n));
    assert Square(Add(v, Scale(k, n))) == Square(v) + (2.0 * k * d + k * k * Square(n));
  }

  lemma DeflectionIsPush(v: Vec, n: Vec, taken: real, k: real)
    requires k == -taken
    ensures Sub(v, Scale(taken, n)) == Add(v, Scale(k, n))
  {}

  lemma Gathered(d: real, o: real, m: real, k: real)
    requires k == -(d * o)
    ensures 2.0 * k * d + k * k * m == -((2.0 * o - o * o * m) * (d * d))
  {
    assert k * d == -(o * (d * d)) && k * k == o * o * (d * d);
    assert k * k * m == (o * o * m) * (d * d);
  }

  /** Removing `o` times the component along a unit normal never adds speed, whatever the incoming
      velocity, exactly when o lies in 0..2. */
  lemma DeflectionNeverSpeedsUp(n: Vec, o: real)
    requires Square(n) == 1.0
    ensures (forall v :: Square(Deflection(v, n, o)) <= Square(v)) <==> 0.0 <= o <= 2.0
  {
    if 0.0 <= o <= 2.0 {
      forall v ensures Square(Deflection(v, n, o)) <= Square(v) {
        DeflectionSquare(v, n, o);
        assert 2.0 * o - o * o * 1.0 == o * (2.0 - o);
        ProductMonotone(0.0, 0.0, o * (2.0 - o), Dot(v, n) * Dot(v, n));
      }
    } else {
      DeflectionSquare(n, n, o);
      assert 2.0 * o - o * o * 1.0 == o * (2.0 - o) && o * (2.0 - o) < 0.0;
      assert !(Square(Deflection(n, n, o)) <= Square(n));
    }
  }

  /** The same of the clip with its epsilon zeroing: a fast enough velocity outweighs what the zeroing
      takes away. */
  lemma ClipNeverSpeedsUp(n: Vec, o: real)
    requires Square(n) == 1.0
    ensures (forall v :: Square(ClipVelocity(v, n, o)) <= Square(v)) <==> 0.0 <= o <= 2.0
  {
    hide ClipVelocity, Square;
    if 0.0 <= o <= 2.0 {
      forall v ensures Square(ClipVelocity(v, n, o)) <= Square(v) {
        ClipKeepsSpeed(v, n, o);
      }
    } else {
      var v := ClipSpeedsUp(n, o);
    }
  }

  lemma ClipSpeedsUp(n: Vec, o: real) returns (v: Vec)
    requires Square(n) == 1.0 && !(0.0 <= o <= 2.0)
    ensures Square(ClipVelocity(v, n, o)) > Square(v)
  {
    hide Square, Deflection;
    var gain := o * o - 2.0 * o;
    assert gain == o * (o - 2.0) && 0.0 < gain;
    var k := 1.0 + 1.0 / gain;
    v := Scale(k, n);
    SquareScale(k, n);
    ScaledDot(k, n);
    DeflectionSquare(v, n, o);
    SnapLoss(Deflection(v, n, o));
    FastEnough(gain, k);
    assert Square(Deflection(v, n, o)) == k * k - (2.0 * o - o * o * 1.0) * (k * k);
    assert (2.0 * o - o * o * 1.0) * (k * k) == -(k * k * gain);
  }

  lemma ScaledDot(k: real, n: Vec)
    ensures Dot(Scale(k, n), n) == k * Square(n)
  {
    assert (k * n.x) * n.x == k * (n.x * n.x) && (k * n.y) * n.y == k * (n.y * n.y) && (k * n.z) * n.z == k * (n.z * n.z);
  }

  lemma FastEnough(gain: real, k: real)
    requires 0.0 < gain && k == 1.0 + 1.0 / gain
    ensures 2.0 <= k * k * gain
  {
    var u := 1.0 / gain;
    assert u * gain == 1.0 && 0.0 < u;
    assert k * k * gain == gain + 2.0 * (u * gain) + u * (u * gain);
  }

  lemma SnapLoss(v: Vec)
    ensures Square(v) - 0.03 <= Square(Vec(Snap(v.x), Snap(v.y), Snap(v.z)))
  {
    SnapLosesLittle(v.x);
    SnapLosesLittle(v.y);
    SnapLosesLittle(v.z);
  }

  lemma SnapLosesLittle(r: real)
    ensures r * r - 0.01 <= Snap(r) * Snap(r)
  {
    if -STOP_EPSILON < r < STOP_EPSILON {
      ProductMonotone(if r < 0.0 then -r else r, if r < 0.0 then -r else r, STOP_EPSILON, STOP_EPSILON);
    }
  }

  lemma SnapSquare(r: real)
    ensures Snap(r) * Snap(r) <= r * r
  {}

  lemma SnapShrinks(v: Vec)
    ensures Square(Vec(Snap(v.x), Snap(v.y), Snap(v.z))) <= Square(v)
  {
    SnapSquare(v.x);
    SnapSquare(v.y);
    SnapSquare(v.z);
  }

  lemma ClipLoss(o: real, m: real, d: real)
    requires 0.0 <= m <= 1.0 && 0.0 <= o <= 2.0
    ensures 0.0 <= (2.0 * o - o * o * m) * (d * d)
  {
    ProductMonotone(0.0, 0.0, o, 2.0 - o);
    ProductMonotone(o * o, m, o * o, 1.0);
    ProductMonotone(0.0, 0.0, 2.0 * o - o * o * m, d * d);
  }

  lemma ClipKeepsSpeed(v: Vec, n: Vec, o: real)
    requires Square(n) <= 1.0 && 0.0 <= o <= 2.0
    ensures Square(ClipVelocity(v, n, o)) <= Square(v)
  {
    SquareNonNegative(n);
    ClipLoss(o, Square(n), Dot(v, n));
    DeflectionSquare(v, n, o);
    SnapShrinks(Deflection(v, n, o));
  }

  /** The result of the search is a clip against one of the planes. */
  lemma {:induction false} SlideAlongClips(original: Vec, planes: seq<Vec>, i: nat) returns (k: nat)
    requires i < |planes|
    ensures i <= k < |planes| && SlideAlong(original, planes, i).0 == ClipVelocity(original, planes[k], 1.0)
    ensures var (v, found) := SlideAlong(original, planes, i);
            && (found ==> !MovesAgainst(v, planes, k))
            && (forall j :: i <= j < (if found then k else |planes|) ==>
                  MovesAgainst(ClipVelocity(original, planes[j], 1.0), planes, j))
    ensures !SlideAlong(original, planes, i).1 ==> k + 1 == |planes|
    decreases |planes| - i
  {
    k := i;
    if MovesAgainst(ClipVelocity(original, planes[i], 1.0), planes, i) && i + 1 < |planes| {
      k := SlideAlongClips(original, planes, i + 1);
    }
  }

  lemma SlideAlongKeepsSpeed(original: Vec, planes: seq<Vec>)
    requires |planes| > 0 && Subunit(planes)
    ensures Square(SlideAlong(original, planes, 0).0) <= Square(original)
  {
    var k := SlideAlongClips(original, planes, 0);
    ClipKeepsSpeed(original, planes[k], 1.0);
  }

  lemma CreaseKeepsSpeed(v: Vec, planes: seq<Vec>)
    requires |planes| == 2 && Subunit(planes)
    ensures Square(Crease(v, planes)) <= Square(v)
  {
    var a, b := planes[0], planes[1];
    var dir := Cross(a, b);
    SquareNonNegative(a);
    SquareNonNegative(b);
    SquareNonNegative(dir);
    SquareNonNegative(v);
    Lagrange(a, b);
    ProductMonotone(Square(a), Square(b), 1.0, 1.0);
    assert Square(dir) <= 1.0;
    CauchySchwarz(dir, v);
    var d := Dot(dir, v);
    ProductMonotone(Square(dir), Square(v), 1.0, Square(v));
    SquareScale(d, dir);
    ProductMonotone(d * d, Square(dir), Square(v), 1.0);
  }

  /** Neither velocity of the slide is faster than the square root of `limit`. */
  predicate Slow(f: Slide, limit: real) {
    Square(f.velocity) <= limit && Square(f.original) <= limit && Subunit(f.planes)
  }

  /** The trace of a bump obeys the engine's contract, and ends where the time left would take the
      player, or a thousandth of a unit from there. */
  lemma BumpTraceSound(env: Env, f: Slide, t: Trace) returns (end: Vec, nudge: Vec)
    requires Sound(env.engine) && t == BumpTrace(env, f)
    ensures t == env.engine.playerTrace(f.hull, f.origin, end)
    ensures TraceSound(env.engine, f.hull, f.origin, end)
    ensures Square(t.normal) <= 1.0
    ensures end == Add(Add(f.origin, Scale(f.timeLeft, f.velocity)), nudge)
    ensures Within(nudge, 0.001)
  {
    hide TestSound, NestedBoxClear, SqrtSound, Clear, Square;
    end := Add(f.origin, Scale(f.timeLeft, f.velocity));
    nudge := ORIGIN;
    assert TraceSound(env.engine, f.hull, f.origin, end);
    SquareOrigin();
    var t0 := env.engine.playerTrace(f.hull, f.origin, end);
    if t0.fraction == 0.0 {
      WithinScale(0.001, t0.normal, 1.0);
      nudge := Scale(0.001, t0.normal);
      end := Add(end, nudge);
      assert TraceSound(env.engine, f.hull, f.origin, end);
    }
  }

  lemma ReflectKeepsSpeed(env: Env, original: Vec, normal: Vec)
    requires TameBounce(env) && env.movetype == MOVETYPE_WALK && Square(normal) <= 1.0
    ensures Square(Reflect(env, original, normal)) <= Square(original)
  {
    hide Square, ClipVelocity;
    ClipKeepsSpeed(original, normal, Overbounce(env, normal));
  }

  lemma TurnedSlow(env: Env, onground: int, primal: Vec, original: Vec, planes: seq<Vec>)
    requires TameBounce(env) && |planes| > 0 && Subunit(planes)
    ensures var r := Turned(env, onground, primal, original, planes);
            Square(r.velocity) <= Square(original) && Square(r.original) <= Square(original)
  {
    hide Square, Dot, Reflect, TameBounce, Crease, SlideAlong;
    SquareNonNegative(original);
    SquareOrigin();
    if Reflects(env, onground, planes) {
      ReflectKeepsSpeed(env, original, planes[0]);
    } else {
      var (along, found) := SlideAlong(original, planes, 0);
      SlideAlongKeepsSpeed(original, planes);
      if |planes| == 2 {
        CreaseKeepsSpeed(along, planes);
      }
    }
  }

  lemma DeflectSlow(env: Env, f: Slide, limit: real)
    requires TameBounce(env) && |f.planes| > 0 && Slow(f, limit)
    ensures Slow(Deflect(env, f), limit)
  {
    hide Square, Turned, TameBounce;
    TurnedSlow(env, f.onground, f.primal, f.original, f.planes);
  }

  lemma LandedSlow(f: Slide, t: Trace, limit: real)
    requires Slow(f, limit) && Square(t.normal) <= 1.0
    ensures Slow(Landed(f, t), limit)
  {
    hide Square, AddToTouched, Remaining;
  }

  lemma BumpSlow(env: Env, f: Slide, limit: real)
    requires Sound(env.engine) && TameBounce(env) && Slow(f, limit)
    ensures Slow(Bump(env, f), limit)
  {
    hide Square, BumpTrace, TraceSound, Deflect, Landed, Sound, TameBounce;
    SquareNonNegative(f.velocity);
    SquareOrigin();
    var t := BumpTrace(env, f);
    var g := f.(allFraction := f.allFraction + t.fraction);
    var end, nudge := BumpTraceSound(env, f, t);
    LandedSlow(g, t, limit);
    DeflectSlow(env, Landed(g, t), limit);
  }

  lemma {:induction false} SlideSlow(env: Env, s: Mover, k: nat)
    requires Sound(env.engine) && TameBounce(env)
    ensures Slow(SlideAt(env, s, k), Square(s.velocity))
  {
    hide Sound, TameBounce, Square, Bump;
    if k > 0 {
      SlideSlow(env, s, k - 1);
      BumpSlow(env, SlideAt(env, s, k - 1), Square(s.velocity));
    }
  }

  /** A slide never increases speed. */
  lemma FlyMoveKeepsSpeed(env: Env, s: Mover)
    requires Sound(env.engine) && TameBounce(env)
    ensures Square(FlyMove(env, s).velocity) <= Square(s.velocity)
  {
    hide Square, SlideAt, Sound, TameBounce;
    SquareNonNegative(s.velocity);
    SquareOrigin();
    SlideSlow(env, s, NUM_BUMPS);
  }

  // ----- one bump -----

  /** What a bump does other than deflecting, and how much time it leaves. */
  lemma BumpEffect(env: Env, f: Slide, t: Trace)
    requires t == BumpTrace(env, f) && f.status == Running && |f.planes| < MAX_CLIP_PLANES
    ensures var g := Bump(env, f);
            && (g.hull, g.onground, g.primal) == (f.hull, f.onground, f.primal)
            && |g.planes| <= |f.planes| + 1
            && (g.origin == f.origin || (!t.allsolid && g.origin == t.endpos))
            && (g.status == Running ==> g.timeLeft == Remaining(f.timeLeft, t.fraction))
            && (g.timeLeft == f.timeLeft || g.timeLeft == Remaining(f.timeLeft, t.fraction))
            && (g.touch == f.touch || (t.fraction != 1.0 && g.touch == AddToTouched(f.touch, t, f.velocity)))
  {
    hide BumpTrace, Turned, AddToTouched, Remaining;
  }

  /** No more planes than bumps are ever held, so a slide never runs out of room for planes and its guard
      against that is never taken. */
  lemma {:induction false} PlanesFit(env: Env, s: Mover, k: nat)
    requires k <= NUM_BUMPS
    ensures |SlideAt(env, s, k).planes| <= k
    ensures SlideAt(env, s, k).hull == s.stance.usehull
  {
    hide Bump, BumpTrace;
    if k > 0 {
      PlanesFit(env, s, k - 1);
      var f := SlideAt(env, s, k - 1);
      if f.status == Running {
        BumpEffect(env, f, BumpTrace(env, f));
      }
    }
  }

  // ----- time and distance -----

  /** How far a player may get in `time` at `speed` when each bump may add a thousandth of a unit. */
  function Allowance(speed: real, time: real, bumps: nat): real { speed * time + 0.001 * bumps as real }

  /** After `bumps` bumps, the distance covered is paid for by the time used. */
  ghost predicate WithinBudget(env: Env, start: Vec, speed: real, f: Slide, bumps: nat) {
    && 0.0 <= f.timeLeft <= env.frametime
    && Within(Sub(f.origin, start),
              Allowance(speed, env.frametime - (if f.status == Running then f.timeLeft else 0.0), bumps))
  }

  lemma WithinMore(v: Vec, r: real, s: real)
    requires Within(v, r) && r <= s
    ensures Within(v, s)
  {
    ProductMonotone(r, r, s, s);
  }

  lemma AllowanceMonotone(speed: real, time: real, time': real, bumps: nat, bumps': nat)
    requires 0.0 <= speed && time <= time' && bumps <= bumps'
    ensures Allowance(speed, time, bumps) <= Allowance(speed, time', bumps')
  {
    assert 0.0 <= speed * (time' - time);
  }

  lemma AllowanceAdds(speed: real, time: real, time': real, bumps: nat)
    ensures Allowance(speed, time, bumps) + Allowance(speed, time', 1) == Allowance(speed, time + time', bumps + 1)
  {}

  lemma RemainingBounds(timeLeft: real, fraction: real)
    requires 0.0 <= timeLeft && 0.0 <= fraction <= 1.0
    ensures 0.0 <= Remaining(timeLeft, fraction) <= timeLeft
  {
    assert 0.0 <= timeLeft * fraction <= timeLeft;
  }

  /** A bump's trace covers its fraction of the time left at the current speed, or at most a
      thousandth of a unit more. */
  lemma BumpDistance(env: Env, f: Slide, t: Trace, speed: real)
    requires Sound(env.engine) && t == BumpTrace(env, f)
    requires 0.0 <= f.timeLeft && Within(f.velocity, speed)
    ensures Within(Sub(t.endpos, f.origin), Allowance(speed, f.timeLeft - Remaining(f.timeLeft, t.fraction), 1))
  {
    hide Within, Sound, BumpTrace, TestSound, Square;
    var end, nudge := BumpTraceSound(env, f, t);
    var leg := Scale(f.timeLeft, f.velocity);
    var reach := f.timeLeft * speed + 0.001;
    WithinScale(f.timeLeft, f.velocity, speed);
    WithinAdd(leg, f.timeLeft * speed, nudge, 0.001);
    assert Sub(end, f.origin) == Add(leg, nudge);
    WithinScale(t.fraction, Add(leg, nudge), reach);
    assert Sub(t.endpos, f.origin) == Scale(t.fraction, Sub(end, f.origin));
    FractionOfReach(t.fraction, f.timeLeft, speed);
    WithinMore(Sub(t.endpos, f.origin), t.fraction * reach,
               Allowance(speed, f.timeLeft - Remaining(f.timeLeft, t.fraction), 1));
  }

  lemma FractionOfReach(fraction: real, timeLeft: real, speed: real)
    requires 0.0 <= fraction <= 1.0
    ensures fraction * (timeLeft * speed + 0.001) <= Allowance(speed, timeLeft - Remaining(timeLeft, fraction), 1)
  {
    assert fraction * (timeLeft * speed + 0.001) == speed * (timeLeft * fraction) + fraction * 0.001;
  }

  lemma SubAdd(a: Vec, b: Vec, c: Vec)
    ensures Sub(a, c) == Add(Sub(b, c), Sub(a, b))
  {}

  lemma BumpWithinBudget(env: Env, start: Vec, speed: real, f: Slide, bumps: nat)
    requires Sound(env.engine) && Within(f.velocity, speed)
    requires f.status == Running && |f.planes| < MAX_CLIP_PLANES && WithinBudget(env, start, speed, f, bumps)
    ensures WithinBudget(env, start, speed, Bump(env, f), bumps + 1)
  {
    hide Sound, BumpTrace, Square, Bump, Sub, Add, Allowance, Remaining, AddToTouched;
    var g := Bump(env, f);
    var t := BumpTrace(env, f);
    var ft := env.frametime;
    var left := Remaining(f.timeLeft, t.fraction);
    var ended := ft - (if g.status == Running then g.timeLeft else 0.0);
    var end, nudge := BumpTraceSound(env, f, t);
    RemainingBounds(f.timeLeft, t.fraction);
    BumpEffect(env, f, t);
    if g.origin == f.origin {
      AllowanceMonotone(speed, ft - f.timeLeft, ended, bumps, bumps + 1);
      WithinMore(Sub(f.origin, start), Allowance(speed, ft - f.timeLeft, bumps), Allowance(speed, ended, bumps + 1));
    } else {
      BumpDistance(env, f, t, speed);
      WithinAdd(Sub(f.origin, start), Allowance(speed, ft - f.timeLeft, bumps),
                Sub(t.endpos, f.origin), Allowance(speed, f.timeLeft - left, 1));
      SubAdd(t.endpos, f.origin, start);
      AllowanceAdds(speed, ft - f.timeLeft, f.timeLeft - left, bumps);
      AllowanceMonotone(speed, ft - left, ended, bumps + 1, bumps + 1);
      WithinMore(Sub(t.endpos, start), Allowance(speed, ft - left, bumps + 1), Allowance(speed, ended, bumps + 1));
    }
  }

  lemma {:induction false} SlideWithinBudget(env: Env, s: Mover, k: nat, speed: real)
    requires Sound(env.engine) && TameBounce(env) && 0.0 <= env.frametime
    requires Within(s.velocity, speed) && k <= NUM_BUMPS
    ensures WithinBudget(env, s.origin, speed, SlideAt(env, s, k), k)
  {
    hide Sound, TameBounce, Bump, Within, Allowance;
    if k == 0 {
      StandingStill(s.origin, speed);
    } else {
      var f := SlideAt(env, s, k - 1);
      SlideWithinBudget(env, s, k - 1, speed);
      if f.status == Running {
        SlideSlow(env, s, k - 1);
        PlanesFit(env, s, k - 1);
        WithinSlower(s.velocity, f.velocity, speed);
        BumpWithinBudget(env, s.origin, speed, f, k - 1);
      } else {
        var time := env.frametime;
        SpeedNonNegative(s.velocity, speed);
        AllowanceMonotone(speed, time, time, k - 1, k);
        WithinMore(Sub(f.origin, s.origin), Allowance(speed, time - 0.0, k - 1), Allowance(speed, time - 0.0, k));
      }
    }
  }

  lemma StandingStill(p: Vec, speed: real)
    ensures Within(Sub(p, p), Allowance(speed, 0.0, 0))
  {}

  lemma WithinSlower(v: Vec, w: Vec, speed: real)
    requires Within(v, speed) && Square(w) <= Square(v)
    ensures Within(w, speed)
  {}

  /** A slide moves the player at most its speed times the frame time, plus a thousandth of a unit for
      each of the four bumps. */
  lemma FlyMoveDistance(env: Env, s: Mover, speed: real)
    requires Sound(env.engine) && TameBounce(env) && 0.0 <= env.frametime
    requires Within(s.velocity, speed)
    ensures Within(Sub(FlyMove(env, s).origin, s.origin), speed * env.frametime + 0.004)
  {
    hide Sound, TameBounce, Within, SlideAt;
    var f := WholeSlide(env, s);
    var used := env.frametime - (if f.status == Running then f.timeLeft else 0.0);
    SlideWithinBudget(env, s, NUM_BUMPS, speed);
    SpeedNonNegative(s.velocity, speed);
    AllowanceMonotone(speed, used, env.frametime, NUM_BUMPS, NUM_BUMPS);
    WithinMore(Sub(f.origin, s.origin), Allowance(speed, used, NUM_BUMPS), speed * env.frametime + 0.004);
  }

  lemma SpeedNonNegative(v: Vec, speed: real)
    requires Within(v, speed)
    ensures 0.0 <= speed
  {}

  // ----- where a slide ends -----

  /** From one player or slide to a later one in the same hull: still clear of solids if it was, and the
      touch list still a list of distinct entities. */
  ghost predicate Safe(e: Callbacks, hull: int, origin: Vec, touch: seq<Touch>, origin': Vec, touch': seq<Touch>) {
    && (Clear(e, hull, origin) ==> Clear(e, hull, origin'))
    && (TouchOk(e.numphysent, touch) ==> TouchOk(e.numphysent, touch'))
  }

  lemma BumpSafe(env: Env, f: Slide)
    requires Sound(env.engine) && f.status == Running && |f.planes| < MAX_CLIP_PLANES
    ensures var g := Bump(env, f);
            Safe(env.engine, f.hull, f.origin, f.touch, g.origin, g.touch)
  {
    hide BumpTrace, Bump, AddToTouched, TouchOk, Sound;
    var t := BumpTrace(env, f);
    var end, nudge := BumpTraceSound(env, f, t);
    BumpEffect(env, f, t);
    if TouchOk(env.engine.numphysent, f.touch) && t.fraction != 1.0 {
      AddKeepsTouchOk(env.engine.numphysent, f.touch, t, f.velocity);
    }
  }

  lemma {:induction false} SlideSafe(env: Env, s: Mover, k: nat)
    requires Sound(env.engine) && k <= NUM_BUMPS
    ensures var f := SlideAt(env, s, k);
            Safe(env.engine, s.stance.usehull, s.origin, s.touch, f.origin, f.touch)
  {
    hide Bump, Sound, Clear, TouchOk;
    if k > 0 {
      SlideSafe(env, s, k - 1);
      PlanesFit(env, s, k - 1);
      var f := SlideAt(env, s, k - 1);
      if f.status == Running {
        BumpSafe(env, f);
      }
    }
  }

  /** A slide started clear of solids ends clear of solids, and its touch list stays a list of distinct
      entities. */
  lemma FlyMoveSafe(env: Env, s: Mover)
    requires Sound(env.engine)
    ensures var s' := FlyMove(env, s);
            Safe(env.engine, s.stance.usehull, s.origin, s.touch, s'.origin, s'.touch)
  {
    hide SlideAt, Sound, Clear, TouchOk;
    SlideSafe(env, s, NUM_BUMPS);
  }
}
