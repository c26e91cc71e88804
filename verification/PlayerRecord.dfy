/** The shared player physics as it runs: a player record whose fields each operation changes in place.
    Every operation is tied to the function of the same name in Movement or SlideMove. */
module PlayerRecord {
  import opened Vectors
  import opened Engine
  import opened Player
  import S = SlideMove
  import M = Movement
  import W = WalkSafety
  import D = SlowDown
  import U = UseInFrame

  /** The flags PM_ClipVelocity returns with the clipped velocity: 1 for a floor, 2 for a wall. */
  method ClipVelocity(v: Vec, normal: Vec, overbounce: real) returns (blocked: int, out: Vec)
    ensures out == S.ClipVelocity(v, normal, overbounce)
    ensures blocked == if normal.z > 0.0 then 1 else if normal.z == 0.0 then 2 else 0
  {
    blocked := 0;
    if normal.z > 0.0 {
      blocked := 1;
    }
    if normal.z == 0.0 {
      blocked := 2;
    }
    var backoff := Dot(v, normal) * overbounce;
    out := Sub(v, Scale(backoff, normal));
    if -S.STOP_EPSILON < out.x < S.STOP_EPSILON {
      out := Vec(0.0, out.y, out.z);
    }
    if -S.STOP_EPSILON < out.y < S.STOP_EPSILON {
      out := Vec(out.x, 0.0, out.z);
    }
    if -S.STOP_EPSILON < out.z < S.STOP_EPSILON {
      out := Vec(out.x, out.y, 0.0);
    }
  }

  /** The search of the planes hit for one that can be slid along without running into another. */
  method SlideAlong(original: Vec, planes: array<Vec>, numplanes: nat) returns (v: Vec, found: bool)
    requires 0 < numplanes <= planes.Length
    ensures (v, found) == S.SlideAlong(original, planes[..numplanes], 0)
  {
    hide Dot, S.ClipVelocity;
    ghost var ps := planes[..numplanes];
    v, found := original, false;
    var blocked;
    var i := 0;
    while i < numplanes
      invariant 0 <= i <= numplanes
      invariant S.SlideAlong(original, ps, 0) == if i < numplanes then S.SlideAlong(original, ps, i) else (v, false)
    {
      blocked, v := ClipVelocity(original, planes[i], 1.0);
      var j := 0;
      while j < numplanes
        invariant 0 <= j <= numplanes
        invariant forall k :: 0 <= k < j && k != i ==> !(Dot(v, ps[k]) < 0.0)
      {
        if j != i && Dot(v, planes[j]) < 0.0 {
          assert Dot(v, ps[j]) < 0.0;
          break;
        }
        j := j + 1;
      }
      if j == numplanes {
        return v, true;
      }
      i := i + 1;
    }
  }

  method Bound(value: real, bound: real) returns (r: real)
    ensures r == M.Clamp(value, bound)
  {
    r := value;
    if r > bound {
      r := bound;
    } else if r < -bound {
      r := -bound;
    }
  }

  /** Add speed along wishdir up to `target`, but no more than `push`. */
  method Push(v: Vec, wishdir: Vec, target: real, push: real) returns (out: Vec)
    ensures out == M.Pushed(v, wishdir, target, push)
  {
    var addspeed := target - Dot(v, wishdir);
    if addspeed <= 0.0 {
      return v;
    }
    var accelspeed := push;
    if accelspeed > addspeed {
      accelspeed := addspeed;
    }
    out := Add(v, Scale(accelspeed, wishdir));
  }

  method Slow(v: Vec, speed: real, drop: real) returns (out: Vec)
    requires speed != 0.0
    ensures out == M.Slowed(v, speed, drop)
  {
    var newspeed := speed - drop;
    if newspeed < 0.0 {
      newspeed := 0.0;
    }
    newspeed := newspeed / speed;
    out := Scale(newspeed, v);
  }

  /** The friction underfoot, looking down past the edge of the hull in the direction of travel. */
  method GroundFriction(env: Env, hull: int, origin: Vec, velocity: Vec, speed: real) returns (friction: real)
    requires speed != 0.0
    ensures friction == M.GroundFriction(env, hull, origin, velocity, speed)
  {
    var start := Add(origin, Vec(velocity.x / speed * 16.0, velocity.y / speed * 16.0, HullMins(hull).z));
    var trace := env.engine.playerTrace(hull, start, Sub(start, Vec(0.0, 0.0, 34.0)));
    if trace.fraction == 1.0 {
      friction := env.vars.friction * env.vars.edgefriction;
    } else {
      friction := env.vars.friction;
    }
    friction := env.friction * friction;
  }

  /** Look for water at the feet, then at the middle, then at the eyes. */
  method ProbeWater(env: Env, hull: int, origin: Vec, viewZ: real) returns (w: M.Water)
    ensures w == M.ProbeWater(env, hull, origin, viewZ)
  {
    hide M.Feet, M.Middle, M.Eyes, M.Submerging, M.CurrentPush;
    var feet := M.Feet(hull, origin);
    w := M.Water(0, M.CONTENTS_EMPTY, ORIGIN);
    var contents := env.engine.pointContents(feet);
    var truecontents := env.engine.truePointContents(feet);
    if M.Submerging(contents) {
      var level := 1;
      if M.Submerging(env.engine.pointContents(M.Middle(hull, origin))) {
        level := 2;
        if M.Submerging(env.engine.pointContents(M.Eyes(hull, origin, viewZ))) {
          level := 3;
        }
      }
      w := M.Water(level, contents, M.CurrentPush(truecontents, level));
    }
  }

  /** The velocity at takeoff. */
  method JumpVelocity(env: Env, crouched: bool, duckTime: real, forward: Vec, v: Vec) returns (out: Vec)
    ensures out == M.JumpVelocity(env, crouched, duckTime, forward, v)
  {
    hide Length;
    out := v;
    if crouched {
      var speed := Length(env.engine, out);
      if env.canSuperJump && env.cmd.duck && duckTime > 0.0 && speed > 50.0 && speed < 500.0 {
        out := Vec(forward.x * 350.0 * 1.6, forward.y * 350.0 * 1.6, out.z);
        out := Vec(out.x, out.y, env.engine.sqrt(2.0 * 800.0 * 56.0));
      } else {
        out := Vec(out.x, out.y, env.engine.sqrt(2.0 * 800.0 * 45.0));
      }
    } else {
      out := Vec(out.x, out.y, env.engine.sqrt(2.0 * 800.0 * 45.0));
    }
  }

  /** Water friction, in proportion to speed. */
  method DragInWater(env: Env, v: Vec) returns (out: Vec, newspeed: real)
    ensures (out, newspeed) == M.WaterDrag(env, v)
  {
    hide Scale, Length;
    var speed := Length(env.engine, v);
    if speed != 0.0 {
      newspeed := M.WaterSpeed(env, speed);
      if newspeed < 0.0 {
        newspeed := 0.0;
      }
      out := Scale(newspeed / speed, v);
    } else {
      newspeed := 0.0;
      out := v;
    }
  }

  class PlayerRecord {
    var origin: Vec
    var velocity: Vec
    var basevelocity: Vec
    var view: View
    var stance: Stance
    var keys: Keys
    var movedir: Vec
    var waterjumptime: real
    var onground: int
    var waterlevel: int
    var watertype: int
    var numtouch: nat
    const touchindex: array<Touch>

    constructor (s: Mover)
      requires s.touch == []
      ensures touchindex.Length == MAX_PHYSENTS && numtouch == 0 && fresh(touchindex) && State() == s
    {
      origin, velocity, basevelocity := s.origin, s.velocity, s.basevelocity;
      view, stance, keys, movedir := s.view, s.stance, s.keys, s.movedir;
      waterjumptime, onground, waterlevel, watertype := s.waterjumptime, s.onground, s.waterlevel, s.watertype;
      numtouch := 0;
      touchindex := new Touch[MAX_PHYSENTS](_ => Touch(Trace(false, false, 1.0, ORIGIN, ORIGIN, -1), ORIGIN));
    }

    ghost function State(): Mover
      requires numtouch <= touchindex.Length
      reads this, touchindex
    {
      Mover(origin, velocity, basevelocity, view, stance, keys, movedir,
            waterjumptime, onground, waterlevel, watertype, touchindex[..numtouch])
    }

    /** The engine keeps its contract, and the touch list holds distinct entities of the engine's. */
    ghost predicate Valid(e: Callbacks)
      reads this, touchindex
    {
      && Sound(e)
      && touchindex.Length == MAX_PHYSENTS && numtouch <= MAX_PHYSENTS
      && TouchOk(e.numphysent, touchindex[..numtouch])
    }

    /** Every append is within the 600 entries of the list. */
    method AddToTouched(e: Callbacks, tr: Trace, impactvelocity: Vec) returns (added: bool)
      requires Valid(e) && 0 <= tr.ent < e.numphysent
      modifies `numtouch, touchindex
      ensures Valid(e)
      ensures touchindex[..numtouch] == Player.AddToTouched(old(touchindex[..numtouch]), tr, impactvelocity)
      ensures added <==> !Touches(old(touchindex[..numtouch]), tr.ent)
    {
      hide Sound;
      ghost var before := touchindex[..numtouch];
      var i := 0;
      while i < numtouch
        invariant 0 <= i <= numtouch
        invariant forall k :: 0 <= k < i ==> touchindex[k].trace.ent != tr.ent
      {
        if touchindex[i].trace.ent == tr.ent {
          break;
        }
        i := i + 1;
      }
      AddKeepsTouchOk(e.numphysent, before, tr, impactvelocity);
      if i != numtouch {
        assert before[i].trace.ent == tr.ent;
        return false;
      }
      TouchRoom(e.numphysent, before);
      SoundRoom(e);
      touchindex[numtouch] := Touch(tr, impactvelocity);
      numtouch := numtouch + 1;
      assert touchindex[..numtouch] == before + [Touch(tr, impactvelocity)];
      return true;
    }

    static lemma SoundRoom(e: Callbacks)
      requires Sound(e)
      ensures e.numphysent <= MAX_PHYSENTS
    {}

    // ----- the slide -----

    /** The new velocity after an impact: bounce off the first plane, or slide along the planes, or along
        the crease of two planes, or stop. */
    method Deflect(env: Env, primal: Vec, original0: Vec, planes: array<Vec>, numplanes: nat)
      returns (original: Vec, stop: bool)
      requires 0 < numplanes <= planes.Length
      modifies `velocity
      ensures S.Turn(velocity, original, stop) == S.Turned(env, onground, primal, original0, planes[..numplanes])
    {
      hide Dot, Cross, Scale, S.ClipVelocity, S.Overbounce, S.SlideAlong;
      original, stop := original0, false;
      var blocked;
      if numplanes == 1 && env.movetype == MOVETYPE_WALK && (onground == -1 || env.friction != 1.0) {
        blocked, velocity := ClipVelocity(original, planes[0], S.Overbounce(env, planes[0]));
        original := velocity;
      } else {
        var found;
        velocity, found := SlideAlong(original, planes, numplanes);
        if !found && numplanes != 2 {
          velocity := ORIGIN;
          return original, true;
        }
        if !found {
          var dir := Cross(planes[0], planes[1]);
          velocity := Scale(Dot(dir, velocity), dir);
        }
        if Dot(velocity, primal) <= 0.0 {
          velocity := ORIGIN;
          stop := true;
        }
      }
    }

    /** Trace to where the time left would take the player; when that does not move at all, try again from
        a thousandth of a unit off the wall. */
    method TraceMove(env: Env, timeLeft: real, ghost f: S.Slide) returns (trace: Trace)
      requires Sound(env.engine)
      requires f.hull == stance.usehull && f.origin == origin && f.velocity == velocity && f.timeLeft == timeLeft
      ensures trace == S.BumpTrace(env, f)
      ensures 0.0 <= trace.fraction <= 1.0
      ensures trace.fraction != 1.0 ==> 0 <= trace.ent < env.engine.numphysent
    {
      hide Add, Scale, Clear, TestSound, NestedBoxClear, SqrtSound;
      var end := Add(origin, Scale(timeLeft, velocity));
      assert TraceSound(env.engine, stance.usehull, origin, end);
      trace := env.engine.playerTrace(stance.usehull, origin, end);
      if trace.fraction == 0.0 {
        end := Add(end, Scale(0.001, trace.normal));
        assert TraceSound(env.engine, stance.usehull, origin, end);
        trace := env.engine.playerTrace(stance.usehull, origin, end);
      }
    }

    /** Go to the end of a trace that hit something, forget the planes hit before it if it moved at all,
        and record the entity and the plane hit. */
    method Land(env: Env, trace: Trace, original0: Vec, planes: array<Vec>, numplanes0: nat, ghost f: S.Slide)
      returns (original: Vec, numplanes: nat)
      requires Valid(env.engine) && 0 <= trace.ent < env.engine.numphysent && numplanes0 < planes.Length
      requires (f.origin, f.velocity, f.touch) == (origin, velocity, touchindex[..numtouch])
      requires f.original == original0 && f.planes == planes[..numplanes0]
      modifies `origin, `numtouch, touchindex, planes
      ensures Valid(env.engine) && numplanes <= numplanes0 + 1 && numplanes <= planes.Length
      ensures var g := S.Landed(f, trace);
              && (origin, touchindex[..numtouch]) == (g.origin, g.touch)
              && original == g.original && planes[..numplanes] == g.planes
    {
      hide Sound, TouchOk, Player.AddToTouched, S.Remaining;
      original, numplanes := original0, numplanes0;
      if trace.fraction > 0.0 {
        origin := trace.endpos;
        original := velocity;
        numplanes := 0;
      }
      var _ := AddToTouched(env.engine, trace, velocity);
      planes[numplanes] := trace.normal;
      numplanes := numplanes + 1;
    }

    /** The bumps of a slide: at most four, fewer if the player comes to rest, arrives or is trapped. */
    method SlideBumps(env: Env) returns (allFraction: real, floor: bool, wall: bool, trapped: bool)
      requires Valid(env.engine)
      modifies `origin, `velocity, `numtouch, touchindex
      ensures Valid(env.engine)
      ensures var f := S.WholeSlide(env, old(State()));
              && (origin, velocity, touchindex[..numtouch]) == (f.origin, f.velocity, f.touch)
              && (allFraction, floor, wall, trapped) == (f.allFraction, f.floor, f.wall, f.status == S.Trapped)
    {
      hide Sound, TouchOk, Player.AddToTouched, S.BumpTrace, S.Turned, S.Remaining, S.SlideAt;
      var primal, original := velocity, velocity;
      var planes, numplanes := new Vec[S.MAX_CLIP_PLANES](_ => ORIGIN), 0;
      var timeLeft := env.frametime;
      allFraction, floor, wall, trapped := 0.0, false, false, false;
      ghost var s0 := State();
      ghost var f := S.StartSlide(env, s0);
      FirstSlide(env, s0);
      var bump := 0;
      while bump < S.NUM_BUMPS
        invariant 0 <= bump <= S.NUM_BUMPS && Valid(env.engine) && 0 <= numplanes <= bump
        invariant f == S.SlideAt(env, s0, bump)
        invariant f == S.Slide(stance.usehull, onground, primal, origin, velocity, touchindex[..numtouch],
                               original, planes[..numplanes], timeLeft, allFraction, floor, wall, S.Running)
      {
        ghost var f0 := f;
        NextSlide(env, s0, bump);
        f := S.Bump(env, f0);
        bump := bump + 1;
        if velocity == ORIGIN {
          break;
        }
        var trace := TraceMove(env, timeLeft, f0);
        allFraction := allFraction + trace.fraction;
        if trace.allsolid {
          velocity := ORIGIN;
          trapped := true;
          break;
        }
        if trace.fraction == 1.0 {
          origin := trace.endpos;
          break;
        }
        original, numplanes := Land(env, trace, original, planes, numplanes, f0.(allFraction := allFraction));
        if trace.normal.z > 0.7 {
          floor := true;
        }
        if trace.normal.z == 0.0 {
          wall := true;
        }
        timeLeft := S.Remaining(timeLeft, trace.fraction);
        var stop;
        original, stop := Deflect(env, primal, original, planes, numplanes);
        if stop {
          break;
        }
      }
      if f.status != S.Running {
        S.StoppedStays(env, s0, bump, S.NUM_BUMPS);
      }
    }

    /** Move through the frame time, sliding along whatever is hit. */
    method FlyMove(env: Env) returns (blocked: int)
      requires Valid(env.engine)
      modifies `origin, `velocity, `numtouch, touchindex
      ensures Valid(env.engine)
      ensures State() == S.FlyMove(env, old(State()))
      ensures blocked == S.Blocked(S.WholeSlide(env, old(State())))
    {
      hide Sound, TouchOk, S.WholeSlide;
      var allFraction, floor, wall, trapped := SlideBumps(env);
      if trapped {
        return 4;
      }
      if allFraction == 0.0 {
        velocity := ORIGIN;
      }
      blocked := (if floor then 1 else 0) + (if wall then 2 else 0);
    }

    static lemma FirstSlide(env: Env, s: Mover)
      ensures S.SlideAt(env, s, 0) == S.StartSlide(env, s)
    {}

    static lemma NextSlide(env: Env, s: Mover, k: nat)
      ensures S.SlideAt(env, s, k).status == S.Running ==> S.SlideAt(env, s, k + 1) == S.Bump(env, S.SlideAt(env, s, k))
    {
      hide S.Bump;
    }

    // ----- gravity, acceleration, friction -----

    method CheckVelocity(env: Env)
      modifies `velocity
      ensures velocity == M.Clamped(old(velocity), env.vars.maxvelocity)
    {
      var x := Bound(velocity.x, env.vars.maxvelocity);
      var y := Bound(velocity.y, env.vars.maxvelocity);
      var z := Bound(velocity.z, env.vars.maxvelocity);
      velocity := Vec(x, y, z);
    }

    method AddCorrectGravity(env: Env)
      requires numtouch <= touchindex.Length
      modifies `velocity, `basevelocity
      ensures State() == M.AddCorrectGravity(env, old(State()))
    {
      hide M.Clamped, M.HalfGravity;
      if waterjumptime != 0.0 {
        return;
      }
      velocity := M.Fall(env, velocity);
      velocity := M.Rise(velocity, basevelocity.z, env.frametime);
      basevelocity := Vec(basevelocity.x, basevelocity.y, 0.0);
      CheckVelocity(env);
    }

    method FixupGravityVelocity(env: Env)
      modifies `velocity
      ensures velocity == M.SecondHalf(env, waterjumptime, old(velocity))
    {
      hide M.Clamped, M.HalfGravity;
      if waterjumptime != 0.0 {
        return;
      }
      velocity := M.Fall(env, velocity);
      CheckVelocity(env);
    }

    method Accelerate(env: Env, wishdir: Vec, wishspeed: real, accel: real)
      requires numtouch <= touchindex.Length
      modifies `velocity
      ensures State() == M.Accelerate(env, old(State()), wishdir, wishspeed, accel)
    {
      hide M.Pushed, M.AccelPush;
      if env.dead || waterjumptime != 0.0 {
        return;
      }
      velocity := Push(velocity, wishdir, wishspeed, M.AccelPush(env, wishspeed, accel));
    }

    method AirAccelerate(env: Env, wishdir: Vec, wishspeed: real, accel: real)
      requires numtouch <= touchindex.Length
      modifies `velocity
      ensures State() == M.AirAccelerate(env, old(State()), wishdir, wishspeed, accel)
    {
      hide M.Pushed, M.AccelPush;
      if env.dead || waterjumptime != 0.0 {
        return;
      }
      var wishspd := wishspeed;
      if wishspd > 30.0 {
        wishspd := 30.0;
      }
      velocity := Push(velocity, wishdir, wishspd, M.AccelPush(env, wishspeed, accel));
    }

    method Friction(env: Env)
      requires numtouch <= touchindex.Length
      modifies `velocity
      ensures State() == M.Friction(env, old(State()))
    {
      hide Length, M.Drop, M.Slowed, M.GroundFriction;
      if waterjumptime != 0.0 {
        return;
      }
      var speed := Length(env.engine, velocity);
      if speed < 0.1 {
        return;
      }
      var drop := 0.0;
      if onground != -1 {
        var friction := GroundFriction(env, stance.usehull, origin, velocity, speed);
        drop := M.Drop(env, speed, friction);
      }
      velocity := Slow(velocity, speed, drop);
    }

    // ----- water and ground -----

    method CheckWater(env: Env) returns (swimming: bool)
      requires numtouch <= touchindex.Length
      modifies `waterlevel, `watertype, `basevelocity
      ensures State() == M.CheckWater(env, old(State()))
      ensures swimming == M.InWater(State())
    {
      hide M.ProbeWater, Add;
      var w := ProbeWater(env, stance.usehull, origin, stance.viewZ);
      waterlevel, watertype := w.level, w.contents;
      basevelocity := Add(basevelocity, w.push);
      swimming := waterlevel > 1;
    }

    /** Where the downward trace of CatagorizePosition puts the player. */
    method Ground(env: Env, tr: Trace)
      requires Valid(env.engine) && (tr.ent == -1 || 0 <= tr.ent < env.engine.numphysent)
      modifies `onground, `waterjumptime, `origin, `numtouch, touchindex
      ensures Valid(env.engine)
      ensures var g := M.Grounded(old(State()), tr);
              && (onground, waterjumptime) == (g.onground, g.waterjumptime)
              && (origin, touchindex[..numtouch]) == (g.origin, g.touch)
    {
      hide Sound, TouchOk, Player.AddToTouched;
      if tr.normal.z < 0.7 {
        onground := -1;
      } else {
        onground := tr.ent;
      }
      if onground != -1 {
        waterjumptime := 0.0;
        if waterlevel < 2 && !tr.startsolid && !tr.allsolid {
          origin := tr.endpos;
        }
      }
      if tr.ent > 0 {
        var _ := AddToTouched(env.engine, tr, velocity);
      }
    }

    method CatagorizePosition(env: Env)
      requires Valid(env.engine)
      modifies `waterlevel, `watertype, `basevelocity, `onground, `waterjumptime, `origin, `numtouch, touchindex
      ensures Valid(env.engine) && State() == M.CatagorizePosition(env, old(State()))
    {
      hide Sound, TouchOk, M.CheckWater, Player.AddToTouched, Sub;
      var _ := CheckWater(env);
      if velocity.z > 180.0 {
        onground := -1;
        return;
      }
      var below := Sub(origin, Vec(0.0, 0.0, 2.0));
      EntityHit(env.engine, stance.usehull, origin, below);
      Ground(env, env.engine.playerTrace(stance.usehull, origin, below));
    }

    static lemma EntityHit(e: Callbacks, hull: int, a: Vec, b: Vec)
      requires Sound(e)
      ensures var t := e.playerTrace(hull, a, b); t.ent == -1 || 0 <= t.ent < e.numphysent
    {
      assert TraceSound(e, hull, a, b);
    }

    // ----- ducking -----

    /** Try the present place and then 36 more, a unit of `direction` apart; give up by staying. */
    method FixPlayerCrouchStuck(env: Env, direction: real)
      requires numtouch <= touchindex.Length
      modifies `origin
      ensures State() == M.FixPlayerCrouchStuck(env, old(State()), direction)
    {
      hide Add;
      if env.engine.testPlayerPosition(stance.usehull, origin) == -1 {
        return;
      }
      var test := origin;
      var i := 0;
      while i < 36
        invariant 0 <= i <= 36
        invariant env.engine.testPlayerPosition(stance.usehull, origin) != -1
        invariant M.Unstuck(env.engine, stance.usehull, test, test, direction, 36) ==
                  M.Unstuck(env.engine, stance.usehull, test, origin, direction, 36 - i)
      {
        origin := Add(origin, Vec(0.0, 0.0, direction));
        if env.engine.testPlayerPosition(stance.usehull, origin) == -1 {
          return;
        }
        i := i + 1;
      }
      origin := test;
    }

    method StandUp(env: Env, newOrigin: Vec)
      requires numtouch <= touchindex.Length
      modifies `stance, `origin, `velocity
      ensures State() == M.StoodUp(env, old(State()), newOrigin)
    {
      hide Scale;
      stance := stance.(usehull := STANDING, ducking := false, inDuck := false, viewZ := M.VEC_VIEW, duckTime := 0.0);
      origin := newOrigin;
      if env.ducktapCap && onground != -1 {
        velocity := Scale(0.9, velocity);
      }
    }

    method UnDuck(env: Env)
      requires Valid(env.engine)
      modifies this, touchindex
      ensures Valid(env.engine) && State() == M.UnDuck(env, old(State()))
    {
      hide Sound, TouchOk, M.CatagorizePosition, M.HullShift, Add;
      var newOrigin := origin;
      if onground != -1 {
        newOrigin := Add(newOrigin, M.HullShift());
      }
      var trace := env.engine.playerTrace(stance.usehull, newOrigin, newOrigin);
      if !trace.startsolid {
        stance := stance.(usehull := STANDING);
        trace := env.engine.playerTrace(stance.usehull, newOrigin, newOrigin);
        if trace.startsolid {
          stance := stance.(usehull := DUCKED);
          return;
        }
        StandUp(env, newOrigin);
        CatagorizePosition(env);
      }
    }

    method FinishDuck(env: Env)
      requires Valid(env.engine)
      modifies this, touchindex
      ensures Valid(env.engine) && State() == M.FinishDuck(env, old(State()))
    {
      hide Sound, TouchOk, M.CatagorizePosition, M.FixPlayerCrouchStuck, Sub;
      stance := stance.(usehull := DUCKED, viewZ := M.VEC_DUCK_VIEW, ducking := true, inDuck := false);
      if onground != -1 {
        origin := Sub(origin, M.HullShift());
        FixPlayerCrouchStuck(env, 1.0);
        CatagorizePosition(env);
      }
    }

    /** The duck key is down. */
    method HoldDuck(env: Env, pressed: bool)
      requires Valid(env.engine)
      modifies this, touchindex
      ensures Valid(env.engine) && State() == M.HoldDuck(env, old(State()), pressed)
    {
      hide Sound, TouchOk, M.FinishDuck, M.DuckingView;
      if pressed && !stance.ducking {
        stance := stance.(duckTime := 1000.0, inDuck := true);
      }
      if stance.inDuck {
        if stance.duckTime / 1000.0 <= 1.0 - M.TIME_TO_DUCK || onground == -1 {
          FinishDuck(env);
        } else {
          stance := stance.(viewZ := M.DuckingView(stance.duckTime));
        }
      }
    }

    method SlowDucked()
      requires numtouch <= touchindex.Length
      modifies `keys
      ensures State() == M.SlowDucked(old(State()))
    {
      if stance.ducking {
        keys := keys.(forwardmove := keys.forwardmove * M.PLAYER_DUCKING_MULTIPLIER,
                      sidemove := keys.sidemove * M.PLAYER_DUCKING_MULTIPLIER,
                      upmove := keys.upmove * M.PLAYER_DUCKING_MULTIPLIER);
      }
    }

    method Duck(env: Env)
      requires Valid(env.engine)
      modifies this, touchindex
      ensures Valid(env.engine) && State() == M.Duck(env, old(State()))
    {
      hide Sound, TouchOk, M.UnDuck, M.HoldDuck, M.SlowDucked;
      var pressed := env.cmd.duck && !keys.oldDuck;
      keys := keys.(oldDuck := env.cmd.duck);
      if env.noDuck || env.dead {
        if stance.ducking {
          UnDuck(env);
        }
        return;
      }
      SlowDucked();
      if env.cmd.duck || stance.inDuck || stance.ducking {
        if env.cmd.duck {
          HoldDuck(env, pressed);
        } else {
          UnDuck(env);
        }
      }
    }

    method ReduceTimers(env: Env)
      requires numtouch <= touchindex.Length
      modifies `stance
      ensures State() == M.ReduceTimers(env, old(State()))
    {
      if stance.duckTime > 0.0 {
        stance := stance.(duckTime := stance.duckTime - env.cmd.msec as real);
        if stance.duckTime < 0.0 {
          stance := stance.(duckTime := 0.0);
        }
      }
    }

    // ----- jumping -----

    method PreventMegaBunnyJumping(env: Env)
      modifies `velocity
      ensures velocity == M.PreventMegaBunnyJumping(env, old(velocity))
    {
      hide Scale, Length;
      var maxscaledspeed := 1.7 * env.maxspeed;
      if maxscaledspeed <= 0.0 {
        return;
      }
      var spd := Length(env.engine, velocity);
      if spd <= maxscaledspeed {
        return;
      }
      velocity := Scale(maxscaledspeed / spd * 0.65, velocity);
    }

    method Leap(env: Env)
      requires numtouch <= touchindex.Length
      modifies `onground, `velocity, `keys
      ensures State() == M.Leap(env, old(State()))
    {
      hide M.PreventMegaBunnyJumping, M.JumpVelocity, M.SecondHalf;
      onground := -1;
      if env.bhopCap {
        PreventMegaBunnyJumping(env);
      }
      velocity := JumpVelocity(env, stance.inDuck || stance.ducking, stance.duckTime, view.forward, velocity);
      FixupGravityVelocity(env);
      keys := keys.(oldJump := true);
    }

    method Jump(env: Env)
      requires numtouch <= touchindex.Length
      modifies `onground, `velocity, `keys, `waterjumptime
      ensures State() == M.Jump(env, old(State()))
    {
      hide M.Leap;
      if env.dead {
        keys := keys.(oldJump := true);
        return;
      }
      if waterjumptime != 0.0 {
        waterjumptime := waterjumptime - env.cmd.msec as real;
        if waterjumptime < 0.0 {
          waterjumptime := 0.0;
        }
        return;
      }
      if waterlevel >= 2 {
        onground := -1;
        if watertype == M.CONTENTS_WATER {
          velocity := Vec(velocity.x, velocity.y, 100.0);
        } else if watertype == M.CONTENTS_SLIME {
          velocity := Vec(velocity.x, velocity.y, 80.0);
        } else {
          velocity := Vec(velocity.x, velocity.y, 50.0);
        }
        return;
      }
      if onground == -1 {
        keys := keys.(oldJump := true);
        return;
      }
      if keys.oldJump {
        return;
      }
      Leap(env);
    }

    method JumpButton(env: Env)
      requires numtouch <= touchindex.Length
      modifies `onground, `velocity, `keys, `waterjumptime
      ensures State() == M.JumpButton(env, old(State()))
    {
      hide M.Jump;
      if env.cmd.jump {
        Jump(env);
      } else {
        keys := keys.(oldJump := false);
      }
    }

    method WaterJump(env: Env)
      requires numtouch <= touchindex.Length
      modifies `waterjumptime, `velocity
      ensures State() == M.WaterJump(env, old(State()))
    {
      if waterjumptime > 10000.0 {
        waterjumptime := 10000.0;
      }
      if waterjumptime == 0.0 {
        return;
      }
      waterjumptime := waterjumptime - env.cmd.msec as real;
      if waterjumptime < 0.0 || waterlevel == 0 {
        waterjumptime := 0.0;
      }
      velocity := Vec(movedir.x, movedir.y, velocity.z);
    }

    /** The traces use the point hull, so the hull in use is changed for them and put back. */
    method CheckWaterJump(env: Env)
      requires numtouch <= touchindex.Length
      modifies `stance, `movedir, `waterjumptime, `velocity, `keys
      ensures State() == M.CheckWaterJump(env, old(State()))
    {
      hide Normalize, Length, Scale, Add, Dot;
      if waterjumptime != 0.0 || velocity.z < -180.0 {
        return;
      }
      var curspeed := Length(env.engine, M.Flat(velocity));
      var flatvelocity := Normalize(env.engine, M.Flat(velocity));
      var flatforward := Normalize(env.engine, M.Flat(view.forward));
      if curspeed != 0.0 && Dot(flatvelocity, flatforward) < 0.0 {
        return;
      }
      var savehull := stance.usehull;
      stance := stance.(usehull := POINT);
      var start := Add(origin, M.Up(8.0));
      var tr := env.engine.playerTrace(stance.usehull, start, Add(start, Scale(24.0, flatforward)));
      if tr.fraction < 1.0 && -0.1 < tr.normal.z < 0.1 {
        start := Add(origin, M.Up(HullMaxs(savehull).z));
        movedir := Scale(-50.0, tr.normal);
        tr := env.engine.playerTrace(stance.usehull, start, Add(start, Scale(24.0, flatforward)));
        if tr.fraction == 1.0 {
          waterjumptime := 2000.0;
          velocity := Vec(velocity.x, velocity.y, 225.0);
          keys := keys.(oldJump := true);
        }
      }
      stance := stance.(usehull := savehull);
    }

    // ----- moving on the ground, in the air and in water -----

    /** Bring the view into the horizontal plane, and say what the keys ask for in it. */
    method WishFlat(env: Env) returns (wishdir: Vec, wishspeed: real)
      modifies `view
      ensures view == M.FlattenView(env, old(view))
      ensures var wish := M.WishVelocity(view, keys);
              && wishdir == Normalize(env.engine, wish)
              && wishspeed == M.Min(Length(env.engine, wish), env.maxspeed)
    {
      hide Normalize, Length;
      view := view.(forward := Vec(view.forward.x, view.forward.y, 0.0), right := Vec(view.right.x, view.right.y, 0.0));
      view := view.(forward := Normalize(env.engine, view.forward), right := Normalize(env.engine, view.right));
      var wishvel := M.WishVelocity(view, keys);
      wishdir := Normalize(env.engine, wishvel);
      wishspeed := Length(env.engine, wishvel);
      if wishspeed > env.maxspeed {
        wishspeed := env.maxspeed;
      }
    }

    method AirMove(env: Env)
      requires Valid(env.engine)
      modifies this, touchindex
      ensures Valid(env.engine) && State() == M.AirMove(env, old(State()))
    {
      hide Sound, TouchOk, S.FlyMove, M.FlattenView, M.WishVelocity, M.Pushed, M.AccelPush, Normalize, Length, Add;
      var wishdir, wishspeed := WishFlat(env);
      AirAccelerate(env, wishdir, wishspeed, env.vars.airaccelerate);
      velocity := Add(velocity, basevelocity);
      var _ := FlyMove(env);
    }

    method WalkAccelerate(env: Env)
      requires numtouch <= touchindex.Length
      modifies `view, `velocity
      ensures State() == M.WalkAccelerate(env, old(State()))
    {
      hide M.FlattenView, M.WishVelocity, M.Pushed, M.AccelPush, Normalize, Length, Add;
      var wishdir, wishspeed := WishFlat(env);
      velocity := Vec(velocity.x, velocity.y, 0.0);
      Accelerate(env, wishdir, wishspeed, env.vars.accelerate);
      velocity := Vec(velocity.x, velocity.y, 0.0);
      velocity := Add(velocity, basevelocity);
    }

    /** Start out up one stair height, if there is room, and slide from there. */
    method Lift(env: Env)
      requires Valid(env.engine)
      modifies this, touchindex
      ensures Valid(env.engine) && State() == M.Lifted(env, old(State()))
    {
      hide Sound, TouchOk, S.FlyMove, Add;
      var trace := env.engine.playerTrace(stance.usehull, origin, Add(origin, M.Up(env.vars.stepsize)));
      if !trace.startsolid && !trace.allsolid {
        origin := trace.endpos;
      }
      var _ := FlyMove(env);
    }

    /** Slide on the level; start again and slide up one stair height; press back down; keep the attempt
        that went farther over the ground, and the one on the level if the other ended on no floor. */
    method StepMove(env: Env)
      requires Valid(env.engine)
      modifies this, touchindex
      ensures Valid(env.engine) && State() == M.StepMove(env, old(State()))
    {
      hide Sound, TouchOk, S.FlyMove, M.Lifted, M.FlatDistanceSquared, Sub;
      var original, originalvel := origin, velocity;
      var _ := FlyMove(env);
      var down, downvel := origin, velocity;
      origin, velocity := original, originalvel;
      Lift(env);
      var trace := env.engine.playerTrace(stance.usehull, origin, Sub(origin, M.Up(env.vars.stepsize)));
      if trace.normal.z < 0.7 {
        origin, velocity := down, downvel;
        return;
      }
      if !trace.startsolid && !trace.allsolid {
        origin := trace.endpos;
      }
      view := view.(up := origin);
      var downdist := M.FlatDistanceSquared(down, original);
      var updist := M.FlatDistanceSquared(view.up, original);
      if downdist > updist {
        origin, velocity := down, downvel;
      } else {
        velocity := Vec(velocity.x, velocity.y, downvel.z);
      }
    }

    method WalkMove(env: Env)
      requires Valid(env.engine)
      modifies this, touchindex
      ensures Valid(env.engine) && State() == M.WalkMove(env, old(State()))
    {
      hide Sound, TouchOk, M.WalkAccelerate, M.StepMove, Length, Scale, Add;
      WalkAccelerate(env);
      if Length(env.engine, velocity) < 1.0 {
        velocity := ORIGIN;
        return;
      }
      var dest := Add(origin, Scale(env.frametime, Vec(velocity.x, velocity.y, 0.0)));
      var trace := env.engine.playerTrace(stance.usehull, origin, dest);
      if trace.fraction == 1.0 {
        origin := trace.endpos;
        return;
      }
      if onground == -1 && waterlevel == 0 {
        return;
      }
      if waterjumptime != 0.0 {
        return;
      }
      StepMove(env);
    }

    /** Water friction and acceleration; `moving` is false when the keys ask for next to nothing. */
    method WaterAccelerate(env: Env) returns (moving: bool)
      modifies `velocity
      ensures (velocity, moving) == M.WaterVelocity(env, view, keys, old(velocity), basevelocity)
    {
      hide Length, Scale, Add, Normalize, M.SwimVelocity, M.WaterDrag;
      var wishvel := M.SwimVelocity(view, keys);
      var wishspeed := Length(env.engine, wishvel);
      if wishspeed > env.maxspeed && wishspeed != 0.0 {
        wishvel := Scale(env.maxspeed / wishspeed, wishvel);
        wishspeed := env.maxspeed;
      }
      wishspeed := wishspeed * 0.8;
      velocity := Add(velocity, basevelocity);
      var newspeed;
      velocity, newspeed := DragInWater(env, velocity);
      if wishspeed < 0.1 {
        return false;
      }
      var addspeed := wishspeed - newspeed;
      if addspeed > 0.0 {
        wishvel := Normalize(env.engine, wishvel);
        var accelspeed := M.AccelPush(env, wishspeed, env.vars.accelerate);
        if accelspeed > addspeed {
          accelspeed := addspeed;
        }
        velocity := Add(velocity, Scale(accelspeed, wishvel));
      }
      return true;
    }

    method WaterMove(env: Env)
      requires Valid(env.engine)
      modifies this, touchindex
      ensures Valid(env.engine) && State() == M.WaterMove(env, old(State()))
    {
      hide Sound, TouchOk, S.FlyMove, M.WaterVelocity, Scale, Add;
      var moving := WaterAccelerate(env);
      if !moving {
        return;
      }
      var dest := Add(origin, Scale(env.frametime, velocity));
      var start := Add(dest, M.Up(env.vars.stepsize + 1.0));
      var trace := env.engine.playerTrace(stance.usehull, start, dest);
      if !trace.startsolid && !trace.allsolid {
        origin := trace.endpos;
        return;
      }
      var _ := FlyMove(env);
    }

    // ----- the frame -----

    method Swim(env: Env)
      requires Valid(env.engine)
      modifies this, touchindex
      ensures Valid(env.engine) && State() == M.Swim(env, old(State()))
    {
      hide Sound, TouchOk, M.CheckWaterJump, M.JumpButton, M.WaterMove, M.CatagorizePosition, Sub;
      if waterlevel == 2 {
        CheckWaterJump(env);
      }
      if velocity.z < 0.0 && waterjumptime != 0.0 {
        waterjumptime := 0.0;
      }
      JumpButton(env);
      WaterMove(env);
      velocity := Sub(velocity, basevelocity);
      CatagorizePosition(env);
    }

    method Step(env: Env)
      requires Valid(env.engine)
      modifies this, touchindex
      ensures Valid(env.engine) && State() == M.Step(env, old(State()))
    {
      hide Sound, TouchOk, M.JumpButton, M.Friction, M.WalkMove, M.AirMove, M.CatagorizePosition;
      hide Sub, M.Clamped, M.SecondHalf;
      JumpButton(env);
      if onground != -1 {
        velocity := Vec(velocity.x, velocity.y, 0.0);
        Friction(env);
      }
      CheckVelocity(env);
      if onground != -1 {
        WalkMove(env);
      } else {
        AirMove(env);
      }
      CatagorizePosition(env);
      velocity := Sub(velocity, basevelocity);
      CheckVelocity(env);
      if !(waterlevel > 1) {
        FixupGravityVelocity(env);
      }
      if onground != -1 {
        velocity := Vec(velocity.x, velocity.y, 0.0);
      }
    }

    method Walk(env: Env)
      requires Valid(env.engine)
      modifies this, touchindex
      ensures Valid(env.engine) && State() == M.Walk(env, old(State()))
    {
      hide Sound, TouchOk, M.AddCorrectGravity, M.WaterJump, M.CheckWater, S.FlyMove, M.Swim, M.Step;
      if !(waterlevel > 1) {
        AddCorrectGravity(env);
      }
      if waterjumptime != 0.0 {
        WaterJump(env);
        var _ := FlyMove(env);
        var _ := CheckWater(env);
        return;
      }
      if waterlevel >= 2 {
        Swim(env);
      } else {
        Step(env);
      }
    }

    /** The start of a command: a new touch list, the command's view and keys, timers, ground, ducking. */
    method Prepare(env: Env)
      requires Sound(env.engine) && touchindex.Length == MAX_PHYSENTS && numtouch <= MAX_PHYSENTS
      modifies this, touchindex
      ensures Valid(env.engine) && State() == M.Prepared(env, old(State()))
    {
      hide Sound, M.CatagorizePosition, M.Duck;
      numtouch := 0;
      view := View(env.cmd.forward, env.cmd.right, env.cmd.up);
      keys := keys.(forwardmove := env.cmd.forwardmove, sidemove := env.cmd.sidemove, upmove := env.cmd.upmove);
      ReduceTimers(env);
      CatagorizePosition(env);
      Duck(env);
    }

    /** The +use part of a command. */
    method Pull(env: Env, detector: D.SlowDownState)
      requires numtouch <= touchindex.Length && env.slowOnUse == (D.ActualMethod(detector.Value()) == D.Old)
      modifies `velocity, detector
      ensures State() == M.SlowOnUse(env, old(State()))
      ensures detector.Value() == D.Next(old(detector.Value()), D.EventOf(env.engine.sqrt, U.Shows(env, old(State()))))
    {
      hide Scale, D.Next, D.EventOf;
      velocity := detector.Use(env.engine.sqrt, D.Command(env.maxspeed, velocity, onground, env.cmd.use, env.cmd.walk));
    }

    /** One command of a walking player who is not stuck, not a spectator and not on a ladder. The detector
        says whether +use slows the player down, and learns from the command. */
    method PlayerMove(env: Env, detector: D.SlowDownState)
      requires Sound(env.engine) && touchindex.Length == MAX_PHYSENTS && numtouch <= MAX_PHYSENTS
      modifies this, touchindex, detector
      ensures Valid(env.engine)
      ensures (State(), detector.Value()) == U.ClientFrame(env, old(State()), old(detector.Value()))
      ensures old(W.InTheOpen(env.engine, State())) ==> W.Good(env.engine, State())
    {
      hide Sound, TouchOk, U.With, M.Prepared, M.SlowOnUse, M.Walk, D.Next, D.EventOf, U.Shows, W.Good, W.InTheOpen;
      ghost var s0, d0 := State(), detector.Value();
      var now := U.With(env, detector.Value());
      U.WithFacts(env, d0);
      Prepare(now);
      Pull(now, detector);
      Walk(now);
      if W.InTheOpen(env.engine, s0) {
        W.FrameKeepsGood(now, s0);
      }
    }
  }
}
