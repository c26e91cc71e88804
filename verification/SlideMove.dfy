/** PM_ClipVelocity and PM_FlyMove: the slide along up to four impact planes, as functions of the
    player state. */
module SlideMove {
  import opened Vectors
  import opened Engine
  import opened Player

  const STOP_EPSILON := 0.1
  const MAX_CLIP_PLANES := 5
  const NUM_BUMPS := 4

  // ----- PM_ClipVelocity -----

  function Snap(r: real): real { if -STOP_EPSILON < r < STOP_EPSILON then 0.0 else r }

  /** The velocity with `overbounce` times its component along the normal removed. */
  function Deflection(v: Vec, normal: Vec, overbounce: real): Vec {
    Sub(v, Scale(Dot(v, normal) * overbounce, normal))
  }

  function ClipVelocity(v: Vec, normal: Vec, overbounce: real): Vec {
    var d := Deflection(v, normal, overbounce);
    Vec(Snap(d.x), Snap(d.y), Snap(d.z))
  }

  // ----- PM_FlyMove -----

  datatype Status = Running | Stopped | Trapped

  /** The state of a slide: what is constant during it, what it changes in the player, and its loop
      variables. The primal velocity is the one it started with; the original velocity is the one at the
      last progress, which the planes hit since are tried against. */
  datatype Slide = Slide(
    hull: int, onground: int, primal: Vec,
    origin: Vec, velocity: Vec, touch: seq<Touch>,
    original: Vec, planes: seq<Vec>, timeLeft: real, allFraction: real, floor: bool, wall: bool, status: Status)

  function StartSlide(env: Env, s: Mover): Slide {
    Slide(s.stance.usehull, s.onground, s.velocity, s.origin, s.velocity, s.touch,
          s.velocity, [], env.frametime, 0.0, false, false, Running)
  }

  /** The trace of one bump: when it does not move at all, it is tried again a thousandth of a unit off
      the wall. */
  function BumpTrace(env: Env, f: Slide): Trace {
    var end := Add(f.origin, Scale(f.timeLeft, f.velocity));
    var t := env.engine.playerTrace(f.hull, f.origin, end);
    if t.fraction == 0.0 then env.engine.playerTrace(f.hull, f.origin, Add(end, Scale(0.001, t.normal))) else t
  }

  /** Moving along plane i, are we moving against one of the other planes? */
  predicate MovesAgainst(v: Vec, planes: seq<Vec>, i: int) {
    exists j :: 0 <= j < |planes| && j != i && Dot(v, planes[j]) < 0.0
  }

  /** The clip against the first plane, from i on, that leaves no other plane in the way. When there is
      none, the clip against the last plane. */
  function SlideAlong(original: Vec, planes: seq<Vec>, i: nat): (r: (Vec, bool))
    requires i < |planes|
    decreases |planes| - i
  {
    var v := ClipVelocity(original, planes[i], 1.0);
    if !MovesAgainst(v, planes, i) then (v, true)
    else if i + 1 == |planes| then (v, false)
    else SlideAlong(original, planes, i + 1)
  }

  function Crease(v: Vec, planes: seq<Vec>): Vec
    requires |planes| == 2
  {
    var dir := Cross(planes[0], planes[1]);
    Scale(Dot(dir, v), dir)
  }

  /** Bouncing off the first plane is only tried in the air, or with unusual friction. */
  predicate Reflects(env: Env, onground: int, planes: seq<Vec>) {
    |planes| == 1 && env.movetype == MOVETYPE_WALK && (onground == -1 || env.friction != 1.0)
  }

  function Bounce(env: Env): real { env.vars.bounce * (1.0 - env.friction) }

  function Overbounce(env: Env, normal: Vec): real { if normal.z > 0.7 then 1.0 else 1.0 + Bounce(env) }

  function Reflect(env: Env, original: Vec, normal: Vec): Vec {
    ClipVelocity(original, normal, Overbounce(env, normal))
  }

  /** The outcome of an impact: the new velocity, the velocity later planes are tried against, and
      whether the slide ends here. */
  datatype Turn = Turn(velocity: Vec, original: Vec, stop: bool)

  function Turned(env: Env, onground: int, primal: Vec, original: Vec, planes: seq<Vec>): Turn
    requires |planes| > 0
  {
    if Reflects(env, onground, planes) then
      var v := Reflect(env, original, planes[0]);
      Turn(v, v, false)
    else
      var (along, found) := SlideAlong(original, planes, 0);
      if !found && |planes| != 2 then Turn(ORIGIN, original, true)
      else
        var v := if found then along else Crease(along, planes);
        if Dot(v, primal) <= 0.0 then Turn(ORIGIN, original, true) else Turn(v, original, false)
  }

  function Remaining(timeLeft: real, fraction: real): real { timeLeft - timeLeft * fraction }

  /** After a trace that did not use up the whole move: progress, if any, forgets the planes hit before
      it; the entity hit is recorded; the plane hit is added. */
  function Landed(f: Slide, t: Trace): (g: Slide)
    ensures |g.planes| > 0
  {
    var progress := t.fraction > 0.0;
    f.(origin := if progress then t.endpos else f.origin,
       original := if progress then f.velocity else f.original,
       planes := (if progress then [] else f.planes) + [t.normal],
       touch := AddToTouched(f.touch, t, f.velocity),
       floor := f.floor || t.normal.z > 0.7,
       wall := f.wall || t.normal.z == 0.0,
       timeLeft := Remaining(f.timeLeft, t.fraction))
  }

  function Deflect(env: Env, f: Slide): Slide
    requires |f.planes| > 0
  {
    var r := Turned(env, f.onground, f.primal, f.original, f.planes);
    f.(velocity := r.velocity, original := r.original, status := if r.stop then Stopped else f.status)
  }

  function Bump(env: Env, f: Slide): Slide {
    if f.velocity == ORIGIN then f.(status := Stopped)
    else
      var t := BumpTrace(env, f);
      var g := f.(allFraction := f.allFraction + t.fraction);
      if t.allsolid then g.(velocity := ORIGIN, status := Trapped)
      else if t.fraction == 1.0 then g.(origin := t.endpos, original := g.velocity, planes := [], status := Stopped)
      else
        var landed := Landed(g, t);
        if |landed.planes| > MAX_CLIP_PLANES
        then landed.(planes := landed.planes[..MAX_CLIP_PLANES], velocity := ORIGIN, status := Stopped)
        else Deflect(env, landed)
  }

  /** The slide after at most `bumps` bumps. */
  function SlideAt(env: Env, s: Mover, bumps: nat): Slide {
    if bumps == 0 then StartSlide(env, s)
    else
      var f := SlideAt(env, s, bumps - 1);
      if f.status == Running then Bump(env, f) else f
  }

  function WholeSlide(env: Env, s: Mover): Slide { SlideAt(env, s, NUM_BUMPS) }

  /** A slide that covered no distance at all stops the player. */
  function FlyMove(env: Env, s: Mover): Mover {
    var f := WholeSlide(env, s);
    s.(origin := f.origin,
       velocity := if f.status == Trapped || f.allFraction != 0.0 then f.velocity else ORIGIN,
       touch := f.touch)
  }

  /** The return value: 4 when trapped, else 1 for a floor hit and 2 for a wall hit, added up. */
  function Blocked(f: Slide): int {
    if f.status == Trapped then 4 else (if f.floor then 1 else 0) + (if f.wall then 2 else 0)
  }

  lemma {:induction false} StoppedStays(env: Env, s: Mover, j: nat, k: nat)
    requires j <= k && SlideAt(env, s, j).status != Running
    ensures SlideAt(env, s, k) == SlideAt(env, s, j)
  {
    if j < k {
      StoppedStays(env, s, j, k - 1);
    }
  }
}
