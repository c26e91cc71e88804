/** The operations of a walking player's frame, each as a function from the player before to the player
    after. The class in PlayerRecord.dfy performs them in place. */
module Movement {
  import opened Vectors
  import opened Engine
  import opened Player
  import opened SlideMove

  const VEC_VIEW := 28.0
  const VEC_DUCK_VIEW := 12.0
  const VEC_HULL_MIN := -36.0
  const VEC_DUCK_HULL_MIN := -18.0
  const TIME_TO_DUCK := 0.4
  const PLAYER_DUCKING_MULTIPLIER := 0.333

  const CONTENTS_EMPTY := -1
  const CONTENTS_WATER := -3
  const CONTENTS_SLIME := -4
  const CONTENTS_CURRENT_0 := -9
  const CONTENTS_CURRENT_DOWN := -14
  const CONTENTS_TRANSLUCENT := -15

  function Flat(v: Vec): Vec { Vec(v.x, v.y, 0.0) }

  function WithZ(v: Vec, z: real): Vec { Vec(v.x, v.y, z) }

  function Up(z: real): Vec { Vec(0.0, 0.0, z) }

  function Tracing(env: Env, s: Mover, a: Vec, b: Vec): Trace { env.engine.playerTrace(s.stance.usehull, a, b) }

  predicate Open(t: Trace) { !t.startsolid && !t.allsolid }

  // ----- velocity: clamping, gravity, acceleration, friction -----

  function Clamp(r: real, bound: real): real {
    if r > bound then bound else if r < -bound then -bound else r
  }

  function Clamped(v: Vec, bound: real): Vec { Vec(Clamp(v.x, bound), Clamp(v.y, bound), Clamp(v.z, bound)) }

  function CheckVelocity(env: Env, s: Mover): Mover {
    s.(velocity := Clamped(s.velocity, env.vars.maxvelocity))
  }

  function EntGravity(env: Env): real { if env.gravity != 0.0 then env.gravity else 1.0 }

  /** What half a frame of gravity takes from the vertical velocity. */
  function HalfGravity(env: Env): real { EntGravity(env) * env.vars.gravity * 0.5 * env.frametime }

  function Fall(env: Env, v: Vec): Vec { WithZ(v, v.z - HalfGravity(env)) }

  function Rise(v: Vec, push: real, time: real): Vec { WithZ(v, v.z + push * time) }

  /** The velocity after the first half of gravity and the rise of a base velocity. */
  function FirstHalf(env: Env, v: Vec, base: Vec): Vec {
    Clamped(Rise(Fall(env, v), base.z, env.frametime), env.vars.maxvelocity)
  }

  /** The velocity after the second half of gravity. */
  function SecondHalf(env: Env, waterjumptime: real, v: Vec): Vec {
    if waterjumptime != 0.0 then v else Clamped(Fall(env, v), env.vars.maxvelocity)
  }

  function AddCorrectGravity(env: Env, s: Mover): Mover {
    if s.waterjumptime != 0.0 then s
    else s.(velocity := FirstHalf(env, s.velocity, s.basevelocity), basevelocity := Flat(s.basevelocity))
  }

  function FixupGravityVelocity(env: Env, s: Mover): Mover {
    s.(velocity := SecondHalf(env, s.waterjumptime, s.velocity))
  }

  function Min(a: real, b: real): real { if a > b then b else a }

  /** The velocity after pushing along wishdir until the speed in that direction is `target`, by no more
      than `push`. */
  function Pushed(v: Vec, wishdir: Vec, target: real, push: real): Vec {
    var addspeed := target - Dot(v, wishdir);
    if addspeed <= 0.0 then v else Add(v, Scale(Min(push, addspeed), wishdir))
  }

  function AccelPush(env: Env, wishspeed: real, accel: real): real { accel * env.frametime * wishspeed * env.friction }

  function Accelerate(env: Env, s: Mover, wishdir: Vec, wishspeed: real, accel: real): Mover {
    if env.dead || s.waterjumptime != 0.0 then s
    else s.(velocity := Pushed(s.velocity, wishdir, wishspeed, AccelPush(env, wishspeed, accel)))
  }

  function AirAccelerate(env: Env, s: Mover, wishdir: Vec, wishspeed: real, accel: real): Mover {
    if env.dead || s.waterjumptime != 0.0 then s
    else s.(velocity := Pushed(s.velocity, wishdir, Min(wishspeed, 30.0), AccelPush(env, wishspeed, accel)))
  }

  /** The speed that friction leaves of `speed`. */
  function SpeedAfter(speed: real, drop: real): real { if speed - drop < 0.0 then 0.0 else speed - drop }

  /** Ground friction: edge friction when there is nothing underfoot past the leading edge of the hull. */
  function GroundFriction(env: Env, hull: int, origin: Vec, velocity: Vec, speed: real): real
    requires speed != 0.0
  {
    var start := Add(origin, Vec(velocity.x / speed * 16.0, velocity.y / speed * 16.0, HullMins(hull).z));
    var t := env.engine.playerTrace(hull, start, Sub(start, Up(34.0)));
    env.friction * (if t.fraction == 1.0 then env.vars.friction * env.vars.edgefriction else env.vars.friction)
  }

  /** The speed friction takes in one frame; below the stop speed it takes as much as at the stop speed. */
  function Drop(env: Env, speed: real, friction: real): real {
    (if speed < env.vars.stopspeed then env.vars.stopspeed else speed) * friction * env.frametime
  }

  function Slowed(v: Vec, speed: real, drop: real): Vec
    requires speed != 0.0
  {
    Scale(SpeedAfter(speed, drop) / speed, v)
  }

  function Friction(env: Env, s: Mover): Mover {
    var speed := Length(env.engine, s.velocity);
    if s.waterjumptime != 0.0 || speed < 0.1 then s
    else
      var drop := if s.onground == -1 then 0.0
                  else Drop(env, speed, GroundFriction(env, s.stance.usehull, s.origin, s.velocity, speed));
      s.(velocity := Slowed(s.velocity, speed, drop))
  }

  // ----- where the player stands: water, ground -----

  predicate Submerging(contents: int) { CONTENTS_TRANSLUCENT < contents <= CONTENTS_WATER }

  predicate Submerged(env: Env, p: Vec) { Submerging(env.engine.pointContents(p)) }

  /** The direction of a current, 0 to 5. */
  function Current(k: int): Vec {
    if k == 0 then Vec(1.0, 0.0, 0.0) else if k == 1 then Vec(0.0, 1.0, 0.0)
    else if k == 2 then Vec(-1.0, 0.0, 0.0) else if k == 3 then Vec(0.0, -1.0, 0.0)
    else if k == 4 then Up(1.0) else Up(-1.0)
  }

  /** The answer to a probe for water: level 0 to 3, the contents at the feet, the push of the current. */
  datatype Water = Water(level: int, contents: int, push: Vec)

  function Middle(hull: int, origin: Vec): Vec {
    Add(origin, Scale(0.5, Add(HullMins(hull), HullMaxs(hull))))
  }

  function Feet(hull: int, origin: Vec): Vec { WithZ(Middle(hull, origin), origin.z + HullMins(hull).z + 1.0) }

  function Eyes(hull: int, origin: Vec, viewZ: real): Vec { WithZ(Middle(hull, origin), origin.z + viewZ) }

  function CurrentPush(contents: int, level: int): Vec {
    if CONTENTS_CURRENT_DOWN <= contents <= CONTENTS_CURRENT_0
    then Scale(50.0 * level as real, Current(CONTENTS_CURRENT_0 - contents)) else ORIGIN
  }

  function ProbeWater(env: Env, hull: int, origin: Vec, viewZ: real): Water {
    var feet := Feet(hull, origin);
    if !Submerged(env, feet) then Water(0, CONTENTS_EMPTY, ORIGIN)
    else
      var level := if !Submerged(env, Middle(hull, origin)) then 1
                   else if !Submerged(env, Eyes(hull, origin, viewZ)) then 2 else 3;
      Water(level, env.engine.pointContents(feet), CurrentPush(env.engine.truePointContents(feet), level))
  }

  function CheckWater(env: Env, s: Mover): Mover {
    var w := ProbeWater(env, s.stance.usehull, s.origin, s.stance.viewZ);
    s.(waterlevel := w.level, watertype := w.contents, basevelocity := Add(s.basevelocity, w.push))
  }

  /** The player after the trace two units down: on the ground it found, if that is not too steep. */
  function Grounded(s: Mover, t: Trace): Mover {
    var ground := if t.normal.z < 0.7 then -1 else t.ent;
    s.(onground := ground,
       waterjumptime := if ground != -1 then 0.0 else s.waterjumptime,
       origin := if ground != -1 && s.waterlevel < 2 && Open(t) then t.endpos else s.origin,
       touch := if t.ent > 0 then AddToTouched(s.touch, t, s.velocity) else s.touch)
  }

  function CatagorizePosition(env: Env, s: Mover): Mover {
    var w := CheckWater(env, s);
    if w.velocity.z > 180.0 then w.(onground := -1)
    else Grounded(w, Tracing(env, w, w.origin, Sub(w.origin, Up(2.0))))
  }

  // ----- ducking -----

  function SplineFraction(value: real, scale: real): real {
    var v := scale * value;
    3.0 * (v * v) - 2.0 * (v * v) * v
  }

  /** The first position clear of solids among p and the next `tries`, `direction` apart going up, or else
      `origin`. */
  function Unstuck(e: Callbacks, hull: int, origin: Vec, p: Vec, direction: real, tries: nat): Vec
    decreases tries
  {
    if e.testPlayerPosition(hull, p) == -1 then p
    else if tries == 0 then origin
    else Unstuck(e, hull, origin, Add(p, Up(direction)), direction, tries - 1)
  }

  function FixPlayerCrouchStuck(env: Env, s: Mover, direction: real): Mover {
    s.(origin := Unstuck(env.engine, s.stance.usehull, s.origin, s.origin, direction, 36))
  }

  /** How much lower the standing hull reaches than the ducked hull. */
  function HullShift(): Vec { Sub(HullMins(DUCKED), HullMins(STANDING)) }

  /** Standing at p. */
  function StoodUp(env: Env, s: Mover, p: Vec): Mover {
    s.(stance := Stance(STANDING, false, false, 0.0, VEC_VIEW), origin := p,
       velocity := if env.ducktapCap && s.onground != -1 then Scale(0.9, s.velocity) else s.velocity)
  }

  /** Stand up if there is room: asked with the hull in use, and again with the standing hull. */
  function UnDuck(env: Env, s: Mover): Mover {
    var p := if s.onground != -1 then Add(s.origin, HullShift()) else s.origin;
    if env.engine.playerTrace(s.stance.usehull, p, p).startsolid then s
    else if env.engine.playerTrace(STANDING, p, p).startsolid then s.(stance := s.stance.(usehull := DUCKED))
    else CatagorizePosition(env, StoodUp(env, s, p))
  }

  function Down(t: Stance): Stance { Stance(DUCKED, true, false, t.duckTime, VEC_DUCK_VIEW) }

  function FinishDuck(env: Env, s: Mover): Mover {
    var ducked := s.(stance := Down(s.stance));
    if s.onground == -1 then ducked
    else
      CatagorizePosition(env, FixPlayerCrouchStuck(env, ducked.(origin := Sub(s.origin, HullShift())), 1.0))
  }

  function DuckingTime(duckTime: real): real {
    var time := 1.0 - duckTime / 1000.0;
    if time < 0.0 then 0.0 else time
  }

  function DuckingView(duckTime: real): real {
    var more := VEC_DUCK_HULL_MIN - VEC_HULL_MIN;
    var fraction := SplineFraction(DuckingTime(duckTime), 1.0 / TIME_TO_DUCK);
    (VEC_DUCK_VIEW - more) * fraction + VEC_VIEW * (1.0 - fraction)
  }

  /** Duck is held down and allowed. */
  function HoldDuck(env: Env, s: Mover, pressed: bool): Mover {
    var d := if pressed && !s.stance.ducking then s.(stance := s.stance.(duckTime := 1000.0, inDuck := true)) else s;
    if !d.stance.inDuck then d
    else if d.stance.duckTime / 1000.0 <= 1.0 - TIME_TO_DUCK || d.onground == -1 then FinishDuck(env, d)
    else d.(stance := d.stance.(viewZ := DuckingView(d.stance.duckTime)))
  }

  function SlowDucked(s: Mover): Mover {
    if !s.stance.ducking then s
    else s.(keys := s.keys.(forwardmove := s.keys.forwardmove * PLAYER_DUCKING_MULTIPLIER,
                            sidemove := s.keys.sidemove * PLAYER_DUCKING_MULTIPLIER,
                            upmove := s.keys.upmove * PLAYER_DUCKING_MULTIPLIER))
  }

  function Duck(env: Env, s0: Mover): Mover {
    var s := s0.(keys := s0.keys.(oldDuck := env.cmd.duck));
    if env.noDuck || env.dead then (if s.stance.ducking then UnDuck(env, s) else s)
    else
      var d := SlowDucked(s);
      if env.cmd.duck then HoldDuck(env, d, !s0.keys.oldDuck)
      else if d.stance.inDuck || d.stance.ducking then UnDuck(env, d)
      else d
  }

  function ReduceTimers(env: Env, s: Mover): Mover {
    var left := s.stance.duckTime - env.cmd.msec as real;
    if s.stance.duckTime > 0.0 then s.(stance := s.stance.(duckTime := if left < 0.0 then 0.0 else left)) else s
  }

  // ----- jumping -----

  /** The velocity, cropped when bunny jumping has made it too fast. */
  function PreventMegaBunnyJumping(env: Env, v: Vec): Vec {
    var most := 1.7 * env.maxspeed;
    var speed := Length(env.engine, v);
    if most <= 0.0 || speed <= most then v else Scale(most / speed * 0.65, v)
  }

  function SwimUp(s: Mover): Mover {
    var z := if s.watertype == CONTENTS_WATER then 100.0 else if s.watertype == CONTENTS_SLIME then 80.0 else 50.0;
    s.(onground := -1, velocity := WithZ(s.velocity, z))
  }

  predicate SuperJumps(env: Env, duckTime: real, speed: real) {
    env.canSuperJump && env.cmd.duck && duckTime > 0.0 && 50.0 < speed < 500.0
  }

  /** The velocity at takeoff; crouched, with the module and the right speed, it is a long jump. */
  function JumpVelocity(env: Env, crouched: bool, duckTime: real, forward: Vec, v: Vec): Vec {
    if crouched && SuperJumps(env, duckTime, Length(env.engine, v))
    then Vec(forward.x * 350.0 * 1.6, forward.y * 350.0 * 1.6, env.engine.sqrt(2.0 * 800.0 * 56.0))
    else WithZ(v, env.engine.sqrt(2.0 * 800.0 * 45.0))
  }

  /** Leaving the ground. */
  function Leap(env: Env, s: Mover): Mover {
    var capped := if env.bhopCap then PreventMegaBunnyJumping(env, s.velocity) else s.velocity;
    var v := JumpVelocity(env, s.stance.inDuck || s.stance.ducking, s.stance.duckTime, s.view.forward, capped);
    s.(onground := -1, velocity := SecondHalf(env, s.waterjumptime, v), keys := s.keys.(oldJump := true))
  }

  function Jump(env: Env, s: Mover): Mover {
    if env.dead then s.(keys := s.keys.(oldJump := true))
    else if s.waterjumptime != 0.0 then
      var left := s.waterjumptime - env.cmd.msec as real;
      s.(waterjumptime := if left < 0.0 then 0.0 else left)
    else if s.waterlevel >= 2 then SwimUp(s)
    else if s.onground == -1 then s.(keys := s.keys.(oldJump := true))
    else if s.keys.oldJump then s
    else Leap(env, s)
  }

  function JumpButton(env: Env, s: Mover): Mover {
    if env.cmd.jump then Jump(env, s) else s.(keys := s.keys.(oldJump := false))
  }

  function WaterJump(env: Env, s: Mover): Mover {
    var time := Min(s.waterjumptime, 10000.0);
    if time == 0.0 then s.(waterjumptime := time)
    else
      var left := time - env.cmd.msec as real;
      s.(waterjumptime := if left < 0.0 || s.waterlevel == 0 then 0.0 else left,
         velocity := WithZ(s.movedir, s.velocity.z))
  }

  predicate BackingUp(env: Env, s: Mover) {
    && Length(env.engine, Flat(s.velocity)) != 0.0
    && Dot(Normalize(env.engine, Flat(s.velocity)), Normalize(env.engine, Flat(s.view.forward))) < 0.0
  }

  /** The trace, with the point hull, of 24 units ahead of the player at the given height. */
  function LedgeTrace(env: Env, s: Mover, height: real): Trace {
    var start := Add(s.origin, Up(height));
    env.engine.playerTrace(POINT, start, Add(start, Scale(24.0, Normalize(env.engine, Flat(s.view.forward)))))
  }

  function CheckWaterJump(env: Env, s: Mover): Mover {
    if s.waterjumptime != 0.0 || s.velocity.z < -180.0 || BackingUp(env, s) then s
    else
      var wall := LedgeTrace(env, s, 8.0);
      if !(wall.fraction < 1.0 && -0.1 < wall.normal.z < 0.1) then s
      else
        var s1 := s.(movedir := Scale(-50.0, wall.normal));
        if LedgeTrace(env, s, HullMaxs(s.stance.usehull).z).fraction != 1.0 then s1
        else s1.(waterjumptime := 2000.0, velocity := WithZ(s.velocity, 225.0), keys := s.keys.(oldJump := true))
  }

  // ----- moving on the ground, in the air and in water -----

  /** The view brought into the horizontal plane. */
  function FlattenView(env: Env, w: View): View {
    View(Normalize(env.engine, Flat(w.forward)), Normalize(env.engine, Flat(w.right)), w.up)
  }

  /** The velocity the keys ask for, in the horizontal plane. */
  function WishVelocity(w: View, k: Keys): Vec {
    Vec(w.forward.x * k.forwardmove + w.right.x * k.sidemove, w.forward.y * k.forwardmove + w.right.y * k.sidemove, 0.0)
  }

  function AddBase(s: Mover): Mover { s.(velocity := Add(s.velocity, s.basevelocity)) }

  function RemoveBase(s: Mover): Mover { s.(velocity := Sub(s.velocity, s.basevelocity)) }

  function AirMove(env: Env, s: Mover): Mover {
    var v := s.(view := FlattenView(env, s.view));
    var wish := WishVelocity(v.view, s.keys);
    var wishspeed := Min(Length(env.engine, wish), env.maxspeed);
    FlyMove(env, AddBase(AirAccelerate(env, v, Normalize(env.engine, wish), wishspeed, env.vars.airaccelerate)))
  }

  function FlatDistanceSquared(a: Vec, b: Vec): real { Square(Flat(Sub(a, b))) }

  function TakePosition(s: Mover, from: Mover): Mover { s.(origin := from.origin, velocity := from.velocity) }

  /** The move up a step: lift, slide, press down. */
  function Lifted(env: Env, s: Mover): Mover {
    var t := Tracing(env, s, s.origin, Add(s.origin, Up(env.vars.stepsize)));
    FlyMove(env, if Open(t) then s.(origin := t.endpos) else s)
  }

  /** Slide on the level and up a step, and take the move that goes farther. */
  function StepMove(env: Env, s: Mover): Mover {
    var down := FlyMove(env, s);
    var lifted := Lifted(env, TakePosition(down, s));
    var t := Tracing(env, lifted, lifted.origin, Sub(lifted.origin, Up(env.vars.stepsize)));
    if t.normal.z < 0.7 then TakePosition(lifted, down)
    else
      var p := if Open(t) then t.endpos else lifted.origin;
      var stepped := lifted.(origin := p, view := lifted.view.(up := p));
      if FlatDistanceSquared(down.origin, s.origin) > FlatDistanceSquared(p, s.origin)
      then TakePosition(stepped, down)
      else stepped.(velocity := WithZ(stepped.velocity, down.velocity.z))
  }

  function WalkAccelerate(env: Env, s: Mover): Mover {
    var v := s.(view := FlattenView(env, s.view));
    var wish := WishVelocity(v.view, s.keys);
    var wishspeed := Min(Length(env.engine, wish), env.maxspeed);
    var a := Accelerate(env, v.(velocity := Flat(v.velocity)), Normalize(env.engine, wish), wishspeed, env.vars.accelerate);
    AddBase(a.(velocity := Flat(a.velocity)))
  }

  function WalkMove(env: Env, s: Mover): Mover {
    var a := WalkAccelerate(env, s);
    if Length(env.engine, a.velocity) < 1.0 then a.(velocity := ORIGIN)
    else
      var t := Tracing(env, a, a.origin, Add(a.origin, Scale(env.frametime, Flat(a.velocity))));
      if t.fraction == 1.0 then a.(origin := t.endpos)
      else if a.onground == -1 && a.waterlevel == 0 then a
      else if a.waterjumptime != 0.0 then a
      else StepMove(env, a)
  }

  /** The velocity the keys ask for in water; with no keys down the player sinks. */
  function SwimVelocity(w: View, k: Keys): Vec {
    var keys := Add(Scale(k.forwardmove, w.forward), Scale(k.sidemove, w.right));
    Add(keys, Up(if k.forwardmove == 0.0 && k.sidemove == 0.0 && k.upmove == 0.0 then -60.0 else k.upmove))
  }

  function WaterSpeed(env: Env, speed: real): real {
    speed - env.frametime * speed * env.vars.friction * env.friction
  }

  /** Water friction: the velocity, and the speed it is left with. */
  function WaterDrag(env: Env, v: Vec): (Vec, real) {
    var speed := Length(env.engine, v);
    if speed == 0.0 then (v, 0.0)
    else
      var newspeed := if WaterSpeed(env, speed) < 0.0 then 0.0 else WaterSpeed(env, speed);
      (Scale(newspeed / speed, v), newspeed)
  }

  /** Press down from above the place the velocity leads to, or else slide. */
  function PressDown(env: Env, s: Mover): Mover {
    var dest := Add(s.origin, Scale(env.frametime, s.velocity));
    var t := Tracing(env, s, Add(dest, Up(env.vars.stepsize + 1.0)), dest);
    if Open(t) then s.(origin := t.endpos) else FlyMove(env, s)
  }

  /** The velocity after water friction and acceleration, and whether the keys ask for enough to move. */
  function WaterVelocity(env: Env, w: View, k: Keys, v0: Vec, base: Vec): (Vec, bool) {
    var wish0 := SwimVelocity(w, k);
    var wishlength := Length(env.engine, wish0);
    var capped := wishlength > env.maxspeed && wishlength != 0.0;
    var wish := if capped then Scale(env.maxspeed / wishlength, wish0) else wish0;
    var wishspeed := (if capped then env.maxspeed else wishlength) * 0.8;
    var (v, newspeed) := WaterDrag(env, Add(v0, base));
    var addspeed := wishspeed - newspeed;
    var push := Min(AccelPush(env, wishspeed, env.vars.accelerate), addspeed);
    if wishspeed < 0.1 then (v, false)
    else (if addspeed > 0.0 then Add(v, Scale(push, Normalize(env.engine, wish))) else v, true)
  }

  function WaterMove(env: Env, s: Mover): Mover {
    var (v, moving) := WaterVelocity(env, s.view, s.keys, s.velocity, s.basevelocity);
    var a := s.(velocity := v);
    if moving then PressDown(env, a) else a
  }

  // ----- the frame -----

  predicate InWater(s: Mover) { s.waterlevel > 1 }

  function StartFrame(env: Env, s: Mover): Mover {
    var c := env.cmd;
    ReduceTimers(env, s.(touch := [], view := View(c.forward, c.right, c.up),
                         keys := Keys(s.keys.oldDuck, s.keys.oldJump, c.forwardmove, c.sidemove, c.upmove)))
  }

  function SlowOnUse(env: Env, s: Mover): Mover {
    if s.onground != -1 && env.cmd.use && env.slowOnUse then s.(velocity := Scale(0.3, s.velocity)) else s
  }

  /** What the jump key finds in deep water: a water jump may have begun, or have been stopped by falling. */
  function Swimming(env: Env, s: Mover): Mover {
    var j := if s.waterlevel == 2 then CheckWaterJump(env, s) else s;
    if j.velocity.z < 0.0 && j.waterjumptime != 0.0 then j.(waterjumptime := 0.0) else j
  }

  function Swim(env: Env, s: Mover): Mover {
    CatagorizePosition(env, RemoveBase(WaterMove(env, JumpButton(env, Swimming(env, s)))))
  }

  /** On the ground vertical velocity is dropped and friction applies. */
  function GroundDrag(env: Env, s: Mover): Mover {
    if s.onground != -1 then Friction(env, s.(velocity := Flat(s.velocity))) else s
  }

  /** The second half of gravity, and no vertical velocity on the ground. */
  function EndStep(env: Env, s: Mover): Mover {
    var f := if InWater(s) then s else FixupGravityVelocity(env, s);
    if f.onground != -1 then f.(velocity := Flat(f.velocity)) else f
  }

  function Step(env: Env, s: Mover): Mover {
    var g := CheckVelocity(env, GroundDrag(env, JumpButton(env, s)));
    var m := if g.onground != -1 then WalkMove(env, g) else AirMove(env, g);
    EndStep(env, CheckVelocity(env, RemoveBase(CatagorizePosition(env, m))))
  }

  function Walk(env: Env, s: Mover): Mover {
    var g := if InWater(s) then s else AddCorrectGravity(env, s);
    if g.waterjumptime != 0.0 then CheckWater(env, FlyMove(env, WaterJump(env, g)))
    else if g.waterlevel >= 2 then Swim(env, g)
    else Step(env, g)
  }

  /** The player when timers, ground and ducking are dealt with. */
  function Prepared(env: Env, s: Mover): Mover { Duck(env, CatagorizePosition(env, StartFrame(env, s))) }

  /** The player when a frame comes to move: +use is dealt with too. */
  function Ready(env: Env, s: Mover): Mover { SlowOnUse(env, Prepared(env, s)) }

  /** A frame of a walking player who is not stuck, not a spectator and not on a ladder. */
  function PlayerMove(env: Env, s: Mover): Mover { Walk(env, Ready(env, s)) }
}
