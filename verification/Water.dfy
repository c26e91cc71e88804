/** How deep in the water a player is, and how hard a current pushes. */
module Water {
  import opened Vectors
  import opened Engine
  import opened Player
  import opened SlideMove
  import opened Movement

  predicate Flows(contents: int) { CONTENTS_CURRENT_DOWN <= contents <= CONTENTS_CURRENT_0 }

  /** Under water: in water, slime, lava or a current, or the like. */
  predicate Wet(env: Env, p: Vec) { -14 <= env.engine.pointContents(p) <= -3 }

  /** The level says how many of feet, middle and eyes are under water, from the feet up; in a current the
      push is 50 for each. */
  lemma WaterLevels(env: Env, hull: int, origin: Vec, viewZ: real)
    ensures var w := ProbeWater(env, hull, origin, viewZ);
            var feet := Wet(env, Feet(hull, origin));
            var middle := Wet(env, Middle(hull, origin));
            var eyes := Wet(env, Eyes(hull, origin, viewZ));
            && 0 <= w.level <= 3
            && (1 <= w.level <==> feet) && (2 <= w.level <==> feet && middle) && (3 <= w.level <==> feet && middle && eyes)
            && (if feet && Flows(env.engine.truePointContents(Feet(hull, origin)))
                then Square(w.push) == 2500.0 * (w.level * w.level) as real else w.push == ORIGIN)
  {
    hide Feet, Middle, Eyes, Square;
    var w := ProbeWater(env, hull, origin, viewZ);
    var flow := env.engine.truePointContents(Feet(hull, origin));
    if w.level > 0 && Flows(flow) {
      PushSquare(w.level, CONTENTS_CURRENT_0 - flow);
    }
  }

  lemma PushSquare(level: int, k: int)
    requires 1 <= level <= 3 && 0 <= k <= 5
    ensures Square(Scale(50.0 * level as real, Current(k))) == 2500.0 * (level * level) as real
  {
    hide Square, Scale;
    CurrentUnit(k);
    SquareScale(50.0 * level as real, Current(k));
    assert level == 1 || level == 2 || level == 3;
  }

  lemma CurrentUnit(k: int)
    requires 0 <= k <= 5
    ensures Square(Current(k)) == 1.0
  {}

  /** Under a level surface the water reaches a player by height: to the feet a unit above the bottom of the
      hull, to the middle at the origin, to the eyes at the view height. */
  lemma SurfaceLevel(env: Env, hull: int, origin: Vec, viewZ: real, surface: real)
    requires hull == STANDING || hull == DUCKED
    requires forall p :: Wet(env, p) <==> p.z < surface
    ensures var level := ProbeWater(env, hull, origin, viewZ).level;
            var depth := surface - origin.z;
            && (1 <= level <==> HullMins(hull).z + 1.0 < depth)
            && (2 <= level <==> HullMins(hull).z + 1.0 < depth && 0.0 < depth)
            && (3 <= level <==> HullMins(hull).z + 1.0 < depth && 0.0 < depth && viewZ < depth)
  {
    hide CurrentPush;
    assert forall p :: Submerged(env, p) <==> Wet(env, p);
  }

  /** Every frame leaves the level in 0..3. */
  lemma FrameWaterLevel(env: Env, s: Mover)
    ensures 0 <= PlayerMove(env, s).waterlevel <= 3
  {
    hide StartFrame, Duck, SlowOnUse, AddCorrectGravity, CatagorizePosition, CheckWater, FlyMove, WaterJump;
    hide CheckWaterJump, JumpButton, WaterMove, GroundDrag, CheckVelocity, WalkMove, AirMove, Sub, SecondHalf;
    forall s': Mover
      ensures 0 <= CheckWater(env, s').waterlevel <= 3 && 0 <= CatagorizePosition(env, s').waterlevel <= 3
    {
      CheckedLevel(env, s');
    }
    forall s': Mover ensures CheckVelocity(env, s').waterlevel == s'.waterlevel {
      ClampKeepsLevel(env, s');
    }
  }

  lemma CheckedLevel(env: Env, s: Mover)
    ensures 0 <= CheckWater(env, s).waterlevel <= 3 && 0 <= CatagorizePosition(env, s).waterlevel <= 3
  {
    hide ProbeWater, AddToTouched, Add;
    WaterLevels(env, s.stance.usehull, s.origin, s.stance.viewZ);
  }

  lemma ClampKeepsLevel(env: Env, s: Mover)
    ensures CheckVelocity(env, s).waterlevel == s.waterlevel
  {
    hide Clamped;
  }
}
