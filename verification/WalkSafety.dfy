/** What every frame of a walking player keeps, and so what holds over every run of frames: the ducking
    flags agree with the hull, the hull is clear of solids, the touch list holds distinct entities. */
module WalkSafety {
  import opened Vectors
  import opened Engine
  import opened Player
  import opened SlideMove
  import opened SlideBounds
  import opened Movement

  // ----- the ducking state machine -----

  /** The ducked hull is in use exactly when the ducking flag is set, the player is never both on the way
      down and already down, and the duck timer stays in 0..1000. */
  predicate StanceOk(t: Stance) {
    && (t.usehull == STANDING || t.usehull == DUCKED)
    && (t.usehull == DUCKED <==> t.ducking)
    && !(t.inDuck && t.ducking)
    && 0.0 <= t.duckTime <= 1000.0
  }

  predicate DuckOk(s: Mover) { StanceOk(s.stance) }

  predicate SameDuck(s: Mover, s': Mover) { s'.stance == s.stance }

  /** Also the place and the touch list are the same. */
  predicate SameBody(s: Mover, s': Mover) {
    SameDuck(s, s') && s'.origin == s.origin && s'.touch == s.touch
  }

  /** A step of the frame: it leaves the ducking state alone; and where the engine keeps its contract, a
      hull clear of solids stays clear and the touch list keeps its entities distinct. */
  ghost predicate Moves(e: Callbacks, s: Mover, s': Mover) {
    && SameDuck(s, s')
    && (Sound(e) ==> Safe(e, s.stance.usehull, s.origin, s.touch, s'.origin, s'.touch))
  }

  lemma CheckWaterMoves(env: Env, s: Mover)
    ensures SameBody(s, CheckWater(env, s)) && Moves(env.engine, s, CheckWater(env, s))
    ensures CheckWater(env, s).velocity == s.velocity
  {
    hide ProbeWater, Clear, TouchOk, Sound;
  }

  lemma GroundedMoves(e: Callbacks, s: Mover, down: Vec)
    ensures Moves(e, s, Grounded(s, e.playerTrace(s.stance.usehull, s.origin, down)))
  {
    hide AddToTouched, Clear, TouchOk, TestSound, NestedBoxClear, SqrtSound;
    var t := e.playerTrace(s.stance.usehull, s.origin, down);
    if Sound(e) {
      assert TraceSound(e, s.stance.usehull, s.origin, down);
      if TouchOk(e.numphysent, s.touch) && t.ent > 0 {
        AddKeepsTouchOk(e.numphysent, s.touch, t, s.velocity);
      }
    }
  }

  lemma CatagorizeMoves(env: Env, s: Mover)
    ensures Moves(env.engine, s, CatagorizePosition(env, s))
  {
    hide CheckWater, Grounded, Clear, TouchOk, Sound;
    var w := CheckWater(env, s);
    CheckWaterMoves(env, s);
    GroundedMoves(env.engine, w, Sub(w.origin, Up(2.0)));
  }

  lemma FlyMoveMoves(env: Env, s: Mover)
    ensures Moves(env.engine, s, FlyMove(env, s))
  {
    hide WholeSlide, Sound, Clear, TouchOk;
    if Sound(env.engine) {
      FlyMoveSafe(env, s);
    }
  }

  // ----- ducking and standing up -----

  /** Standing up asks the engine the same question twice with the standing hull; it never ends in the
      ducked hull with the flag clear, because the engine gives the same answer both times. */
  lemma UnDuckKeepsDuckOk(env: Env, s: Mover)
    requires DuckOk(s)
    ensures DuckOk(UnDuck(env, s))
  {
    hide CatagorizePosition;
    forall s': Mover ensures SameDuck(s', CatagorizePosition(env, s')) {
      CatagorizeMoves(env, s');
    }
  }

  lemma FinishDuckKeepsDuckOk(env: Env, s: Mover)
    requires DuckOk(s)
    ensures DuckOk(FinishDuck(env, s))
  {
    hide CatagorizePosition, Unstuck;
    forall s': Mover ensures SameDuck(s', CatagorizePosition(env, s')) {
      CatagorizeMoves(env, s');
    }
  }

  /** The player who has just ducked on the ground, before being checked for being stuck. */
  function LowPlayer(s: Mover): Mover {
    s.(stance := Down(s.stance), origin := Sub(s.origin, HullShift()))
  }

  /** For any engine whatever, the duck key keeps the ducking state consistent. */
  lemma DuckKeepsDuckOk(env: Env, s: Mover)
    requires DuckOk(s)
    ensures DuckOk(Duck(env, s))
  {
    hide UnDuck, FinishDuck, DuckingView;
    forall s': Mover | DuckOk(s') ensures DuckOk(UnDuck(env, s')) && DuckOk(FinishDuck(env, s')) {
      UnDuckKeepsDuckOk(env, s');
      FinishDuckKeepsDuckOk(env, s');
    }
  }

  predicate InTheOpen(e: Callbacks, s: Mover) { DuckOk(s) && Clear(e, s.stance.usehull, s.origin) }

  /** What every frame keeps; the touch list, which a frame starts afresh, it also establishes. */
  ghost predicate Good(e: Callbacks, s: Mover) { InTheOpen(e, s) && TouchOk(e.numphysent, s.touch) }

  /** Ducking on the ground puts the ducked hull inside the place of the standing hull, so the player is
      not stuck and the search for a free place leaves the player where it was put. */
  lemma CrouchNeverStuck(env: Env, s: Mover)
    requires Sound(env.engine) && Clear(env.engine, STANDING, s.origin)
    ensures Clear(env.engine, DUCKED, s.origin)
    ensures Clear(env.engine, DUCKED, LowPlayer(s).origin)
    ensures FixPlayerCrouchStuck(env, LowPlayer(s), 1.0) == LowPlayer(s)
  {
    hide SqrtSound, TraceSound;
    var e := env.engine;
    var p := LowPlayer(s).origin;
    assert NestedBoxClear(e, Add(s.origin, HullMins(STANDING)), Add(s.origin, HullMaxs(STANDING)),
                          Add(s.origin, HullMins(DUCKED)), Add(s.origin, HullMaxs(DUCKED)));
    assert NestedBoxClear(e, Add(s.origin, HullMins(STANDING)), Add(s.origin, HullMaxs(STANDING)),
                          Add(p, HullMins(DUCKED)), Add(p, HullMaxs(DUCKED)));
    assert TestSound(e, DUCKED, p);
  }

  lemma FinishDuckGood(env: Env, s: Mover)
    requires Sound(env.engine) && Good(env.engine, s) && s.stance.usehull == STANDING
    ensures Good(env.engine, FinishDuck(env, s))
  {
    hide CatagorizePosition, FixPlayerCrouchStuck, Clear, TouchOk, Sound, HullShift;
    CrouchNeverStuck(env, s);
    CatagorizeMoves(env, LowPlayer(s));
  }

  lemma UnDuckGood(env: Env, s: Mover)
    requires Sound(env.engine) && Good(env.engine, s)
    ensures Good(env.engine, UnDuck(env, s))
  {
    hide CatagorizePosition, Clear, TouchOk, HullShift, TestSound, NestedBoxClear, SqrtSound;
    var p := if s.onground != -1 then Add(s.origin, HullShift()) else s.origin;
    assert TraceSound(env.engine, STANDING, p, p);
    forall s': Mover ensures Moves(env.engine, s', CatagorizePosition(env, s')) {
      CatagorizeMoves(env, s');
    }
  }

  lemma DuckGood(env: Env, s: Mover)
    requires Sound(env.engine) && Good(env.engine, s)
    ensures Good(env.engine, Duck(env, s))
  {
    hide UnDuck, FinishDuck, DuckingView, Clear, TouchOk, Sound;
    forall s': Mover | Good(env.engine, s')
      ensures Good(env.engine, UnDuck(env, s'))
      ensures s'.stance.usehull == STANDING ==> Good(env.engine, FinishDuck(env, s'))
    {
      UnDuckGood(env, s');
      if s'.stance.usehull == STANDING {
        FinishDuckGood(env, s');
      }
    }
  }

  // ----- the rest of the frame -----

  lemma GravityStays(env: Env, s: Mover)
    ensures SameBody(s, AddCorrectGravity(env, s))
    ensures SameBody(s, FixupGravityVelocity(env, s))
    ensures SameBody(s, CheckVelocity(env, s))
  {
    hide FirstHalf, SecondHalf, Clamped;
  }

  lemma JumpStays(env: Env, s: Mover)
    ensures SameBody(s, JumpButton(env, s))
  {
    hide PreventMegaBunnyJumping, JumpVelocity, SecondHalf;
  }

  lemma WaterJumpStays(env: Env, s: Mover)
    ensures SameBody(s, WaterJump(env, s))
    ensures SameBody(s, CheckWaterJump(env, s))
  {
    hide LedgeTrace, BackingUp, Scale;
  }

  lemma DragStays(env: Env, s: Mover)
    ensures SameBody(s, GroundDrag(env, s))
  {
    hide Length, GroundFriction, Drop, Slowed;
  }

  lemma AirMoveMoves(env: Env, s: Mover)
    ensures Moves(env.engine, s, AirMove(env, s))
  {
    hide FlyMove, Pushed, FlattenView, Normalize, Length, WishVelocity, Add, Clear, TouchOk, Sound;
    var v := s.(view := FlattenView(env, s.view));
    var wish := WishVelocity(v.view, s.keys);
    var wishspeed := Min(Length(env.engine, wish), env.maxspeed);
    FlyMoveMoves(env, AddBase(AirAccelerate(env, v, Normalize(env.engine, wish), wishspeed, env.vars.airaccelerate)));
  }

  lemma WalkAccelerateStays(env: Env, s: Mover)
    ensures SameBody(s, WalkAccelerate(env, s))
  {
    hide Pushed, FlattenView, Normalize, Length, WishVelocity, Add;
  }

  /** Going to the end of a trace that starts at the player's place. */
  lemma TraceMoves(e: Callbacks, s: Mover, s': Mover, b: Vec)
    requires SameDuck(s, s') && s'.touch == s.touch && s'.origin == e.playerTrace(s.stance.usehull, s.origin, b).endpos
    ensures Moves(e, s, s')
  {
    hide Clear, TouchOk, TestSound, NestedBoxClear, SqrtSound;
    if Sound(e) {
      assert TraceSound(e, s.stance.usehull, s.origin, b);
    }
  }

  lemma LiftedMoves(env: Env, s: Mover)
    ensures Moves(env.engine, s, Lifted(env, s))
  {
    hide FlyMove, Clear, TouchOk, Sound;
    var b := Add(s.origin, Up(env.vars.stepsize));
    var t := Tracing(env, s, s.origin, b);
    if Open(t) {
      TraceMoves(env.engine, s, s.(origin := t.endpos), b);
      FlyMoveMoves(env, s.(origin := t.endpos));
    } else {
      FlyMoveMoves(env, s);
    }
  }

  lemma StepMoveMoves(env: Env, s: Mover)
    ensures Moves(env.engine, s, StepMove(env, s))
  {
    hide FlyMove, Lifted, FlatDistanceSquared, Clear, TouchOk, Sound;
    var down := FlyMove(env, s);
    FlyMoveMoves(env, s);
    var lifted := Lifted(env, TakePosition(down, s));
    LiftedMoves(env, TakePosition(down, s));
    var b := Sub(lifted.origin, Up(env.vars.stepsize));
    var t := Tracing(env, lifted, lifted.origin, b);
    TraceMoves(env.engine, lifted, lifted.(origin := t.endpos, view := lifted.view.(up := t.endpos)), b);
  }

  lemma WalkMoveMoves(env: Env, s: Mover)
    ensures Moves(env.engine, s, WalkMove(env, s))
  {
    hide WalkAccelerate, StepMove, Length, Scale, Clear, TouchOk, Sound;
    var a := WalkAccelerate(env, s);
    WalkAccelerateStays(env, s);
    var b := Add(a.origin, Scale(env.frametime, Flat(a.velocity)));
    TraceMoves(env.engine, a, a.(origin := Tracing(env, a, a.origin, b).endpos), b);
    StepMoveMoves(env, a);
  }

  /** The downward trace of a water move starts away from the player, so its end is only taken when the
      trace itself says that it started and stayed in the open. */
  lemma PressDownMoves(env: Env, s: Mover)
    ensures Moves(env.engine, s, PressDown(env, s))
  {
    hide FlyMove, Scale, Clear, TouchOk, TestSound, NestedBoxClear, SqrtSound;
    var dest := Add(s.origin, Scale(env.frametime, s.velocity));
    if Sound(env.engine) {
      assert TraceSound(env.engine, s.stance.usehull, Add(dest, Up(env.vars.stepsize + 1.0)), dest);
    }
    FlyMoveMoves(env, s);
  }

  lemma WaterMoveMoves(env: Env, s: Mover)
    ensures Moves(env.engine, s, WaterMove(env, s))
  {
    hide PressDown, WaterVelocity, Clear, TouchOk, Sound;
    PressDownMoves(env, s.(velocity := WaterVelocity(env, s.view, s.keys, s.velocity, s.basevelocity).0));
  }

  lemma SwimMoves(env: Env, s: Mover)
    ensures Moves(env.engine, s, Swim(env, s))
  {
    hide CheckWaterJump, JumpButton, WaterMove, CatagorizePosition, RemoveBase, Clear, TouchOk, Sound;
    var j := if s.waterlevel == 2 then CheckWaterJump(env, s) else s;
    WaterJumpStays(env, s);
    var k := if j.velocity.z < 0.0 && j.waterjumptime != 0.0 then j.(waterjumptime := 0.0) else j;
    JumpStays(env, k);
    WaterMoveMoves(env, JumpButton(env, k));
    BaseStays(WaterMove(env, JumpButton(env, k)));
    CatagorizeMoves(env, RemoveBase(WaterMove(env, JumpButton(env, k))));
  }

  lemma BaseStays(s: Mover)
    ensures SameBody(s, RemoveBase(s))
  {}

  lemma EndStepStays(env: Env, s: Mover)
    ensures SameBody(s, EndStep(env, s))
  {
    hide FixupGravityVelocity;
    GravityStays(env, s);
  }

  lemma StepMoves(env: Env, s: Mover)
    ensures Moves(env.engine, s, Step(env, s))
  {
    hide JumpButton, GroundDrag, CheckVelocity, WalkMove, AirMove, CatagorizePosition, RemoveBase, EndStep;
    hide Clear, TouchOk, Sound;
    var d := GroundDrag(env, JumpButton(env, s));
    var g := CheckVelocity(env, d);
    JumpStays(env, s);
    DragStays(env, JumpButton(env, s));
    GravityStays(env, d);
    WalkMoveMoves(env, g);
    AirMoveMoves(env, g);
    var m := CatagorizePosition(env, if g.onground != -1 then WalkMove(env, g) else AirMove(env, g));
    CatagorizeMoves(env, if g.onground != -1 then WalkMove(env, g) else AirMove(env, g));
    BaseStays(m);
    GravityStays(env, RemoveBase(m));
    EndStepStays(env, CheckVelocity(env, RemoveBase(m)));
  }

  lemma WalkMoves(env: Env, s: Mover)
    ensures Moves(env.engine, s, Walk(env, s))
  {
    hide AddCorrectGravity, WaterJump, CheckWater, FlyMove, Swim, Step, Clear, TouchOk, Sound;
    var g := if InWater(s) then s else AddCorrectGravity(env, s);
    GravityStays(env, s);
    WaterJumpStays(env, g);
    FlyMoveMoves(env, WaterJump(env, g));
    CheckWaterMoves(env, FlyMove(env, WaterJump(env, g)));
    SwimMoves(env, g);
    StepMoves(env, g);
  }

  // ----- whole frames and whole runs -----

  lemma StartFrameKeeps(env: Env, s: Mover)
    ensures DuckOk(s) ==> DuckOk(StartFrame(env, s))
    ensures InTheOpen(env.engine, s) ==> Good(env.engine, StartFrame(env, s))
  {
    hide Clear;
  }

  lemma SlowOnUseStays(env: Env, s: Mover)
    ensures SameBody(s, SlowOnUse(env, s))
  {
    hide Scale;
  }

  /** Whatever the engine answers, a frame keeps the ducking state consistent. */
  lemma FrameKeepsDuckOk(env: Env, s: Mover)
    requires DuckOk(s)
    ensures DuckOk(PlayerMove(env, s))
  {
    hide StartFrame, CatagorizePosition, Duck, SlowOnUse, Walk, Safe, Sound;
    var c := CatagorizePosition(env, StartFrame(env, s));
    StartFrameKeeps(env, s);
    CatagorizeMoves(env, StartFrame(env, s));
    DuckKeepsDuckOk(env, c);
    SlowOnUseStays(env, Duck(env, c));
    WalkMoves(env, SlowOnUse(env, Duck(env, c)));
  }

  /** Where the engine keeps its contract, a frame starts and ends with the hull clear of solids. */
  lemma FrameKeepsGood(env: Env, s: Mover)
    requires Sound(env.engine) && InTheOpen(env.engine, s)
    ensures Good(env.engine, PlayerMove(env, s))
  {
    hide StartFrame, CatagorizePosition, Duck, SlowOnUse, Walk, Clear, TouchOk, Sound;
    var c := CatagorizePosition(env, StartFrame(env, s));
    StartFrameKeeps(env, s);
    CatagorizeMoves(env, StartFrame(env, s));
    DuckGood(env, c);
    SlowOnUseStays(env, Duck(env, c));
    WalkMoves(env, SlowOnUse(env, Duck(env, c)));
  }

  /** The player after a run of frames. */
  function Run(envs: seq<Env>, s: Mover): Mover {
    if envs == [] then s else PlayerMove(envs[|envs| - 1], Run(envs[..|envs| - 1], s))
  }

  /** Over every run, with any engine answers and any commands, the ducking state stays consistent. */
  lemma {:induction false} RunKeepsDuckOk(envs: seq<Env>, s: Mover)
    requires DuckOk(s)
    ensures DuckOk(Run(envs, s))
  {
    hide PlayerMove, DuckOk;
    if envs != [] {
      RunKeepsDuckOk(envs[..|envs| - 1], s);
      FrameKeepsDuckOk(envs[|envs| - 1], Run(envs[..|envs| - 1], s));
    }
  }

  /** Over every run in one world, a player who starts clear of solids is clear of solids after every
      frame, so that the engine's position test, with which the next frame starts, never finds the
      player stuck. */
  lemma {:induction false} RunStaysClear(e: Callbacks, envs: seq<Env>, s: Mover)
    requires Sound(e) && Good(e, s)
    requires forall i :: 0 <= i < |envs| ==> envs[i].engine == e
    ensures Good(e, Run(envs, s))
    ensures e.testPlayerPosition(Run(envs, s).stance.usehull, Run(envs, s).origin) == -1
  {
    hide PlayerMove, DuckOk, TouchOk, NestedBoxClear, TraceSound, SqrtSound;
    if envs != [] {
      RunStaysClear(e, envs[..|envs| - 1], s);
      FrameKeepsGood(envs[|envs| - 1], Run(envs[..|envs| - 1], s));
    }
    assert TestSound(e, Run(envs, s).stance.usehull, Run(envs, s).origin);
  }
}
