/** What the player record remembers from frame to frame: that the jump key was down, and the water jump under
    way with its direction and its timer. */
module FrameMemory {
  import opened Vectors
  import opened Engine
  import opened Player
  import opened SlideMove
  import opened SlideBounds
  import opened Movement
  import opened WalkSafety
  import opened Jumping
  import opened Water

  // ----- the parts of a frame that only pass memory on -----

  /** The jump key and the direction of a water jump are remembered as they are; its timer is, or is
      stopped. */
  predicate Carries(s: Mover, s': Mover) {
    && s'.keys.oldJump == s.keys.oldJump && s'.movedir == s.movedir
    && (s'.waterjumptime == s.waterjumptime || s'.waterjumptime == 0.0)
  }

  lemma CatagorizeCarries(env: Env, s: Mover)
    ensures Carries(s, CatagorizePosition(env, s)) && CatagorizePosition(env, s).keys == s.keys
  {
    hide ProbeWater, AddToTouched;
  }

  lemma FlyMoveCarries(env: Env, s: Mover)
    ensures Carries(s, FlyMove(env, s))
  {
    hide WholeSlide;
  }

  lemma UnDuckCarries(env: Env, s: Mover)
    ensures Carries(s, UnDuck(env, s)) && UnDuck(env, s).keys == s.keys
  {
    hide CatagorizePosition;
    forall s': Mover ensures Carries(s', CatagorizePosition(env, s')) && CatagorizePosition(env, s').keys == s'.keys {
      CatagorizeCarries(env, s');
    }
  }

  lemma FinishDuckCarries(env: Env, s: Mover)
    ensures Carries(s, FinishDuck(env, s)) && FinishDuck(env, s).keys == s.keys
  {
    hide CatagorizePosition, Unstuck;
    forall s': Mover ensures Carries(s', CatagorizePosition(env, s')) && CatagorizePosition(env, s').keys == s'.keys {
      CatagorizeCarries(env, s');
    }
  }

  lemma DuckCarries(env: Env, s: Mover)
    ensures Carries(s, Duck(env, s))
  {
    hide UnDuck, FinishDuck, DuckingView;
    forall s': Mover ensures Carries(s', UnDuck(env, s')) && Carries(s', FinishDuck(env, s')) {
      UnDuckCarries(env, s');
      FinishDuckCarries(env, s');
    }
  }

  lemma ReadyCarries(env: Env, s: Mover)
    ensures Carries(s, Ready(env, s))
  {
    hide CatagorizePosition, Duck, Scale;
    var s1 := StartFrame(env, s);
    CatagorizeCarries(env, s1);
    DuckCarries(env, CatagorizePosition(env, s1));
  }

  /** What the keys ask for counts a third while ducked. */
  function DuckedFactor(env: Env, t: Stance): real {
    if t.ducking && !env.noDuck && !env.dead then PLAYER_DUCKING_MULTIPLIER else 1.0
  }

  /** The same buttons held before, and `k` times the speeds asked for. */
  predicate Counts(k: real, asked: Keys, counted: Keys) {
    && counted.forwardmove == k * asked.forwardmove && counted.sidemove == k * asked.sidemove
    && counted.upmove == k * asked.upmove
  }

  lemma HoldDuckKeys(env: Env, s: Mover, pressed: bool)
    ensures HoldDuck(env, s, pressed).keys == s.keys
  {
    hide FinishDuck, DuckingView;
    forall s': Mover ensures FinishDuck(env, s').keys == s'.keys {
      FinishDuckCarries(env, s');
    }
  }

  lemma DuckKeys(env: Env, s: Mover)
    ensures Counts(DuckedFactor(env, s.stance), s.keys, Duck(env, s).keys)
  {
    hide UnDuck, HoldDuck;
    forall s': Mover ensures UnDuck(env, s').keys == s'.keys {
      UnDuckCarries(env, s');
    }
    forall s': Mover, pressed ensures HoldDuck(env, s', pressed).keys == s'.keys {
      HoldDuckKeys(env, s', pressed);
    }
  }

  /** However long the player stays ducked, the keys of a frame count a third of what the command asks for,
      in every direction, and never a third of a third. */
  lemma DuckedWish(env: Env, s: Mover, w: View)
    ensures var asked := Keys(s.keys.oldDuck, s.keys.oldJump, env.cmd.forwardmove, env.cmd.sidemove, env.cmd.upmove);
            var counted := Ready(env, s).keys;
            var factor := DuckedFactor(env, s.stance);
            Counts(factor, asked, counted) && WishVelocity(w, counted) == Scale(factor, WishVelocity(w, asked))
  {
    hide CatagorizePosition, Duck, Counts, WishVelocity, Scale;
    var s1 := StartFrame(env, s);
    CatagorizeCarries(env, s1);
    CatagorizeMoves(env, s1);
    DuckKeys(env, CatagorizePosition(env, s1));
    WishScales(DuckedFactor(env, s.stance), w, s1.keys, Ready(env, s).keys);
  }

  lemma WishScales(k: real, w: View, asked: Keys, counted: Keys)
    requires Counts(k, asked, counted)
    ensures WishVelocity(w, counted) == Scale(k, WishVelocity(w, asked))
  {
    var f, s := asked.forwardmove, asked.sidemove;
    assert w.forward.x * (k * f) == k * (w.forward.x * f) && w.right.x * (k * s) == k * (w.right.x * s);
    assert w.forward.y * (k * f) == k * (w.forward.y * f) && w.right.y * (k * s) == k * (w.right.y * s);
  }

  lemma WaterMoveCarries(env: Env, s: Mover)
    ensures Carries(s, WaterMove(env, s))
  {
    hide WaterVelocity, FlyMove, Add, Scale;
    FlyMoveCarries(env, s.(velocity := WaterVelocity(env, s.view, s.keys, s.velocity, s.basevelocity).0));
  }

  lemma AirMoveCarries(env: Env, s: Mover)
    ensures Carries(s, AirMove(env, s))
  {
    hide FlattenView, WishVelocity, Normalize, Length, Pushed, FlyMove, Add;
    forall s': Mover ensures Carries(s', FlyMove(env, s')) {
      FlyMoveCarries(env, s');
    }
  }

  lemma WalkMoveCarries(env: Env, s: Mover)
    ensures Carries(s, WalkMove(env, s))
  {
    hide FlattenView, WishVelocity, Normalize, Length, Pushed, FlyMove, FlatDistanceSquared, Add, Sub, Scale;
    forall s': Mover ensures Carries(s', FlyMove(env, s')) {
      FlyMoveCarries(env, s');
    }
  }

  lemma DragCarries(env: Env, s: Mover)
    ensures Carries(s, CheckVelocity(env, GroundDrag(env, s)))
  {
    hide Length, GroundFriction, Drop, Slowed, Clamped;
  }

  lemma EndCarries(env: Env, s: Mover)
    ensures Carries(s, EndStep(env, CheckVelocity(env, RemoveBase(s))))
  {
    hide SecondHalf, Clamped, Sub;
  }

  /** After the jump key has been dealt with, a frame out of deep water only passes memory on. */
  lemma StepCarries(env: Env, s: Mover)
    ensures Carries(JumpButton(env, s), Step(env, s))
  {
    hide JumpButton, GroundDrag, CheckVelocity, AirMove, WalkMove, CatagorizePosition, EndStep, RemoveBase;
    var b := JumpButton(env, s);
    var g := CheckVelocity(env, GroundDrag(env, b));
    var m := if g.onground != -1 then WalkMove(env, g) else AirMove(env, g);
    DragCarries(env, b);
    AirMoveCarries(env, g);
    WalkMoveCarries(env, g);
    CatagorizeCarries(env, m);
    EndCarries(env, CatagorizePosition(env, m));
  }

  lemma SwimCarries(env: Env, s: Mover)
    ensures Carries(JumpButton(env, Swimming(env, s)), Swim(env, s))
  {
    hide JumpButton, CheckWaterJump, WaterMove, CatagorizePosition, Sub;
    var b := JumpButton(env, Swimming(env, s));
    WaterMoveCarries(env, b);
    CatagorizeCarries(env, RemoveBase(WaterMove(env, b)));
  }

  // ----- the jump key -----

  /** The jump key takes the player off the ground in this frame. */
  predicate TakesOff(env: Env, d: Mover) {
    && d.onground != -1 && d.waterlevel < 2 && d.waterjumptime == 0.0
    && JumpButton(env, AddCorrectGravity(env, d)).onground == -1
  }

  lemma TakesOffIff(env: Env, d: Mover)
    ensures TakesOff(env, d) <==> Jumps(env, d)
  {
    hide FirstHalf, PreventMegaBunnyJumping, JumpVelocity, SecondHalf;
  }

  /** The jump key of a dead player, or of one in the air and not in a water jump, is wasted. */
  predicate Wasted(env: Env, d: Mover) { d.waterjumptime == 0.0 && (env.dead || (d.onground == -1 && d.waterlevel < 2)) }

  /** While the key is held it is remembered, a jump remembers it, and so does a wasted press. */
  lemma JumpButtonLatches(env: Env, s: Mover)
    requires env.cmd.jump && (s.keys.oldJump || Jumps(env, s) || env.dead || Wasted(env, s))
    ensures JumpButton(env, s).keys.oldJump
  {
    hide PreventMegaBunnyJumping, JumpVelocity, SecondHalf;
  }

  lemma FrameLatches(env: Env, s: Mover)
    requires env.cmd.jump && (s.keys.oldJump || Jumps(env, Ready(env, s)) || Wasted(env, Ready(env, s)))
    ensures PlayerMove(env, s).keys.oldJump
  {
    hide Ready, JumpButton, FirstHalf, FlyMove, CheckWater, LedgeTrace, BackingUp, Step, Swim, Scale;
    var d := Ready(env, s);
    ReadyCarries(env, s);
    var g := if InWater(d) then d else AddCorrectGravity(env, d);
    if g.waterjumptime != 0.0 {
      WaterJumpCarries(env, g);
    } else if g.waterlevel >= 2 {
      SwimCarries(env, g);
      JumpButtonLatches(env, Swimming(env, g));
    } else {
      StepCarries(env, g);
      JumpButtonLatches(env, g);
    }
  }

  lemma WaterJumpCarries(env: Env, s: Mover)
    ensures Carries(WaterJump(env, s), CheckWater(env, FlyMove(env, WaterJump(env, s))))
    ensures WaterJump(env, s).keys == s.keys && WaterJump(env, s).movedir == s.movedir
    ensures CheckWater(env, FlyMove(env, WaterJump(env, s))).waterjumptime == WaterJump(env, s).waterjumptime
  {
    hide ProbeWater, WholeSlide;
    FlyMoveCarries(env, WaterJump(env, s));
  }

  /** In frame k of the run the jump key takes the player off the ground. */
  predicate JumpsAt(envs: seq<Env>, s: Mover, k: nat)
    requires k < |envs|
  {
    TakesOff(envs[k], Ready(envs[k], Run(envs[..k], s)))
  }

  /** The jump key makes one jump each time it is pressed: between any two jumps of a run there is a frame
      with the key up. */
  lemma ReleasedBetweenJumps(envs: seq<Env>, s: Mover, i: nat, j: nat) returns (k: nat)
    requires i < j < |envs| && JumpsAt(envs, s, i) && JumpsAt(envs, s, j)
    ensures i < k < j && !envs[k].cmd.jump
  {
    hide Ready, PlayerMove, TakesOff;
    k := i + 1;
    TakesOffIff(envs[i], Ready(envs[i], Run(envs[..i], s)));
    TakesOffIff(envs[j], Ready(envs[j], Run(envs[..j], s)));
    RunNext(envs, s, i);
    FrameLatches(envs[i], Run(envs[..i], s));
    while k < j && envs[k].cmd.jump
      invariant i < k <= j && Run(envs[..k], s).keys.oldJump
    {
      RunNext(envs, s, k);
      FrameLatches(envs[k], Run(envs[..k], s));
      k := k + 1;
    }
    ReadyCarries(envs[k], Run(envs[..k], s));
  }

  lemma RunNext(envs: seq<Env>, s: Mover, k: nat)
    requires k < |envs|
    ensures Run(envs[..k + 1], s) == PlayerMove(envs[k], Run(envs[..k], s))
  {
    hide PlayerMove;
    assert envs[..k + 1][..k] == envs[..k];
  }

  // ----- water jumps -----

  /** The level part of 50 units against the normal of a nearly vertical wall, or nothing where a trace has no
      normal. */
  predicate WallSpeed(m: Vec) { m == ORIGIN || 2475.0 <= Square(Flat(m)) <= 2500.0 }

  /** A water jump has two seconds to go at most, and a speed to go at. */
  predicate WaterJumpOk(s: Mover) {
    0.0 <= s.waterjumptime <= 2000.0 && (s.waterjumptime != 0.0 ==> WallSpeed(s.movedir))
  }

  lemma WallSpeedScaled(n: Vec)
    requires n == ORIGIN || Square(n) == 1.0
    requires -0.1 < n.z < 0.1
    ensures WallSpeed(Scale(-50.0, n))
  {
    hide Square, Flat;
    if n == ORIGIN {
      assert Scale(-50.0, n) == ORIGIN;
    } else {
      LevelSquare(n);
      SquareScale(-50.0, Flat(n));
      FlatScale(-50.0, n);
      TwentyFiveHundred(Square(Flat(n)));
    }
  }

  lemma TwentyFiveHundred(q: real)
    ensures -50.0 * -50.0 * q == 2500.0 * q
  {}

  lemma LevelSquare(n: Vec)
    requires -0.1 < n.z < 0.1
    ensures Square(n) - 0.01 <= Square(Flat(n)) <= Square(n)
  {
    var a := if n.z < 0.0 then -n.z else n.z;
    ProductMonotone(a, a, 0.1, 0.1);
    assert n.z * n.z == a * a && 0.0 <= a * a;
  }

  /** A water jump begins only when none is under way: at the nearly vertical wall that was found ahead, with
      50 units into it and two seconds to go. */
  lemma CheckWaterJumpOk(env: Env, s: Mover)
    requires Sound(env.engine) && WaterJumpOk(s)
    ensures var s' := CheckWaterJump(env, s);
            && WaterJumpOk(s')
            && (s'.waterjumptime != s.waterjumptime ==>
                  var wall := LedgeTrace(env, s, 8.0);
                  && s.waterjumptime == 0.0 && s'.waterjumptime == 2000.0 && s'.keys.oldJump && s'.velocity == WithZ(s.velocity, 225.0)
                  && wall.fraction < 1.0 && -0.1 < wall.normal.z < 0.1 && s'.movedir == Scale(-50.0, wall.normal))
  {
    hide BackingUp, WallSpeed, Scale, Square, Clear, TestSound, NestedBoxClear, SqrtSound, Normalize, Add;
    var start := Add(s.origin, Up(8.0));
    var end := Add(start, Scale(24.0, Normalize(env.engine, Flat(s.view.forward))));
    assert TraceSound(env.engine, POINT, start, end);
    var n := env.engine.playerTrace(POINT, start, end).normal;
    if -0.1 < n.z < 0.1 {
      WallSpeedScaled(n);
    }
  }

  lemma CarriesOk(s: Mover, s': Mover)
    requires Carries(s, s') && WaterJumpOk(s)
    ensures WaterJumpOk(s')
  {
    hide WallSpeed;
  }

  lemma TimersOk(env: Env, s: Mover)
    requires WaterJumpOk(s)
    ensures WaterJumpOk(JumpButton(env, s)) && WaterJumpOk(WaterJump(env, s))
  {
    hide WallSpeed, Leap;
    assert Leap(env, s).waterjumptime == s.waterjumptime && Leap(env, s).movedir == s.movedir by { LeapKeeps(env, s); }
  }

  lemma LeapKeeps(env: Env, s: Mover)
    ensures Leap(env, s).waterjumptime == s.waterjumptime && Leap(env, s).movedir == s.movedir
  {
    hide PreventMegaBunnyJumping, JumpVelocity, SecondHalf;
  }

  lemma FrameKeepsWaterJumpOk(env: Env, s: Mover)
    requires Sound(env.engine) && WaterJumpOk(s)
    ensures WaterJumpOk(PlayerMove(env, s))
  {
    hide Sound, Ready, JumpButton, WaterJump, FirstHalf, FlyMove, CheckWater, CheckWaterJump, Step, Swim, WallSpeed;
    var d := Ready(env, s);
    ReadyCarries(env, s);
    CarriesOk(s, d);
    var g := if InWater(d) then d else AddCorrectGravity(env, d);
    assert WaterJumpOk(g);
    if g.waterjumptime != 0.0 {
      TimersOk(env, g);
      WaterJumpCarries(env, g);
      CarriesOk(WaterJump(env, g), Walk(env, d));
    } else if g.waterlevel >= 2 {
      CheckWaterJumpOk(env, g);
      TimersOk(env, Swimming(env, g));
      SwimCarries(env, g);
      CarriesOk(JumpButton(env, Swimming(env, g)), Walk(env, d));
    } else {
      TimersOk(env, g);
      StepCarries(env, g);
      CarriesOk(JumpButton(env, g), Walk(env, d));
    }
  }

  /** Over every run, whatever the worlds, a water jump has at most two seconds left and the speed it was
      given at a wall; and the water level stays in 0..3. */
  lemma {:induction false} RunKeepsWaterJumpOk(envs: seq<Env>, s: Mover)
    requires WaterJumpOk(s) && forall k :: 0 <= k < |envs| ==> Sound(envs[k].engine)
    requires 0 <= s.waterlevel <= 3
    ensures WaterJumpOk(Run(envs, s)) && 0 <= Run(envs, s).waterlevel <= 3
  {
    hide WaterJumpOk, PlayerMove, Sound;
    if envs != [] {
      RunKeepsWaterJumpOk(envs[..|envs| - 1], s);
      FrameKeepsWaterJumpOk(envs[|envs| - 1], Run(envs[..|envs| - 1], s));
      FrameWaterLevel(envs[|envs| - 1], Run(envs[..|envs| - 1], s));
    }
  }

  predicate JumpsWater(env: Env, s: Mover) { Ready(env, s).waterjumptime != 0.0 }

  /** A frame of a water jump: the timer runs down, and stops once the player is out of the water. */
  lemma WaterJumpFrame(env: Env, s: Mover)
    requires WaterJumpOk(s) && JumpsWater(env, s)
    ensures var s' := PlayerMove(env, s);
            var left := s.waterjumptime - env.cmd.msec as real;
            && s'.waterjumptime == (if left < 0.0 || Ready(env, s).waterlevel == 0 then 0.0 else left)
            && s'.movedir == s.movedir
    ensures 0.0 < s.waterjumptime
    ensures WaterJumpOk(PlayerMove(env, s))
  {
    hide Ready, FirstHalf, FlyMove, CheckWater, Step, Swim, WallSpeed;
    ReadyCarries(env, s);
    var d := Ready(env, s);
    var g := if InWater(d) then d else AddCorrectGravity(env, d);
    WaterJumpCarries(env, g);
  }

  /** A frame of a water jump ends no faster than 50 on the level with the vertical speed it came to the move
      with, slide included. */
  lemma WaterJumpFrameSpeed(env: Env, s: Mover)
    requires Sound(env.engine) && TameBounce(env) && WaterJumpOk(s) && JumpsWater(env, s)
    ensures var z := Ready(env, s).velocity.z;
            Square(PlayerMove(env, s).velocity) <= 2500.0 + z * z
  {
    hide Sound, TameBounce, Ready, FlyMove, CheckWater, Step, Swim, Square, Flat;
    var d := Ready(env, s);
    ReadyCarries(env, s);
    var m := WaterJump(env, d);
    FlyMoveKeepsSpeed(env, m);
    CheckWaterMoves(env, FlyMove(env, m));
    SquareOrigin();
    assert Flat(ORIGIN) == ORIGIN by { FlatOrigin(); }
    SquareParts(m.velocity, d.movedir);
  }

  lemma FlatOrigin()
    ensures Flat(ORIGIN) == ORIGIN
  {}

  lemma SquareParts(v: Vec, m: Vec)
    requires v == WithZ(m, v.z)
    ensures Square(v) == Square(Flat(m)) + v.z * v.z
  {}

  function Milliseconds(envs: seq<Env>): nat {
    if envs == [] then 0 else Milliseconds(envs[..|envs| - 1]) + envs[|envs| - 1].cmd.msec
  }

  /** A run that is one water jump keeps its direction and counts its timer down. */
  lemma {:induction false} WaterJumpRunsOut(envs: seq<Env>, s: Mover)
    requires WaterJumpOk(s) && forall k :: 0 <= k < |envs| ==> JumpsWater(envs[k], Run(envs[..k], s))
    ensures var s' := Run(envs, s);
            && WaterJumpOk(s') && s'.movedir == s.movedir
            && (s'.waterjumptime == 0.0 || s'.waterjumptime == s.waterjumptime - Milliseconds(envs) as real)
  {
    hide WaterJumpOk, JumpsWater, PlayerMove;
    if envs != [] {
      var before := envs[..|envs| - 1];
      forall k | 0 <= k < |before| ensures before[..k] == envs[..k] {}
      WaterJumpRunsOut(before, s);
      WaterJumpFrame(envs[|envs| - 1], Run(before, s));
    }
  }

  /** No water jump lasts longer than two seconds: when its last frame begins, less than that has passed. */
  lemma WaterJumpEnds(envs: seq<Env>, s: Mover)
    requires WaterJumpOk(s) && envs != []
    requires forall k :: 0 <= k < |envs| ==> JumpsWater(envs[k], Run(envs[..k], s))
    ensures Milliseconds(envs[..|envs| - 1]) < 2000
  {
    hide JumpsWater, PlayerMove, Run;
    var before := envs[..|envs| - 1];
    forall k | 0 <= k < |before| ensures before[..k] == envs[..k] {}
    WaterJumpRunsOut(before, s);
    WaterJumpFrame(envs[|envs| - 1], Run(before, s));
  }
}
