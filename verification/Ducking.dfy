/** What ducking and standing up do: exactly when the player gets up, goes down or stays, and where that
    leaves him. */
module Ducking {
  import opened Vectors
  import opened Engine
  import opened Player
  import opened Movement
  import opened WalkSafety
  import opened FreeFall
  import opened Worlds

  // ----- standing up -----

  /** Where a player who stands up would be: around the same feet on the ground, around the same origin in the
      air. */
  function Upright(s: Mover): Vec { if s.onground != -1 then Vec(s.origin.x, s.origin.y, s.origin.z + 18.0) else s.origin }

  /** There is room to stand: for the hull in use and for the standing one. */
  predicate Room(env: Env, s: Mover) {
    Clear(env.engine, s.stance.usehull, Upright(s)) && Clear(env.engine, STANDING, Upright(s))
  }

  predicate Erect(t: Stance) { t == Stance(STANDING, false, false, 0.0, 28.0) }

  lemma UprightIs(s: Mover)
    ensures Upright(s) == if s.onground != -1 then Add(s.origin, HullShift()) else s.origin
  {}

  /** The ground check leaves the player in place or takes him down by less than it looks. */
  lemma CatagorizeLowers(env: Env, s: Mover)
    requires Sound(env.engine)
    ensures var s' := CatagorizePosition(env, s);
            && s'.stance == s.stance && s'.velocity == s.velocity && s'.keys == s.keys
            && s'.origin.x == s.origin.x && s'.origin.y == s.origin.y
            && s.origin.z - 2.0 <= s'.origin.z <= s.origin.z
  {
    hide ProbeWater, AddToTouched, Clear, TestSound, NestedBoxClear, SqrtSound;
    var w := CheckWater(env, s);
    var down := Sub(w.origin, Up(2.0));
    assert TraceSound(env.engine, w.stance.usehull, w.origin, down);
    var t := Tracing(env, w, w.origin, down);
    assert Sub(down, w.origin) == Vec(0.0, 0.0, -2.0);
    assert t.fraction * 0.0 == 0.0;
  }

  /** The player stands up if and only if there is room, and otherwise nothing at all happens. */
  lemma UnDuckExact(env: Env, s: Mover)
    requires Sound(env.engine) && DuckOk(s)
    ensures var s' := UnDuck(env, s);
            if Room(env, s) then
              && Erect(s'.stance) && s'.origin.x == s.origin.x && s'.origin.y == s.origin.y
              && Upright(s).z - 2.0 <= s'.origin.z <= Upright(s).z
              && s'.velocity == (if env.ducktapCap && s.onground != -1 then Scale(0.9, s.velocity) else s.velocity)
            else s' == s
    ensures UnDuck(env, s).keys == s.keys
  {
    hide CatagorizePosition, Clear, HullShift, TestSound, NestedBoxClear, SqrtSound, Scale;
    var p := Upright(s);
    UprightIs(s);
    assert TraceSound(env.engine, s.stance.usehull, p, p) && TraceSound(env.engine, STANDING, p, p);
    CatagorizeLowers(env, StoodUp(env, s, p));
  }

  /** A player who is ducked, or on the way down, gets up when the duck key is let go of, if and only if there
      is room; a dead player, or one who may not duck, only from being ducked. */
  lemma KeyUp(env: Env, s: Mover)
    requires Sound(env.engine) && DuckOk(s) && !env.cmd.duck
    ensures var t := Duck(env, s).stance;
            var low := s.stance.ducking || (s.stance.inDuck && !env.noDuck && !env.dead);
            && (low ==> (Erect(t) <==> Room(env, s)))
            && (!(low && Room(env, s)) ==> t == s.stance && Duck(env, s).origin == s.origin)
  {
    hide UnDuck, Room;
    var k := s.(keys := s.keys.(oldDuck := env.cmd.duck));
    SameRoom(env, s, k);
    SameRoom(env, s, SlowDucked(k));
    UnDuckExact(env, k);
    UnDuckExact(env, SlowDucked(k));
  }

  lemma SameRoom(env: Env, s: Mover, k: Mover)
    requires k.origin == s.origin && k.stance == s.stance && k.onground == s.onground
    ensures Room(env, k) == Room(env, s)
  {}

  // ----- going down -----

  /** The stance that a command with the duck key down comes to. */
  function KeyDownStance(s: Mover): Stance {
    var starts := !s.keys.oldDuck && !s.stance.ducking;
    var time := if starts then 1000.0 else s.stance.duckTime;
    if !starts && !s.stance.inDuck then s.stance
    else if s.onground == -1 || time <= 600.0 then Stance(DUCKED, true, false, time, 12.0)
    else s.stance.(inDuck := true, duckTime := time, viewZ := DuckingView(time))
  }

  /** With the duck key down: a fresh press starts the way down; at once in the air, and when four tenths of a
      second are over on the ground, the player is ducked; a key held from before starts nothing. In the air the
      origin stays, on the ground a duck that is finished lowers it by 18, and the feet stay. */
  lemma KeyDown(env: Env, s: Mover)
    requires Sound(env.engine) && Good(env.engine, s) && env.cmd.duck && !env.noDuck && !env.dead
    ensures var s' := Duck(env, s);
            && s'.stance == KeyDownStance(s)
            && var lower := if s'.stance.ducking && !s.stance.ducking && s.onground != -1 then 18.0 else 0.0;
               && s'.origin.x == s.origin.x && s'.origin.y == s.origin.y
               && (if lower == 0.0 then s'.origin == s.origin else s.origin.z - 20.0 <= s'.origin.z <= s.origin.z - 18.0)
  {
    hide CatagorizePosition, FixPlayerCrouchStuck, DuckingView, Clear, TouchOk, Sound;
    var k := SlowDucked(s.(keys := s.keys.(oldDuck := env.cmd.duck)));
    var starts := !s.keys.oldDuck && !s.stance.ducking;
    var d := if starts then k.(stance := k.stance.(duckTime := 1000.0, inDuck := true)) else k;
    if d.stance.inDuck && d.onground != -1 && d.stance.duckTime <= 600.0 {
      CrouchNeverStuck(env, d);
      CatagorizeLowers(env, LowPlayer(d));
      LowerBy18(d);
    }
  }

  lemma LowerBy18(s: Mover)
    ensures LowPlayer(s).origin == Vec(s.origin.x, s.origin.y, s.origin.z - 18.0)
  {}

  /** The search for a free place gives the first that is free, going from p by the step; if the place and the
      next `tries` are all taken, it gives the player back the place he had. */
  lemma {:induction false} UnstuckFirst(e: Callbacks, hull: int, origin: Vec, p: Vec, direction: real, tries: nat)
    returns (k: nat)
    ensures k <= tries + 1
    ensures forall i: nat :: i < k ==> e.testPlayerPosition(hull, Stepped(p, direction, i)) != -1
    ensures var q := Unstuck(e, hull, origin, p, direction, tries);
            if k <= tries then q == Stepped(p, direction, k) && e.testPlayerPosition(hull, q) == -1 else q == origin
    decreases tries
  {
    NoSteps(p, direction);
    if e.testPlayerPosition(hull, p) == -1 {
      k := 0;
    } else if tries == 0 {
      k := 1;
    } else {
      var rest := UnstuckFirst(e, hull, origin, Add(p, Up(direction)), direction, tries - 1);
      k := rest + 1;
      forall i: nat | 0 < i <= k ensures Stepped(p, direction, i) == Stepped(Add(p, Up(direction)), direction, i - 1) {
        OneStep(p, direction, i);
      }
    }
  }

  function Stepped(p: Vec, direction: real, i: nat): Vec { Vec(p.x, p.y, p.z + i as real * direction) }

  lemma NoSteps(p: Vec, direction: real)
    ensures Stepped(p, direction, 0) == p
  {}

  lemma OneStep(p: Vec, direction: real, i: nat)
    requires 0 < i
    ensures Stepped(p, direction, i) == Stepped(Add(p, Up(direction)), direction, i - 1)
  {
    assert i as real == (i - 1) as real + 1.0;
  }

  // ----- on an open floor -----

  lemma RoomOnFloor(env: Env, sqrt: real -> real, s: Mover)
    requires env.engine == FloorWorld(sqrt) && s.stance.usehull == DUCKED && s.onground != -1
    requires s.origin.z + HullMins(DUCKED).z == 0.0
    ensures Room(env, s) && Upright(s).z + HullMins(STANDING).z == 0.0
  {
    hide FloorWorld, Clear;
    FloorClear(sqrt, DUCKED, Upright(s));
    FloorClear(sqrt, STANDING, Upright(s));
  }

  /** A ducked player on an open floor who lets go of the duck key is standing on it when the frame comes to
      move, eyes and all, around the same feet. */
  lemma FloorGetsUp(env: Env, sqrt: real -> real, s: Mover)
    requires Sound(env.engine) && env.engine == FloorWorld(sqrt) && DuckOk(s) && s.stance.ducking
    requires s.origin.z + HullMins(DUCKED).z == 0.0 && s.velocity.z <= 180.0 && s.basevelocity == ORIGIN
    requires !env.cmd.duck
    ensures var d := Prepared(env, s);
            Erect(d.stance) && d.origin == Vec(s.origin.x, s.origin.y, 36.0) && d.onground == 0
  {
    hide Sound, FloorWorld, CatagorizePosition, UnDuck, Scale, Room, Clear;
    var s1 := StartFrame(env, s);
    FindsFloor(env, sqrt, s1, 0.0);
    LowerNone(s1.origin);
    var c := CatagorizePosition(env, s1);
    var k := c.(keys := c.keys.(oldDuck := env.cmd.duck));
    GetsUpFrom(env, sqrt, k);
    GetsUpFrom(env, sqrt, SlowDucked(k));
  }

  lemma GetsUpFrom(env: Env, sqrt: real -> real, s: Mover)
    requires Sound(env.engine) && env.engine == FloorWorld(sqrt) && DuckOk(s) && s.stance.ducking && s.onground == 0
    requires s.origin.z + HullMins(DUCKED).z == 0.0 && s.velocity.z <= 180.0 && s.basevelocity == ORIGIN
    ensures var d := UnDuck(env, s);
            Erect(d.stance) && d.origin == Vec(s.origin.x, s.origin.y, 36.0) && d.onground == 0
  {
    hide FloorWorld, CatagorizePosition, Clear, HullShift, TestSound, NestedBoxClear, SqrtSound, Scale;
    var p := Upright(s);
    UprightIs(s);
    RoomOnFloor(env, sqrt, s);
    assert TraceSound(env.engine, s.stance.usehull, p, p) && TraceSound(env.engine, STANDING, p, p);
    SlowTap(s.velocity);
    FindsFloor(env, sqrt, StoodUp(env, s, p), 0.0);
    LowerNone(p);
  }

  lemma SlowTap(v: Vec)
    requires v.z <= 180.0
    ensures Scale(0.9, v).z <= 180.0
  {}

  /** The duck timer runs down by the milliseconds of the command, and stops at nothing. */
  lemma TimerRuns(env: Env, s: Mover)
    requires 0.0 <= s.stance.duckTime
    ensures var left := s.stance.duckTime - env.cmd.msec as real;
            StartFrame(env, s).stance == s.stance.(duckTime := if left < 0.0 then 0.0 else left)
  {}

  /** A player who is on the way down on an open floor and holds the key is ducked in the frame in which four
      tenths of a second are over, and not before. */
  lemma FloorGoesDown(env: Env, sqrt: real -> real, s: Mover)
    requires Sound(env.engine) && env.engine == FloorWorld(sqrt) && DuckOk(s) && s.stance.inDuck && s.keys.oldDuck
    requires s.origin.z + HullMins(STANDING).z == 0.0 && s.velocity.z <= 180.0 && s.basevelocity == ORIGIN
    requires env.cmd.duck && !env.noDuck && !env.dead
    ensures var d := Prepared(env, s);
            d.stance.ducking <==> s.stance.duckTime - env.cmd.msec as real <= 600.0
  {
    hide Sound, FloorWorld, CatagorizePosition, Unstuck, DuckingView;
    var s1 := StartFrame(env, s);
    TimerRuns(env, s);
    FindsFloor(env, sqrt, s1, 0.0);
    var c := CatagorizePosition(env, s1);
    var d := SlowDucked(c.(keys := c.keys.(oldDuck := env.cmd.duck)));
    CatagorizeLowers(env, FixPlayerCrouchStuck(env, LowPlayer(d), 1.0));
  }
}
