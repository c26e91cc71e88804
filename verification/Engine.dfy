/** What the movement code reads but never writes: the engine's callbacks, the server's movement
    variables and the current command, with the contract the engine keeps. */
module Engine {
  import opened Vectors

  // Hulls: 0 is the standing player, 1 the ducked player, 2 a point.
  const STANDING := 0
  const DUCKED := 1
  const POINT := 2

  const MAX_PHYSENTS := 600
  const MOVETYPE_WALK := 3

  datatype Trace = Trace(allsolid: bool, startsolid: bool, fraction: real, endpos: Vec, normal: Vec, ent: int)

  /** An entry of the touch list: the trace that hit, with the velocity at impact. */
  datatype Touch = Touch(trace: Trace, deltavelocity: Vec)

  /** The engine callbacks for one move. They do not change during the move, so they are functions:
      `clear(lo, hi)` says that no solid meets the box with those corners. */
  datatype Callbacks = Callbacks(
    clear: (Vec, Vec) -> bool,
    playerTrace: (int, Vec, Vec) -> Trace,
    testPlayerPosition: (int, Vec) -> int,
    pointContents: Vec -> int,
    truePointContents: Vec -> int,
    sqrt: real -> real,
    numphysent: nat)

  datatype MoveVars = MoveVars(
    gravity: real, stopspeed: real, accelerate: real, airaccelerate: real, friction: real,
    edgefriction: real, bounce: real, stepsize: real, maxvelocity: real)

  datatype WalkKeys = WalkKeys(forward: bool, back: bool, left: bool, right: bool)

  datatype Cmd = Cmd(
    msec: nat, duck: bool, jump: bool, use: bool, walk: WalkKeys, forwardmove: real, sidemove: real, upmove: real,
    forward: Vec, right: Vec, up: Vec)

  /** Everything a move reads without writing it. The last field says whether the old +use method is in force. */
  datatype Env = Env(
    engine: Callbacks, vars: MoveVars, cmd: Cmd, frametime: real, movetype: int,
    gravity: real, friction: real, maxspeed: real, dead: bool, noDuck: bool,
    canSuperJump: bool, bhopCap: bool, ducktapCap: bool, slowOnUse: bool)

  function HullMins(hull: int): Vec {
    if hull == STANDING then Vec(-16.0, -16.0, -36.0)
    else if hull == DUCKED then Vec(-16.0, -16.0, -18.0)
    else ORIGIN
  }

  function HullMaxs(hull: int): Vec {
    if hull == STANDING then Vec(16.0, 16.0, 36.0)
    else if hull == DUCKED then Vec(16.0, 16.0, 18.0)
    else ORIGIN
  }

  /** The hull placed at p touches nothing solid. */
  predicate Clear(e: Callbacks, hull: int, p: Vec) {
    e.clear(Add(p, HullMins(hull)), Add(p, HullMaxs(hull)))
  }

  predicate Below(a: Vec, b: Vec) { a.x <= b.x && a.y <= b.y && a.z <= b.z }

  // ----- the engine's contract, one clause a predicate -----

  predicate NestedBoxClear(e: Callbacks, lo: Vec, hi: Vec, lo': Vec, hi': Vec) {
    e.clear(lo, hi) && Below(lo, lo') && Below(hi', hi) ==> e.clear(lo', hi')
  }

  predicate TraceSound(e: Callbacks, hull: int, a: Vec, b: Vec) {
    var t := e.playerTrace(hull, a, b);
    && 0.0 <= t.fraction <= 1.0
    && t.endpos == Add(a, Scale(t.fraction, Sub(b, a)))
    && (t.startsolid <==> !Clear(e, hull, a))
    && (t.allsolid ==> t.startsolid)
    && (!t.startsolid ==> Clear(e, hull, t.endpos))
    && (t.normal == ORIGIN || Square(t.normal) == 1.0)
    && (t.fraction == 1.0 ==> t.normal == ORIGIN && t.ent == -1)
    && (t.fraction < 1.0 ==> 0 <= t.ent < e.numphysent)
  }

  predicate TestSound(e: Callbacks, hull: int, p: Vec) {
    e.testPlayerPosition(hull, p) == -1 <==> Clear(e, hull, p)
  }

  predicate SqrtSound(e: Callbacks, x: real) {
    0.0 <= x ==> 0.0 <= e.sqrt(x) && e.sqrt(x) * e.sqrt(x) == x
  }

  ghost predicate Sound(e: Callbacks) {
    && e.numphysent <= MAX_PHYSENTS
    && (forall lo, hi, lo', hi' :: NestedBoxClear(e, lo, hi, lo', hi'))
    && (forall hull, a, b :: TraceSound(e, hull, a, b))
    && (forall hull, p :: TestSound(e, hull, p))
    && (forall x :: SqrtSound(e, x))
  }

  // ----- lengths -----

  function Length(e: Callbacks, v: Vec): real { e.sqrt(Square(v)) }

  function Normalize(e: Callbacks, v: Vec): Vec {
    var length := Length(e, v);
    if length != 0.0 then Scale(1.0 / length, v) else v
  }

  lemma LengthSquared(e: Callbacks, v: Vec)
    requires Sound(e)
    ensures 0.0 <= Length(e, v) && Length(e, v) * Length(e, v) == Square(v)
  {
    SquareNonNegative(v);
    assert SqrtSound(e, Square(v));
  }

  lemma LengthOrigin(e: Callbacks)
    requires Sound(e)
    ensures Length(e, ORIGIN) == 0.0
  {
    hide Sound, Length, Square;
    LengthSquared(e, ORIGIN);
    SquareOrigin();
    SquareZero(Length(e, ORIGIN));
  }

  lemma SquareZero(a: real)
    requires a * a <= 0.0
    ensures a == 0.0
  {
    if a < 0.0 {
      SquareStrict(0.0, -a);
    } else if 0.0 < a {
      SquareStrict(0.0, a);
    }
  }

  lemma ZeroLength(v: Vec)
    requires Square(v) == 0.0
    ensures v == ORIGIN
  {
    var Vec(x, y, z) := v;
    assert x * x + y * y + z * z == 0.0 && 0.0 <= x * x && 0.0 <= y * y && 0.0 <= z * z;
    SquareZero(x);
    SquareZero(y);
    SquareZero(z);
  }

  /** Normalising leaves the zero vector alone and gives every other vector length one, and the
      length times the result is the vector again. */
  lemma NormalizeSound(e: Callbacks, v: Vec)
    requires Sound(e)
    ensures if v == ORIGIN then Normalize(e, v) == ORIGIN else Square(Normalize(e, v)) == 1.0
    ensures Scale(Length(e, v), Normalize(e, v)) == v
  {
    LengthSquared(e, v);
    var length := Length(e, v);
    if length == 0.0 {
      ZeroLength(v);
    } else {
      SquareScale(1.0 / length, v);
      assert (1.0 / length) * length == 1.0;
      calc {
        Square(Normalize(e, v));
        (1.0 / length) * (1.0 / length) * (length * length);
        ((1.0 / length) * length) * ((1.0 / length) * length);
        1.0;
      }
      UnscaleScale(length, v);
    }
  }

  lemma UnscaleScale(k: real, v: Vec)
    requires k != 0.0
    ensures Scale(k, Scale(1.0 / k, v)) == v
    ensures v != ORIGIN || Scale(1.0 / k, v) == ORIGIN
  {
    assert k * (1.0 / k) == 1.0;
    assert k * (1.0 / k * v.x) == v.x && k * (1.0 / k * v.y) == v.y && k * (1.0 / k * v.z) == v.z;
  }
}
