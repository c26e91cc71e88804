/** Walking and steering: where the keys push a player, and that a player with nothing in the way goes there. */
module Walking {
  import opened Vectors
  import opened Engine
  import opened Player
  import opened SlideMove
  import opened SlideBounds
  import opened Movement
  import opened AirAndGround
  import opened FreeFall
  import opened Worlds

  // ----- what the keys ask for -----

  /** The view looks along the level, and its two level directions are perpendicular. */
  predicate LevelView(w: View) {
    && w.forward.z == 0.0 && w.right.z == 0.0
    && Square(w.forward) == 1.0 && Square(w.right) == 1.0 && Dot(w.forward, w.right) == 0.0
  }

  /** The forward key as far along forward and the side key as far along right as they are pressed. */
  function Asked(w: View, k: Keys): Vec { Add(Scale(k.forwardmove, w.forward), Scale(k.sidemove, w.right)) }

  lemma UnitNormal(e: Callbacks, v: Vec)
    requires Sound(e) && Square(v) == 1.0
    ensures Length(e, v) == 1.0 && Normalize(e, v) == v
  {
    hide Sound, Square, Length, Scale;
    LengthSquared(e, v);
    RootMonotone(Length(e, v), 1.0);
    RootMonotone(1.0, Length(e, v));
    ScaleOne(v);
  }

  predicate Level(w: View) { w.forward.z == 0.0 && w.right.z == 0.0 }

  /** The view brought into the level: each direction is level, the level part of what it was times something
      positive, and of length one; what has no level part is nothing. A level view stays as it is. */
  lemma FlattenLaw(env: Env, w: View) returns (a: real, b: real)
    requires Sound(env.engine)
    ensures var f := FlattenView(env, w);
            && Level(f) && 0.0 < a && 0.0 < b && Flat(w.forward) == Scale(a, f.forward) && Flat(w.right) == Scale(b, f.right)
            && (if Flat(w.forward) == ORIGIN then f.forward == ORIGIN else Square(f.forward) == 1.0)
            && (if Flat(w.right) == ORIGIN then f.right == ORIGIN else Square(f.right) == 1.0)
            && (LevelView(w) ==> f == w)
  {
    hide Sound, Square, Normalize, Dot, Scale, Flat;
    a := OneDirection(env.engine, w.forward);
    b := OneDirection(env.engine, w.right);
    if LevelView(w) {
      FlatOfLevel(w.forward);
      FlatOfLevel(w.right);
      UnitNormal(env.engine, w.forward);
      UnitNormal(env.engine, w.right);
    }
  }

  lemma FlatOfLevel(v: Vec)
    requires v.z == 0.0
    ensures Flat(v) == v
  {}

  lemma OneDirection(e: Callbacks, v: Vec) returns (a: real)
    requires Sound(e)
    ensures var n := Normalize(e, Flat(v));
            && n.z == 0.0 && 0.0 < a && Flat(v) == Scale(a, n)
            && (if Flat(v) == ORIGIN then n == ORIGIN else Square(n) == 1.0)
  {
    hide Sound, Square, Length;
    NormalizeSound(e, Flat(v));
    LengthSquared(e, Flat(v));
    a := Length(e, Flat(v));
    if a == 0.0 {
      NoLength(e, Flat(v));
      a := 1.0;
    }
    LevelNormal(e, v);
  }

  lemma LevelNormal(e: Callbacks, v: Vec)
    ensures Normalize(e, Flat(v)).z == 0.0
  {
    hide Length;
    assert forall k: real :: Scale(k, Flat(v)).z == k * 0.0;
  }

  lemma FlattenedLevel(env: Env, w: View)
    ensures Level(FlattenView(env, w))
  {
    hide Normalize;
    LevelNormal(env.engine, w.forward);
    LevelNormal(env.engine, w.right);
  }

  lemma WishIsAsked(w: View, k: Keys)
    requires Level(w)
    ensures WishVelocity(w, k) == Asked(w, k)
  {
    hide Square, Dot;
    assert k.forwardmove * 0.0 == 0.0 && k.sidemove * 0.0 == 0.0;
    assert w.forward.x * k.forwardmove == k.forwardmove * w.forward.x && w.right.x * k.sidemove == k.sidemove * w.right.x;
    assert w.forward.y * k.forwardmove == k.forwardmove * w.forward.y && w.right.y * k.sidemove == k.sidemove * w.right.y;
  }

  /** What is asked for has the keys as its components along the two directions. */
  lemma AskedParts(w: View, k: Keys)
    requires LevelView(w)
    ensures Dot(Asked(w, k), w.forward) == k.forwardmove && Dot(Asked(w, k), w.right) == k.sidemove
    ensures Square(Asked(w, k)) == k.forwardmove * k.forwardmove + k.sidemove * k.sidemove
  {
    hide Dot, Add, Scale;
    var f, s := k.forwardmove, k.sidemove;
    TwoDot(f, w.forward, s, w.right, w.forward);
    TwoDot(f, w.forward, s, w.right, w.right);
    TwoDot(f, w.forward, s, w.right, Asked(w, k));
    DotSymmetric(w.forward, w.right);
    DotSymmetric(w.forward, Asked(w, k));
    DotSymmetric(w.right, Asked(w, k));
  }

  lemma TwoDot(f: real, a: Vec, s: real, b: Vec, u: Vec)
    ensures Dot(Add(Scale(f, a), Scale(s, b)), u) == f * Dot(a, u) + s * Dot(b, u)
  {
    AddScaleDot(Scale(f, a), b, s, u);
    ScaleDot(f, a, u);
  }

  // ----- how the keys push -----

  /** What acceleration gives in a frame from rest to a player who asks for this, up to the top speed, and in the
      air up to 30. */
  function Gain(env: Env, wish: Vec, accel: real, most: real): real {
    var speed := Min(Length(env.engine, wish), env.maxspeed);
    Min(FrameShare(env, speed, accel), Min(speed, most))
  }

  function FrameShare(env: Env, speed: real, accel: real): real { accel * env.frametime * speed * env.friction }

  function GroundGain(env: Env, wish: Vec): real { Gain(env, wish, env.vars.accelerate, env.maxspeed) }

  function AirGain(env: Env, wish: Vec): real { Gain(env, wish, env.vars.airaccelerate, 30.0) }

  /** A push along the direction of w adds a multiple of w, and from rest one of this length. */
  lemma PushedMultiple(e: Callbacks, v: Vec, w: Vec, target: real, push: real) returns (g: real)
    requires Sound(e) && 0.0 <= target && 0.0 <= push
    ensures 0.0 <= g && Pushed(v, Normalize(e, w), target, push) == Add(v, Scale(g, w))
    ensures v == ORIGIN && w != ORIGIN && 0.0 < target && 0.0 < push ==>
              0.0 < g && Length(e, Scale(g, w)) == Min(push, target)
  {
    hide Sound, Length, Normalize, Scale, Square, Pushed, Min, Add;
    var m := PushedBy(v, Normalize(e, w), target, push);
    if w == ORIGIN {
      g := 0.0;
      NormalizeSound(e, w);
      NoScale(m);
      ZeroScale(w);
    } else {
      g := Multiple(e, w, m);
    }
  }

  /** A push is so much along its direction. */
  lemma PushedBy(v: Vec, d: Vec, target: real, push: real) returns (m: real)
    requires 0.0 <= target && 0.0 <= push
    ensures 0.0 <= m && Pushed(v, d, target, push) == Add(v, Scale(m, d))
    ensures v == ORIGIN && 0.0 < target && 0.0 < push ==> 0.0 < m && m == Min(push, target)
  {
    hide Scale, Dot, Add;
    OriginDot(d);
    if target - Dot(v, d) <= 0.0 {
      m := 0.0;
      ZeroScale(d);
      AddZero(v);
    } else {
      m := Min(push, target - Dot(v, d));
    }
  }

  /** So much along the direction of w is a multiple of w. */
  lemma Multiple(e: Callbacks, w: Vec, amount: real) returns (g: real)
    requires Sound(e) && w != ORIGIN && 0.0 <= amount
    ensures 0.0 <= g && (0.0 < amount ==> 0.0 < g)
    ensures Scale(amount, Normalize(e, w)) == Scale(g, w) && Length(e, Scale(g, w)) == amount
  {
    hide Sound, Length, Scale, Square;
    var length := Length(e, w);
    LengthSquared(e, w);
    assert length != 0.0 by {
      if length == 0.0 {
        NoLength(e, w);
      }
    }
    var inverse := 1.0 / length;
    g := amount * inverse;
    ScaleTwice(amount, inverse, w);
    InversePositive(amount, length, inverse);
    LengthScale(e, g, w);
  }

  lemma NoLength(e: Callbacks, w: Vec)
    requires Sound(e) && Length(e, w) == 0.0
    ensures w == ORIGIN
  {
    hide Sound, Length;
    LengthSquared(e, w);
    ZeroLength(w);
  }

  lemma ZeroScale(w: Vec)
    ensures Scale(0.0, w) == ORIGIN
  {}

  lemma NoScale(k: real)
    ensures Scale(k, ORIGIN) == ORIGIN
  {}

  lemma OriginDot(v: Vec)
    ensures Dot(ORIGIN, v) == 0.0
  {}

  lemma ScaleTwice(a: real, b: real, v: Vec)
    ensures Scale(a, Scale(b, v)) == Scale(a * b, v)
  {
    assert a * (b * v.x) == (a * b) * v.x && a * (b * v.y) == (a * b) * v.y && a * (b * v.z) == (a * b) * v.z;
  }

  lemma InversePositive(a: real, b: real, inverse: real)
    requires 0.0 < b && inverse == 1.0 / b
    ensures (a * inverse) * b == a && (0.0 <= a ==> 0.0 <= a * inverse) && (0.0 < a ==> 0.0 < a * inverse)
  {
    assert inverse * b == 1.0 && 0.0 < inverse;
    assert (a * inverse) * b == a * (inverse * b);
  }

  // ----- in the air -----

  /** Every way is clear. */
  ghost predicate Nothing(env: Env, hull: int, p: Vec) { forall b: Vec :: Free(env, hull, p, b) }

  /** Alive, not in a water jump or a current. */
  predicate Steers(env: Env, s: Mover) { !env.dead && s.waterjumptime == 0.0 && s.basevelocity == ORIGIN }

  /** What the keys ask for in the level of the view. */
  function Wanted(env: Env, s: Mover): Vec { Asked(FlattenView(env, s.view), s.keys) }

  /** In the air with nothing in the way a player's keys add velocity along what they ask for, and nothing
      else; from rest, as much as the acceleration gives, up to 30. */
  lemma AirSteers(env: Env, s: Mover) returns (g: real)
    requires Sound(env.engine) && Forwards(env) && Steers(env, s) && Nothing(env, s.stance.usehull, s.origin)
    ensures var s' := AirMove(env, s);
            && 0.0 <= g && s'.velocity == Add(s.velocity, Scale(g, Wanted(env, s)))
            && s'.origin == Add(s.origin, Scale(env.frametime, s'.velocity))
    ensures s.velocity == ORIGIN && 0.0 < AirGain(env, Wanted(env, s)) ==>
              0.0 < g && Length(env.engine, AirMove(env, s).velocity) == AirGain(env, Wanted(env, s))
  {
    hide Sound, Length, Normalize, Square, Dot, Pushed, FlyMove, Scale, Add, WishVelocity, Asked;
    FlattenedLevel(env, s.view);
    WishIsAsked(FlattenView(env, s.view), s.keys);
    var wish := Wanted(env, s);
    var speed := Min(Length(env.engine, wish), env.maxspeed);
    WishSpeedNonNegative(env, wish);
    PushNonNegative(env, speed, env.vars.airaccelerate);
    var push := AccelPush(env, speed, env.vars.airaccelerate);
    g := PushedMultiple(env.engine, s.velocity, wish, Min(speed, 30.0), push);
    var a := s.(velocity := Add(s.velocity, Scale(g, wish)), view := FlattenView(env, s.view));
    AddZero(a.velocity);
    AddZeroLeft(Scale(g, wish));
    FlyMoveFree(env, a);
    if wish == ORIGIN {
      LengthOrigin(env.engine);
    }
  }

  lemma AddZeroLeft(v: Vec)
    ensures Add(ORIGIN, v) == v
  {}

  // ----- on the ground -----

  /** The velocity of a walking move before anything gets in the way: what is left on the level, and more
      along what the keys ask for. */
  lemma WalkAccelerates(env: Env, s: Mover) returns (g: real)
    requires Sound(env.engine) && Forwards(env) && 0.0 <= env.vars.accelerate && Steers(env, s)
    ensures 0.0 <= g && WalkAccelerate(env, s) ==
                          s.(velocity := Add(Flat(s.velocity), Scale(g, Wanted(env, s))), view := FlattenView(env, s.view))
    ensures Flat(s.velocity) == ORIGIN && 0.0 < GroundGain(env, Wanted(env, s)) ==>
              0.0 < g && Length(env.engine, Scale(g, Wanted(env, s))) == GroundGain(env, Wanted(env, s))
  {
    hide Sound, Length, Normalize, Square, Dot, Pushed, Scale, WishVelocity;
    FlattenedLevel(env, s.view);
    WishIsAsked(FlattenView(env, s.view), s.keys);
    var wish := Wanted(env, s);
    var speed := Min(Length(env.engine, wish), env.maxspeed);
    WishSpeedNonNegative(env, wish);
    PushNonNegative(env, speed, env.vars.accelerate);
    g := PushedMultiple(env.engine, Flat(s.velocity), wish, speed, AccelPush(env, speed, env.vars.accelerate));
    LevelSum(s.velocity, g, FlattenView(env, s.view), s.keys);
    AddZero(Add(Flat(s.velocity), Scale(g, wish)));
    if wish == ORIGIN {
      LengthOrigin(env.engine);
    }
  }

  lemma LevelSum(v: Vec, g: real, w: View, k: Keys)
    requires Level(w)
    ensures Flat(Add(Flat(v), Scale(g, Asked(w, k)))) == Add(Flat(v), Scale(g, Asked(w, k)))
  {
    hide Square, Dot;
    assert k.forwardmove * 0.0 == 0.0 && k.sidemove * 0.0 == 0.0 && g * 0.0 == 0.0;
    assert Asked(w, k).z == 0.0;
  }

  /** On the ground with nothing in the way the player goes where the velocity takes him, for the frame; a
      crawl of less than one unit a second is standing still. */
  lemma WalkMoveFree(env: Env, s: Mover)
    requires Sound(env.engine)
    requires var v := WalkAccelerate(env, s).velocity;
             1.0 <= Length(env.engine, v) ==>
               Free(env, s.stance.usehull, s.origin, Add(s.origin, Scale(env.frametime, Flat(v))))
    ensures var a := WalkAccelerate(env, s);
            WalkMove(env, s) == if Length(env.engine, a.velocity) < 1.0 then a.(velocity := ORIGIN)
                                else a.(origin := Add(s.origin, Scale(env.frametime, Flat(a.velocity))))
  {
    hide Sound, WalkAccelerate, StepMove, Length, Scale, Add;
    WalkKeepsPlace(env, s);
    var a := WalkAccelerate(env, s);
    if 1.0 <= Length(env.engine, a.velocity) {
      FreeTrace(env.engine, s.stance.usehull, s.origin, Add(s.origin, Scale(env.frametime, Flat(a.velocity))));
    }
  }

  lemma WalkKeepsPlace(env: Env, s: Mover)
    ensures WalkAccelerate(env, s).origin == s.origin && WalkAccelerate(env, s).stance == s.stance
  {
    hide FlattenView, WishVelocity, Pushed, Normalize, Length, Add;
  }

  /** A walking move with nothing in the way: the player keeps his level velocity, gains along what the keys
      ask for and nowhere else, and goes there; from rest he gains what the acceleration gives. */
  lemma WalkSteers(env: Env, s: Mover) returns (g: real)
    requires Sound(env.engine) && Forwards(env) && 0.0 <= env.vars.accelerate && Steers(env, s)
    requires forall v: Vec :: Free(env, s.stance.usehull, s.origin, Add(s.origin, Scale(env.frametime, Flat(v))))
    ensures var v := Add(Flat(s.velocity), Scale(g, Wanted(env, s)));
            var s' := WalkMove(env, s);
            && 0.0 <= g
            && s' == s.(view := FlattenView(env, s.view),
                        velocity := if Length(env.engine, v) < 1.0 then ORIGIN else v,
                        origin := if Length(env.engine, v) < 1.0 then s.origin else Add(s.origin, Scale(env.frametime, v)))
    ensures Flat(s.velocity) == ORIGIN && 0.0 < GroundGain(env, Wanted(env, s)) ==>
              0.0 < g && Length(env.engine, Scale(g, Wanted(env, s))) == GroundGain(env, Wanted(env, s))
  {
    hide Sound, Length, Square, Dot, Scale, Add, WalkAccelerate, WalkMove, GroundGain, Forwards, Free, FlattenView;
    g := WalkAccelerates(env, s);
    var v := Add(Flat(s.velocity), Scale(g, Wanted(env, s)));
    FlattenedLevel(env, s.view);
    LevelSum(s.velocity, g, FlattenView(env, s.view), s.keys);
    WalkMoveFree(env, s);
  }

  // ----- which key goes where -----

  /** A player at rest with a level view, a top speed and some acceleration, and a key down. */
  predicate StartsFromRest(env: Env, s: Mover, accel: real) {
    && LevelView(s.view) && Flat(s.velocity) == ORIGIN && (s.keys.forwardmove != 0.0 || s.keys.sidemove != 0.0)
    && 0.0 < accel && 0.0 < env.frametime && 0.0 < env.friction && 0.0 < env.maxspeed
  }

  lemma RestPushed(env: Env, s: Mover, accel: real, most: real)
    requires Sound(env.engine) && StartsFromRest(env, s, accel) && 0.0 < most
    ensures Wanted(env, s) == Asked(s.view, s.keys) && 0.0 < Gain(env, Wanted(env, s), accel, most)
  {
    hide Sound, Length, FlattenView, Asked, Dot, LevelView, Flat, Gain;
    var a, b := FlattenLaw(env, s.view);
    SomethingAsked(env.engine, s.view, s.keys);
    GainPositive(env, Wanted(env, s), accel, most);
  }

  lemma SomethingAsked(e: Callbacks, w: View, k: Keys)
    requires Sound(e) && LevelView(w) && (k.forwardmove != 0.0 || k.sidemove != 0.0)
    ensures 0.0 < Length(e, Asked(w, k))
  {
    hide Sound, Length, Asked, Dot, LevelView;
    AskedParts(w, k);
    LengthSquared(e, Asked(w, k));
    if Length(e, Asked(w, k)) == 0.0 {
      NoLength(e, Asked(w, k));
      OriginDot(w.forward);
      OriginDot(w.right);
    }
  }

  lemma GainPositive(env: Env, wish: Vec, accel: real, most: real)
    requires 0.0 < Length(env.engine, wish) && 0.0 < most
    requires 0.0 < accel && 0.0 < env.frametime && 0.0 < env.friction && 0.0 < env.maxspeed
    ensures 0.0 < Gain(env, wish, accel, most)
  {
    hide Length, FrameShare;
    SharePositive(env, Min(Length(env.engine, wish), env.maxspeed), accel);
  }

  lemma SharePositive(env: Env, speed: real, accel: real)
    requires 0.0 < accel && 0.0 < env.frametime && 0.0 < speed && 0.0 < env.friction
    ensures 0.0 < FrameShare(env, speed, accel)
  {
    Products(accel, env.frametime, speed, env.friction);
  }

  lemma Products(a: real, b: real, c: real, d: real)
    requires 0.0 < a && 0.0 < b && 0.0 < c && 0.0 < d
    ensures 0.0 < a * b * c * d
  {
    assert 0.0 < a * b;
    assert 0.0 < a * b * c;
  }

  lemma PartsOfScaled(g: real, w: View, k: Keys)
    requires LevelView(w)
    ensures var v := Scale(g, Asked(w, k));
            Dot(v, w.forward) == g * k.forwardmove && Dot(v, w.right) == g * k.sidemove
  {
    hide Dot, Scale, Asked, LevelView;
    AskedParts(w, k);
    ScaleDot(g, Asked(w, k), w.forward);
    ScaleDot(g, Asked(w, k), w.right);
  }

  /** From rest in the air, each key gains its own direction by as much as it is pressed, with its sign, and
      nothing in the other's. */
  lemma AirKeys(env: Env, s: Mover) returns (g: real)
    requires Sound(env.engine) && Steers(env, s) && Nothing(env, s.stance.usehull, s.origin)
    requires StartsFromRest(env, s, env.vars.airaccelerate) && s.velocity == ORIGIN
    ensures var v := AirMove(env, s).velocity;
            0.0 < g && Dot(v, s.view.forward) == g * s.keys.forwardmove && Dot(v, s.view.right) == g * s.keys.sidemove
  {
    hide Sound, AirMove, Length, Dot, Scale, Asked, LevelView, Nothing, FlattenView, Gain;
    RestPushed(env, s, env.vars.airaccelerate, 30.0);
    g := AirSteers(env, s);
    AddZeroLeft(Scale(g, Wanted(env, s)));
    PartsOfScaled(g, s.view, s.keys);
  }

  /** On the ground likewise, once the gain makes a step of it. */
  lemma WalkKeys(env: Env, s: Mover) returns (g: real)
    requires Sound(env.engine) && Steers(env, s) && StartsFromRest(env, s, env.vars.accelerate) && 0.0 <= env.vars.airaccelerate
    requires forall v: Vec :: Free(env, s.stance.usehull, s.origin, Add(s.origin, Scale(env.frametime, Flat(v))))
    ensures var s' := WalkMove(env, s);
            && 0.0 < g
            && (1.0 <= GroundGain(env, Wanted(env, s)) ==>
                  && Dot(s'.velocity, s.view.forward) == g * s.keys.forwardmove
                  && Dot(s'.velocity, s.view.right) == g * s.keys.sidemove
                  && s'.origin == Add(s.origin, Scale(env.frametime, s'.velocity)))
  {
    hide Sound, WalkMove, Length, Dot, Add, Scale, Asked, LevelView, Free, FlattenView, Gain;
    RestPushed(env, s, env.vars.accelerate, env.maxspeed);
    g := WalkSteers(env, s);
    AddZeroLeft(Scale(g, Wanted(env, s)));
    PartsOfScaled(g, s.view, s.keys);
  }

  /** The keys of a dead player, or of one in a water jump, do nothing: with nothing in the way he drifts as he
      did, and on the ground all that changes is that the velocity is brought into the level. */
  lemma KeysDoNothing(env: Env, s: Mover)
    requires Sound(env.engine) && (env.dead || s.waterjumptime != 0.0)
    ensures WalkAccelerate(env, s).velocity == Add(Flat(s.velocity), s.basevelocity)
    ensures var v := Add(s.velocity, s.basevelocity);
            var s' := AirMove(env, s);
            Free(env, s.stance.usehull, s.origin, Add(s.origin, Scale(env.frametime, v))) ==>
              s'.velocity == v && s'.origin == Add(s.origin, Scale(env.frametime, v))
  {
    hide Sound, FlyMove, FlattenView, WishVelocity, Pushed, Normalize, Length, Add, Scale, Free;
    var a := AddBase(s.(view := FlattenView(env, s.view)));
    if Free(env, s.stance.usehull, s.origin, Add(s.origin, Scale(env.frametime, a.velocity))) {
      FlyMoveFree(env, a);
    }
  }

  // ----- friction -----

  /** The friction underfoot: of the edge where nothing is within 34 units below the bottom of the hull, 16
      units ahead. */
  function Underfoot(env: Env, s: Mover): real {
    var ahead := Add(s.origin, Scale(16.0, Flat(Normalize(env.engine, s.velocity))));
    var start := WithZ(ahead, s.origin.z + HullMins(s.stance.usehull).z);
    var edge := env.engine.playerTrace(s.stance.usehull, start, Sub(start, Up(34.0))).fraction == 1.0;
    env.friction * (env.vars.friction * (if edge then env.vars.edgefriction else 1.0))
  }

  lemma AheadOf(e: Callbacks, p: Vec, v: Vec, z: real, speed: real)
    requires speed == Length(e, v) && speed != 0.0
    ensures Add(p, Vec(v.x / speed * 16.0, v.y / speed * 16.0, z)) ==
            WithZ(Add(p, Scale(16.0, Flat(Normalize(e, v)))), p.z + z)
  {
    hide Length;
    assert v.x / speed == 1.0 / speed * v.x && v.y / speed == 1.0 / speed * v.y;
  }

  lemma UnderfootIs(env: Env, s: Mover, speed: real)
    requires speed == Length(env.engine, s.velocity) && speed != 0.0
    ensures GroundFriction(env, s.stance.usehull, s.origin, s.velocity, speed) == Underfoot(env, s)
  {
    hide Length, Normalize, Add, Scale, Sub, HullMins;
    AheadOf(env.engine, s.origin, s.velocity, HullMins(s.stance.usehull).z, speed);
    assert env.vars.friction * 1.0 == env.vars.friction;
  }

  /** What friction leaves of the speed on the ground: it takes what the greater of speed and stop speed loses in
      the frame, down to nothing; a speed under 0.1 is left alone. */
  function SpeedOnGround(env: Env, s: Mover): real {
    var speed := Length(env.engine, s.velocity);
    var lost := (if speed < env.vars.stopspeed then env.vars.stopspeed else speed) * Underfoot(env, s) * env.frametime;
    if speed < 0.1 then speed else if speed < lost then 0.0 else speed - lost
  }

  /** Friction takes its share of the speed on the ground, none in the air, and keeps the direction. */
  lemma FrictionExact(env: Env, s: Mover) returns (r: real)
    requires Sound(env.engine) && s.waterjumptime == 0.0 && 0.0 <= env.frametime && 0.0 <= env.vars.stopspeed
    requires 0.0 <= Underfoot(env, s)
    ensures var s' := Friction(env, s);
            && 0.0 <= r <= 1.0 && s' == s.(velocity := Scale(r, s.velocity))
            && Length(env.engine, s'.velocity) ==
                 if s.onground == -1 then Length(env.engine, s.velocity) else SpeedOnGround(env, s)
  {
    hide Sound, Length, Scale, GroundFriction, Underfoot, Slowed;
    var speed := Length(env.engine, s.velocity);
    LengthSquared(env.engine, s.velocity);
    r := 1.0;
    ScaleOne(s.velocity);
    if 0.1 <= speed {
      UnderfootIs(env, s, speed);
      var drop := if s.onground == -1 then 0.0 else Drop(env, speed, Underfoot(env, s));
      DropNonNegative(env, speed, Underfoot(env, s));
      SlowedLength(env.engine, s.velocity, drop);
      r := SpeedAfter(speed, drop) / speed;
      SlowedScale(s.velocity, speed, drop);
    }
  }

  lemma SlowedScale(v: Vec, speed: real, drop: real)
    requires speed != 0.0
    ensures Slowed(v, speed, drop) == Scale(SpeedAfter(speed, drop) / speed, v)
  {}

  lemma DropNonNegative(env: Env, speed: real, friction: real)
    requires 0.0 <= speed && 0.0 <= friction && 0.0 <= env.frametime && 0.0 <= env.vars.stopspeed
    ensures 0.0 <= Drop(env, speed, friction)
  {
    var control := if speed < env.vars.stopspeed then env.vars.stopspeed else speed;
    ProductMonotone(0.0, 0.0, control, friction);
    ProductMonotone(0.0, 0.0, control * friction, env.frametime);
  }

  // ----- a frame of walking on the floor -----

  /** A player on the floor of an open world, on his feet, with neither duck nor jump key down, not slowed by
      +use, within the speed limit. */
  ghost predicate OnTheFloor(env: Env, sqrt: real -> real, s: Mover) {
    && env.engine == FloorWorld(sqrt) && s.origin.z + HullMins(s.stance.usehull).z == 0.0
    && !Crouched(s.stance) && !env.cmd.duck && !env.cmd.jump && !(env.cmd.use && env.slowOnUse)
    && !env.dead && s.waterjumptime == 0.0 && s.basevelocity == ORIGIN && s.velocity.z <= 180.0
    && Limited(s.velocity, env.vars.maxvelocity)
  }

  /** The player when the frame comes to move: on the ground and dry. */
  lemma ReadyOnFloor(env: Env, sqrt: real -> real, s: Mover)
    requires OnTheFloor(env, sqrt, s)
    ensures var d := Ready(env, s);
            && d == Dry(StartFrame(env, s)).(onground := 0, keys := d.keys)
            && (d.keys.forwardmove, d.keys.sidemove) == (env.cmd.forwardmove, env.cmd.sidemove)
  {
    hide FloorWorld, CatagorizePosition, UnDuck, HoldDuck, Scale, Limited, HullMins;
    var s1 := StartFrame(env, s);
    FindsFloor(env, sqrt, s1, 0.0);
    LowerNone(s1.origin);
  }

  lemma ClampedSame(v: Vec, m: real)
    requires Limited(v, m)
    ensures Clamped(v, m) == v
  {}

  lemma LevelFree(env: Env, sqrt: real -> real, hull: int, p: Vec, step: Vec)
    requires env.engine == FloorWorld(sqrt) && p.z + HullMins(hull).z == 0.0 && step.z == 0.0
    ensures Free(env, hull, p, Add(p, step))
  {
    hide HullMins;
    assert Fallen(p.z + HullMins(hull).z, Add(p, step).z + HullMins(hull).z) == 1.0;
  }

  /** Half a frame of gravity does nothing to the level velocity within the limit. */
  lemma GravityFlat(env: Env, v: Vec)
    requires Limited(v, env.vars.maxvelocity)
    ensures Flat(FirstHalf(env, v, ORIGIN)) == Flat(v) && Flat(SecondHalf(env, 0.0, v)) == Flat(v)
  {
    hide HalfGravity;
  }

  lemma ScaledLimited(v: Vec, r: real, m: real)
    requires Limited(v, m) && 0.0 <= r <= 1.0
    ensures Limited(Scale(r, Flat(v)), m) && Scale(r, Flat(v)).z == 0.0 && Flat(Scale(r, Flat(v))) == Scale(r, Flat(v))
  {
    ShrunkBetween(v.x, r, m);
    ShrunkBetween(v.y, r, m);
    assert r * 0.0 == 0.0;
  }

  lemma ShrunkBetween(x: real, r: real, m: real)
    requires -m <= x <= m && 0.0 <= r <= 1.0
    ensures -m <= r * x <= m
  {
    var y := r * x;
    var part := ShrunkPart(if 0.0 <= x then x else -x, r);
    assert y == part || y == -part;
  }

  lemma ShrunkPart(x: real, r: real) returns (part: real)
    requires 0.0 <= x && 0.0 <= r <= 1.0
    ensures part == r * x && 0.0 <= part <= x
  {
    part := r * x;
    var rest := 1.0 - r;
    ProductNonNegative(r, x);
    ProductNonNegative(rest, x);
    assert rest * x == x - r * x;
  }

  /** Acceleration and friction do not run backwards. */
  predicate GroundForwards(env: Env) {
    && Forwards(env) && 0.0 <= env.vars.accelerate && 0.0 <= env.vars.stopspeed
    && 0.0 <= env.vars.friction && 0.0 <= env.vars.edgefriction
  }

  lemma UnderfootNonNegative(env: Env, s: Mover)
    requires GroundForwards(env)
    ensures 0.0 <= Underfoot(env, s)
  {
    hide Normalize, Add, Scale, Sub, Flat;
    ProductMonotone(0.0, 0.0, env.vars.friction, env.vars.edgefriction);
    ProductMonotone(0.0, 0.0, env.friction, env.vars.friction * env.vars.edgefriction);
    ProductMonotone(0.0, 0.0, env.friction, env.vars.friction * 1.0);
  }

  /** The command's view and keys. */
  function CmdView(c: Cmd): View { View(c.forward, c.right, c.up) }

  function CmdKeys(c: Cmd): Keys { Keys(false, false, c.forwardmove, c.sidemove, c.upmove) }

  /** From the ground, dry, to the walking move: gravity leaves the level velocity alone and friction scales it. */
  lemma DragOnFloor(env: Env, d: Mover) returns (r: real)
    requires Sound(env.engine) && GroundForwards(env) && d.waterjumptime == 0.0 && d.basevelocity == ORIGIN
    requires d.onground == 0 && d.waterlevel == 0 && !env.cmd.jump && Limited(d.velocity, env.vars.maxvelocity)
    ensures var b := JumpButton(env, AddCorrectGravity(env, d));
            && 0.0 <= r <= 1.0
            && CheckVelocity(env, GroundDrag(env, b)) == d.(velocity := Scale(r, Flat(d.velocity)), keys := b.keys)
            && b.keys == d.keys.(oldJump := false)
            && Length(env.engine, Scale(r, Flat(d.velocity))) == SpeedOnGround(env, d.(velocity := Flat(d.velocity)))
  {
    hide Sound, FirstHalf, Friction, Clamped, Scale, Underfoot, GroundForwards, Limited, Flat;
    var b := JumpButton(env, AddCorrectGravity(env, d));
    GravityFlat(env, d.velocity);
    FlatNone();
    var level := b.(velocity := Flat(d.velocity));
    UnderfootNonNegative(env, level);
    assert 0.0 <= env.frametime && 0.0 <= env.vars.stopspeed by { ForwardsTime(env); }
    r := FrictionExact(env, level);
    SameFeet(env, level, d.(velocity := Flat(d.velocity)));
    ScaledLimited(d.velocity, r, env.vars.maxvelocity);
    ClampedSame(Scale(r, Flat(d.velocity)), env.vars.maxvelocity);
  }

  lemma SameFeet(env: Env, a: Mover, b: Mover)
    requires a.origin == b.origin && a.velocity == b.velocity && a.stance.usehull == b.stance.usehull
    ensures SpeedOnGround(env, a) == SpeedOnGround(env, b)
  {
    hide Length, Normalize;
  }

  lemma ForwardsTime(env: Env)
    requires GroundForwards(env)
    ensures 0.0 <= env.frametime && 0.0 <= env.vars.stopspeed && Forwards(env) && 0.0 <= env.vars.accelerate
  {}

  lemma FlatNone()
    ensures Flat(ORIGIN) == ORIGIN
  {}

  /** From the walking move to the end of the frame: on the floor, with the velocity of the move. */
  lemma EndsOnFloor(env: Env, sqrt: real -> real, m: Mover)
    requires env.engine == FloorWorld(sqrt) && m.origin.z + HullMins(m.stance.usehull).z == 0.0
    requires m.velocity.z == 0.0 && m.basevelocity == ORIGIN && Limited(m.velocity, env.vars.maxvelocity)
    ensures var s' := EndStep(env, CheckVelocity(env, RemoveBase(CatagorizePosition(env, m))));
            s' == Dry(m).(onground := 0, waterjumptime := 0.0)
  {
    hide FloorWorld, CatagorizePosition, Clamped, SecondHalf, HullMins, Limited;
    FindsFloor(env, sqrt, m, 0.0);
    LowerNone(m.origin);
    SubNone(m.velocity);
    ClampedSame(m.velocity, env.vars.maxvelocity);
    GravityFlat(env, m.velocity);
  }

  lemma SubNone(v: Vec)
    ensures Sub(v, ORIGIN) == v
  {}

  /** A frame of walking on an open floor: friction leaves the player part of his level velocity, the keys add
      along what they ask for, and he goes there and stays on the floor. */
  lemma FloorWalk(env: Env, sqrt: real -> real, s: Mover) returns (r: real, g: real)
    requires Sound(env.engine) && GroundForwards(env) && OnTheFloor(env, sqrt, s)
    ensures var v := Add(Scale(r, Flat(s.velocity)), Scale(g, Asked(FlattenView(env, CmdView(env.cmd)), CmdKeys(env.cmd))));
            var s' := PlayerMove(env, s);
            && 0.0 <= r <= 1.0 && 0.0 <= g
            && Length(env.engine, Scale(r, Flat(s.velocity))) == SpeedOnGround(env, s.(velocity := Flat(s.velocity)))
            && (1.0 <= Length(env.engine, v) && Limited(v, env.vars.maxvelocity) ==>
                  s'.velocity == v && s'.origin == Add(s.origin, Scale(env.frametime, v)) && s'.onground == 0)
            && (Length(env.engine, v) < 1.0 && 0.0 <= env.vars.maxvelocity ==>
                  s'.velocity == ORIGIN && s'.origin == s.origin && s'.onground == 0)
    ensures var asked := Asked(FlattenView(env, CmdView(env.cmd)), CmdKeys(env.cmd));
            Flat(s.velocity) == ORIGIN && 0.0 < GroundGain(env, asked) ==>
              0.0 < g && Length(env.engine, Scale(g, asked)) == GroundGain(env, asked)
  {
    hide Sound, FloorWorld, Ready, JumpButton, GroundDrag, CheckVelocity, WalkMove, CatagorizePosition, EndStep, RemoveBase;
    hide Length, Scale, Add, Limited, Forwards, Flat, Asked, FlattenView, SpeedOnGround, GroundForwards, GroundGain;
    assert Forwards(env) && 0.0 <= env.vars.accelerate by { ForwardsTime(env); }
    var d := Ready(env, s);
    ReadyOnFloor(env, sqrt, s);
    r := DragOnFloor(env, d);
    SameFeet(env, d.(velocity := Flat(d.velocity)), s.(velocity := Flat(s.velocity)));
    NoScale(r);
    var a := CheckVelocity(env, GroundDrag(env, JumpButton(env, AddCorrectGravity(env, d))));
    ScaledLimited(s.velocity, r, env.vars.maxvelocity);
    forall v: Vec ensures Free(env, a.stance.usehull, a.origin, Add(a.origin, Scale(env.frametime, Flat(v)))) {
      LevelStep(env.frametime, v);
      LevelFree(env, sqrt, a.stance.usehull, a.origin, Scale(env.frametime, Flat(v)));
    }
    g := WalkSteers(env, a);
    var w := FlattenView(env, a.view);
    SameAsked(w, a.keys, CmdKeys(env.cmd));
    var v := Add(Flat(a.velocity), Scale(g, Asked(w, a.keys)));
    FlattenedLevel(env, a.view);
    LevelSum(a.velocity, g, w, a.keys);
    var m := WalkMove(env, a);
    if 1.0 <= Length(env.engine, v) && Limited(v, env.vars.maxvelocity) {
      LevelMove(a.origin, env.frametime, v);
      EndsOnFloor(env, sqrt, m);
    } else if Length(env.engine, v) < 1.0 && 0.0 <= env.vars.maxvelocity {
      StillLimited(env.vars.maxvelocity);
      EndsOnFloor(env, sqrt, m);
    }
  }

  lemma LevelStep(time: real, v: Vec)
    ensures Scale(time, Flat(v)).z == 0.0
  {}

  lemma SameAsked(w: View, k: Keys, k': Keys)
    requires k.forwardmove == k'.forwardmove && k.sidemove == k'.sidemove
    ensures Asked(w, k) == Asked(w, k')
  {}

  lemma LevelMove(p: Vec, time: real, v: Vec)
    requires Flat(v) == v
    ensures Add(p, Scale(time, v)).z == p.z && v.z == 0.0
  {
    assert time * 0.0 == 0.0;
  }

  lemma StillLimited(m: real)
    requires 0.0 <= m
    ensures Limited(ORIGIN, m) && ORIGIN.z == 0.0
  {}

  // ----- the ground, and steps -----

  /** The player is on the ground if and only if he does not rise faster than 180 and the trace two units down
      finds a plane that is not too steep; then it is on the entity hit, which ends a water jump. */
  lemma GroundIff(env: Env, s: Mover)
    requires Sound(env.engine)
    ensures var down := Vec(s.origin.x, s.origin.y, s.origin.z - 2.0);
            var t := env.engine.playerTrace(s.stance.usehull, s.origin, down);
            var s' := CatagorizePosition(env, s);
            && (s'.onground != -1 <==> s.velocity.z <= 180.0 && 0.7 <= t.normal.z)
            && (s'.onground != -1 ==> s'.onground == t.ent && s'.waterjumptime == 0.0)
            && (s'.onground == -1 ==> s'.origin == s.origin && s'.waterjumptime == s.waterjumptime)
            && (s.velocity.z <= 180.0 && t.ent > 0 ==> Touches(s'.touch, t.ent))
  {
    hide ProbeWater, Clear, TestSound, NestedBoxClear, SqrtSound, Add;
    var down := Vec(s.origin.x, s.origin.y, s.origin.z - 2.0);
    assert Sub(s.origin, Up(2.0)) == down;
    assert TraceSound(env.engine, s.stance.usehull, s.origin, down);
    var t := env.engine.playerTrace(s.stance.usehull, s.origin, down);
    if t.ent > 0 && !Touches(s.touch, t.ent) {
      assert AddToTouched(s.touch, t, s.velocity)[|s.touch|].trace.ent == t.ent;
    }
  }

  /** With nothing in the way the lifted slide goes up one step and on at the velocity. */
  lemma LiftedFree(env: Env, s: Mover)
    requires Sound(env.engine)
    requires var high := Vec(s.origin.x, s.origin.y, s.origin.z + env.vars.stepsize);
             && Free(env, s.stance.usehull, s.origin, high) && Open(env.engine.playerTrace(s.stance.usehull, s.origin, high))
             && Free(env, s.stance.usehull, high, Add(high, Scale(env.frametime, s.velocity)))
    ensures var high := Vec(s.origin.x, s.origin.y, s.origin.z + env.vars.stepsize);
            Lifted(env, s) == s.(origin := Add(high, Scale(env.frametime, s.velocity)))
  {
    hide Sound, FlyMove, Scale;
    var high := Vec(s.origin.x, s.origin.y, s.origin.z + env.vars.stepsize);
    assert Add(s.origin, Up(env.vars.stepsize)) == high;
    FreeTrace(env.engine, s.stance.usehull, s.origin, high);
    FlyMoveFree(env, s.(origin := high));
  }

  /** Where the way is not free, a player in the air out of water, or one who water jumps, is left where he is
      with the velocity he has; any other tries the step. */
  lemma WalkMoveBlocked(env: Env, s: Mover)
    requires var a := WalkAccelerate(env, s);
             && 1.0 <= Length(env.engine, a.velocity)
             && Tracing(env, a, a.origin, Add(a.origin, Scale(env.frametime, Flat(a.velocity)))).fraction != 1.0
    ensures var a := WalkAccelerate(env, s);
            WalkMove(env, s) == if (s.onground == -1 && s.waterlevel == 0) || s.waterjumptime != 0.0 then a
                                else StepMove(env, a)
  {
    hide StepMove, Length, Scale, Add, FlattenView, WishVelocity, Pushed, Normalize;
  }
}
