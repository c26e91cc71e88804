/** Detection of the server's +use slowdown method: a state machine over the player's speed. */
module SlowDown {
  import opened Vectors
  import opened Engine

  const DETECT_MIN := 0.25
  const DETECT_MAX := 0.4
  const DROPS_NEEDED := 5

  datatype Method = Old | New | AutoDetect

  /** Low is under a quarter of the top speed, high is two fifths or more. */
  datatype Level = Low | Mid | High

  datatype State = None | At(level: Level) | Done

  datatype Detector = Detector(kind: Method, state: State, count: nat)

  /** What a command tells the detector: +use is not in effect, or it is with the player standing or
      hardly moving, or moving at some level of speed. */
  datatype Event = NotUsing | UsingStill | Moving(level: Level)

  /** The part of a player's command that the detector looks at. */
  datatype Command = Command(maxspeed: real, velocity: Vec, onground: int, use: bool, keys: WalkKeys)

  /** The walking keys that are looked for: the mask names the forward key twice and the back key not at
      all. */
  predicate Walking(keys: WalkKeys) { keys.forward || keys.forward || keys.left || keys.right }

  function LevelOf(speed: real, maxspeed: real): Level {
    if speed >= DETECT_MAX * maxspeed then High else if speed >= DETECT_MIN * maxspeed then Mid else Low
  }

  function Length2DSqr(v: Vec): real { v.x * v.x + v.y * v.y }

  function EventOf(sqrt: real -> real, c: Command): Event {
    var square := Length2DSqr(c.velocity);
    if c.onground == -1 || !c.use then NotUsing
    else if !Walking(c.keys) || square < 25.0 then UsingStill
    else Moving(LevelOf(sqrt(square), c.maxspeed))
  }

  function Reset(d: Detector): Detector { d.(state := None, count := 0) }

  function ActualMethod(d: Detector): Method {
    if d.kind == AutoDetect then (if d.state == Done then Old else New) else d.kind
  }

  /** A sudden slowdown is counted; a sudden speedup starts the count again; the fifth slowdown decides. */
  function Observe(d: Detector, level: Level): Detector {
    var count := if d.state == At(High) && level == Low then d.count + 1
                 else if d.state == At(Low) && level == High then 0
                 else d.count;
    if count >= DROPS_NEEDED then d.(state := Done, count := 0) else d.(state := At(level), count := count)
  }

  function Next(d: Detector, ev: Event): Detector {
    if ev == NotUsing then (if d.state == Done then d else Reset(d))
    else if d.kind != AutoDetect || d.state == Done then d
    else match ev
      case Moving(level) => Observe(d, level)
      case _ => Reset(d)
  }

  function SetMethod(d: Detector, kind: Method): Detector {
    (if d.kind != AutoDetect && kind == AutoDetect then Reset(d) else d).(kind := kind)
  }

  // ----- the code -----

  class SlowDownState {
    var kind: Method
    var state: State
    var count: nat

    function Value(): Detector
      reads this
    {
      Detector(kind, state, count)
    }

    constructor ()
      ensures Value() == Detector(New, None, 0)
    {
      kind, state, count := New, None, 0;
    }

    method ResetDetection()
      modifies this
      ensures Value() == Reset(old(Value()))
    {
      state := None;
      count := 0;
    }

    method SetUseSlowDownType(value: Method)
      modifies this
      ensures Value() == SetMethod(old(Value()), value)
    {
      if kind != AutoDetect && value == AutoDetect {
        ResetDetection();
      }
      kind := value;
    }

    /** The +use part of a player's command: slow the player down where the old method is in force, and
        otherwise learn what the server does. */
    method Use(sqrt: real -> real, c: Command) returns (slowed: Vec)
      modifies this
      ensures Value() == Next(old(Value()), EventOf(sqrt, c))
      ensures slowed == if c.onground != -1 && c.use && ActualMethod(old(Value())) == Old
                        then Scale(0.3, c.velocity) else c.velocity
    {
      hide Scale, Length2DSqr;
      slowed := c.velocity;
      var square := Length2DSqr(c.velocity);
      if c.onground != -1 && c.use {
        if ActualMethod(Value()) == Old {
          slowed := Scale(0.3, c.velocity);
        } else if kind == AutoDetect && state != Done {
          if (c.keys.forward || c.keys.forward || c.keys.left || c.keys.right) && square >= 25.0 {
            var oldState := state;
            var newState;
            var speed := sqrt(square);
            if speed >= DETECT_MAX * c.maxspeed {
              newState := At(High);
            } else if speed >= DETECT_MIN * c.maxspeed {
              newState := At(Mid);
            } else {
              newState := At(Low);
            }
            if oldState == At(High) && newState == At(Low) {
              count := count + 1;
            } else if oldState == At(Low) && newState == At(High) {
              ResetDetection();
            }
            if count >= DROPS_NEEDED {
              ResetDetection();
              state := Done;
            } else {
              state := newState;
            }
          } else {
            ResetDetection();
          }
        }
      } else if state != Done {
        ResetDetection();
      }
    }
  }

  // ----- runs -----

  function Run(d: Detector, events: seq<Event>): Detector {
    if events == [] then d else Next(Run(d, events[..|events| - 1]), events[|events| - 1])
  }

  /** The number of times high speed is followed at once by low speed. */
  function Drops(levels: seq<Level>): nat {
    var n := |levels|;
    if n < 2 then 0 else Drops(levels[..n - 1]) + (if levels[n - 2] == High && levels[n - 1] == Low then 1 else 0)
  }

  /** Low speed is never followed at once by high speed. */
  predicate Steady(levels: seq<Level>) {
    forall i :: 0 <= i < |levels| - 1 ==> !(levels[i] == Low && levels[i + 1] == High)
  }

  predicate AllMoving(events: seq<Event>) { forall i :: 0 <= i < |events| ==> events[i].Moving? }

  function Levels(events: seq<Event>): (r: seq<Level>)
    requires AllMoving(events)
    ensures |r| == |events| && forall i :: 0 <= i < |r| ==> r[i] == events[i].level
  {
    seq(|events|, i requires 0 <= i < |events| => events[i].level)
  }

  /** The evidence for the old method: an unbroken stretch of moving commands, without a sudden speedup
      and with five sudden slowdowns. */
  ghost predicate Evidence(events: seq<Event>, a: nat, b: nat) {
    a <= b <= |events| && AllMoving(events[a..b]) &&
    Steady(Levels(events[a..b])) && Drops(Levels(events[a..b])) >= DROPS_NEEDED
  }

  /** The levels observed since the detector last started counting. */
  function Streak(events: seq<Event>): seq<Level> {
    if events == [] then []
    else
      var s := Streak(events[..|events| - 1]);
      match events[|events| - 1]
      case Moving(level) => if s != [] && s[|s| - 1] == Low && level == High then [High] else s + [level]
      case _ => []
  }

  function Last(s: seq<Level>): State { if s == [] then None else At(s[|s| - 1]) }

  lemma DropsSnoc(s: seq<Level>, level: Level)
    ensures Drops(s + [level]) == Drops(s) + (if Last(s) == At(High) && level == Low then 1 else 0)
  {
    assert (s + [level])[..|s|] == s;
  }

  function Start(): Detector { Detector(AutoDetect, None, 0) }

  predicate Reaches(events: seq<Event>, b: nat) {
    b <= |events| && Drops(Streak(events[..b])) >= DROPS_NEEDED
  }

  /** Some prefix had a streak with five drops. */
  ghost predicate Decided(events: seq<Event>) { exists b: nat :: Reaches(events, b) }

  lemma DecidedSnoc(events: seq<Event>)
    requires events != []
    ensures Decided(events) <==> Decided(events[..|events| - 1]) || Drops(Streak(events)) >= DROPS_NEEDED
  {
    hide Drops, Streak;
    var n := |events|;
    var before := events[..n - 1];
    assert events[..n] == events;
    assert Reaches(events, n) <==> Drops(Streak(events)) >= DROPS_NEEDED;
    forall b: nat | b < n ensures Reaches(events, b) <==> Reaches(before, b) {
      assert before[..b] == events[..b];
    }
  }

  /** Until it is done the detector's state is the last level of the streak and its count the drops in
      it, always fewer than five. */
  lemma {:induction false} RunTracksStreak(events: seq<Event>)
    ensures var d := Run(Start(), events);
            && d.kind == AutoDetect
            && (d.state != Done ==> d.state == Last(Streak(events)) && d.count == Drops(Streak(events)) < DROPS_NEEDED)
            && (d.state == Done ==> d.count == 0)
            && (d.state == Done <==> Decided(events))
  {
    hide Decided, Drops;
    if events == [] {
      NothingDecided();
    } else {
      var before := events[..|events| - 1];
      RunTracksStreak(before);
      DecidedSnoc(events);
      var s := Streak(before);
      var ev := events[|events| - 1];
      FewDrops();
      if ev.Moving? {
        DropsSnoc(s, ev.level);
      }
    }
  }

  lemma FewDrops()
    ensures Drops([]) == 0 && forall level :: Drops([level]) == 0
  {}

  lemma NothingDecided()
    ensures !Decided([]) && Drops([]) == 0
  {}

  // ----- the streak and the evidence -----

  /** The streak is made of the last commands, all moving, without a sudden speedup. */
  lemma {:induction false} StreakIsSteady(events: seq<Event>)
    ensures var a := |events| - |Streak(events)|;
            0 <= a && AllMoving(events[a..]) && Levels(events[a..]) == Streak(events) && Steady(Streak(events))
  {
    if events != [] {
      var n := |events|;
      var before, last := events[..n - 1], events[n - 1];
      StreakIsSteady(before);
      var s, t := Streak(before), Streak(events);
      if |t| > 1 {
        var a := n - |t|;
        assert t == s + [last.level] && |s| == |before[a..]|;
        assert events[a..] == before[a..] + [last];
        LevelsSnoc(before[a..], last);
        SteadySnoc(s, last.level);
      } else if |t| == 1 {
        assert events[n - 1..] == [last];
      }
    }
  }

  lemma LevelsSnoc(events: seq<Event>, last: Event)
    requires AllMoving(events) && last.Moving?
    ensures AllMoving(events + [last]) && Levels(events + [last]) == Levels(events) + [last.level]
  {}

  lemma SteadySnoc(levels: seq<Level>, level: Level)
    requires Steady(levels) && !(levels != [] && levels[|levels| - 1] == Low && level == High)
    ensures Steady(levels + [level])
  {}

  /** Any steady stretch of moving commands that ends now is the end of the streak. */
  lemma {:induction false} SteadyInStreak(events: seq<Event>, a: nat) returns (head: seq<Level>)
    requires a <= |events| && AllMoving(events[a..]) && Steady(Levels(events[a..]))
    ensures Streak(events) == head + Levels(events[a..])
  {
    var n := |events|;
    if a == n {
      head := Streak(events);
    } else {
      var before, level := events[..n - 1], events[a..][n - 1 - a].level;
      var l := Levels(before[a..]);
      assert events[a..] == before[a..] + [events[n - 1]];
      assert Levels(events[a..]) == l + [level];
      SteadyInit(l, level);
      head := SteadyInStreak(before, a);
      if Streak(events) == [level] {
        head := [];
      }
    }
  }

  lemma SteadyInit(levels: seq<Level>, level: Level)
    requires Steady(levels + [level])
    ensures Steady(levels) && (Last(levels) == At(Low) ==> level != High)
  {
    forall i | 0 <= i < |levels| - 1 ensures !(levels[i] == Low && levels[i + 1] == High) {
      var both := levels + [level];
      assert !(both[i] == Low && both[i + 1] == High);
    }
    if levels != [] {
      var both, k := levels + [level], |levels| - 1;
      assert !(both[k] == Low && both[k + 1] == High);
    }
  }

  lemma {:induction false} DropsOfSuffix(levels: seq<Level>, k: nat)
    requires k <= |levels|
    ensures Drops(levels[k..]) <= Drops(levels)
  {
    var n := |levels|;
    if k < n {
      DropsOfSuffix(levels[..n - 1], k);
      assert levels[..n - 1][k..] == levels[k..][..n - 1 - k];
    }
  }

  lemma DecidedHasEvidence(events: seq<Event>, b: nat) returns (a: nat)
    requires Reaches(events, b)
    ensures Evidence(events, a, b)
  {
    hide Drops, Streak;
    StreakIsSteady(events[..b]);
    a := b - |Streak(events[..b])|;
    assert events[..b][a..] == events[a..b];
  }

  lemma EvidenceDecides(events: seq<Event>, a: nat, b: nat)
    requires Evidence(events, a, b)
    ensures Reaches(events, b)
  {
    hide Drops, Streak, Steady;
    assert events[..b][a..] == events[a..b];
    var head := SteadyInStreak(events[..b], a);
    assert Streak(events[..b])[|head|..] == Levels(events[a..b]);
    DropsOfSuffix(Streak(events[..b]), |head|);
  }

  /** A detector that starts afresh has decided for the old method exactly when somewhere in the commands
      there is the evidence for it. */
  lemma DoneIffEvidence(events: seq<Event>)
    ensures Run(Start(), events).state == Done <==> exists a: nat, b: nat :: Evidence(events, a, b)
  {
    hide Run, Evidence, Reaches;
    RunTracksStreak(events);
    if Decided(events) {
      var b: nat :| Reaches(events, b);
      var a := DecidedHasEvidence(events, b);
    }
    if exists a: nat, b: nat :: Evidence(events, a, b) {
      var a: nat, b: nat :| Evidence(events, a, b);
      EvidenceDecides(events, a, b);
    }
  }

  lemma {:induction false} DoneStaysDone(d: Detector, events: seq<Event>)
    requires d.state == Done
    ensures Run(d, events) == d
  {
    if events != [] {
      DoneStaysDone(d, events[..|events| - 1]);
    }
  }

  /** Moving is at least 5 units a second on the level, with +use and a walking key on the ground; the level of
      the speed is low under a quarter of the top speed and high from two fifths. */
  lemma EventBySpeed(sqrt: real -> real, c: Command)
    requires forall x :: 0.0 <= x ==> 0.0 <= sqrt(x) && sqrt(x) * sqrt(x) == x
    requires 0.0 <= c.maxspeed
    ensures var square := c.velocity.x * c.velocity.x + c.velocity.y * c.velocity.y;
            var top := c.maxspeed * c.maxspeed;
            var ev := EventOf(sqrt, c);
            && (ev == NotUsing <==> c.onground == -1 || !c.use)
            && (ev.Moving? <==> c.onground != -1 && c.use && Walking(c.keys) && 25.0 <= square)
            && (ev.Moving? ==> (ev.level == Low <==> 16.0 * square < top) && (ev.level == High <==> 4.0 * top <= 25.0 * square))
  {
    var square := Length2DSqr(c.velocity);
    assert 0.0 <= c.velocity.x * c.velocity.x && 0.0 <= c.velocity.y * c.velocity.y;
    var speed := sqrt(square);
    CompareSquares(speed, 0.25 * c.maxspeed);
    CompareSquares(speed, 0.4 * c.maxspeed);
    assert (0.25 * c.maxspeed) * (0.25 * c.maxspeed) == 0.0625 * (c.maxspeed * c.maxspeed);
    assert (0.4 * c.maxspeed) * (0.4 * c.maxspeed) == 0.16 * (c.maxspeed * c.maxspeed);
  }

  lemma CompareSquares(a: real, b: real)
    requires 0.0 <= a && 0.0 <= b
    ensures a < b <==> a * a < b * b
  {
    if a < b {
      SquareStrict(a, b);
    } else {
      ProductMonotone(b, b, a, a);
    }
  }

  /** A player who only walks backwards teaches the detector nothing, however the server slows him down. */
  lemma {:induction false} BackwardsUnseen(sqrt: real -> real, commands: seq<Command>, events: seq<Event>)
    requires |commands| == |events| && forall i :: 0 <= i < |events| ==> events[i] == EventOf(sqrt, commands[i])
    requires forall i :: 0 <= i < |events| ==> !Walking(commands[i].keys)
    ensures Run(Start(), events) == Start()
  {
    hide EventOf;
    if events != [] {
      var n := |events| - 1;
      BackwardsUnseen(sqrt, commands[..n], events[..n]);
      StandingUnseen(sqrt, commands[n]);
    }
  }

  lemma StandingUnseen(sqrt: real -> real, c: Command)
    requires !Walking(c.keys)
    ensures !EventOf(sqrt, c).Moving?
  {}

  predicate IsDrop(levels: seq<Level>, i: int) { 0 < i < |levels| && levels[i - 1] == High && levels[i] == Low }

  /** Between two sudden slowdowns of a steady stretch the speed passes through the middle. */
  lemma {:induction false} MidBetweenDrops(levels: seq<Level>, i: int, j: int) returns (k: int)
    requires Steady(levels) && IsDrop(levels, i) && IsDrop(levels, j) && i < j
    ensures i < k < j && levels[k] == Mid
  {
    k := i + 1;
    while k < j && levels[k] == Low
      invariant i < k < j
      invariant levels[k - 1] == Low
    {
      k := k + 1;
    }
    assert !(levels[k - 1] == Low && levels[k - 1 + 1] == High);
  }
}
