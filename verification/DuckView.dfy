/** The height of the eyes while a grounded player ducks. */
module DuckView {
  import opened Vectors
  import opened Engine
  import opened Player
  import opened Movement
  import opened WalkSafety

  /** While the duck timer runs from 1000 down to 600, this runs from 1 down to 0. */
  function TimeLeft(duckTime: real): real { (duckTime - 600.0) / 400.0 }

  lemma ViewFormula(duckTime: real)
    requires 600.0 <= duckTime <= 1000.0
    ensures var r := TimeLeft(duckTime);
            0.0 <= r <= 1.0 && DuckingView(duckTime) == -6.0 + 34.0 * Curve(r)
  {
    var r := TimeLeft(duckTime);
    var x := 1.0 / TIME_TO_DUCK * DuckingTime(duckTime);
    assert x == 1.0 - r;
    assert 3.0 * (x * x) - 2.0 * (x * x) * x == 1.0 - Curve(r);
  }

  /** The curve the eyes follow, as a function of the time left. */
  function Curve(r: real): real { r * r * (3.0 - 2.0 * r) }

  lemma SlopePositive(r: real, q: real)
    requires 0.0 <= r <= q <= 1.0
    ensures 0.0 <= 3.0 * (q + r) - 2.0 * (q * q + q * r + r * r)
  {
    ProductMonotone(0.0, 0.0, q, 1.0 - q);
    ProductMonotone(0.0, 0.0, r, 1.0 - r);
    ProductMonotone(0.0, 0.0, q - r, q - r);
    assert 3.0 * (q + r) - 2.0 * (q * q + q * r + r * r) ==
           3.0 * (q * (1.0 - q)) + 3.0 * (r * (1.0 - r)) + (q - r) * (q - r);
  }

  lemma CurveRises(r: real, q: real)
    requires 0.0 <= r <= q <= 1.0
    ensures Curve(r) <= Curve(q)
  {
    var slope := 3.0 * (q + r) - 2.0 * (q * q + q * r + r * r);
    SlopePositive(r, q);
    assert Curve(q) - Curve(r) == (q - r) * slope;
    ProductMonotone(0.0, 0.0, q - r, slope);
  }

  lemma CurveFlat(r: real)
    requires 0.0 <= r
    ensures Curve(r) <= 3.0 * (r * r) && Curve(0.0) == 0.0 && Curve(1.0) == 1.0
  {
    ProductMonotone(0.0, 0.0, r, r);
    ProductMonotone(0.0, 0.0, r * r, r);
  }

  /** The eyes stay between 6 below and 28 above the origin, and do not rise as the timer runs down. */
  lemma ViewFalls(later: real, earlier: real)
    requires 600.0 <= later <= earlier <= 1000.0
    ensures -6.0 <= DuckingView(later) <= DuckingView(earlier) <= 28.0
  {
    hide DuckingView, Curve;
    ViewFormula(later);
    ViewFormula(earlier);
    CurveRises(0.0, TimeLeft(later));
    CurveRises(TimeLeft(later), TimeLeft(earlier));
    CurveRises(TimeLeft(earlier), 1.0);
    CurveFlat(TimeLeft(earlier));
  }

  /** Where the eyes end in the world when the duck finishes on the ground: 12 above an origin that is 18
      lower. The gap closes with the square of the time left, and is nothing at 600, when the duck is
      finished: the eyes do not jump. */
  lemma ViewMeetsDuck(s: Mover, duckTime: real)
    requires 600.0 <= duckTime <= 1000.0
    ensures var eyes := s.origin.z + DuckingView(duckTime);
            var after := LowPlayer(s).origin.z + LowPlayer(s).stance.viewZ;
            && after <= eyes <= after + 102.0 * (TimeLeft(duckTime) * TimeLeft(duckTime))
            && (duckTime == 600.0 ==> eyes == after)
  {
    hide DuckingView, Curve;
    ViewFormula(duckTime);
    CurveFlat(TimeLeft(duckTime));
    CurveRises(0.0, TimeLeft(duckTime));
  }

  function FeetHeight(s: Mover): real { s.origin.z + HullMins(s.stance.usehull).z }

  /** On the ground a player ducks and stands up again around the feet, and so gets back to the same
      place; letting go of the key before the duck is finished lifts the feet by 18 instead. */
  lemma FeetStay(env: Env, s: Mover)
    requires DuckOk(s) && s.onground != -1
    ensures var up := StoodUp(env, s, Add(s.origin, HullShift()));
            FeetHeight(up) == FeetHeight(s) + (if s.stance.ducking then 0.0 else 18.0)
    ensures !s.stance.ducking ==>
              var low := LowPlayer(s);
              && FeetHeight(low) == FeetHeight(s)
              && StoodUp(env, low, Add(low.origin, HullShift())).origin == s.origin
  {}

  /** A frame with the duck key down that leaves the player still on the way down puts the eyes at the
      height for the timer. */
  lemma HoldDuckView(env: Env, s: Mover, pressed: bool)
    requires DuckOk(s)
    ensures var s' := HoldDuck(env, s, pressed);
            s'.stance.inDuck ==> 600.0 < s'.stance.duckTime <= 1000.0 && -6.0 <= s'.stance.viewZ <= 28.0 &&
                                 s'.stance.viewZ == DuckingView(s'.stance.duckTime) && s'.onground != -1
  {
    hide FinishDuck, DuckingView;
    var d := if pressed && !s.stance.ducking then s.(stance := s.stance.(duckTime := 1000.0, inDuck := true)) else s;
    if d.stance.inDuck {
      FinishDuckEnds(env, d);
      if 600.0 <= d.stance.duckTime {
        ViewFalls(d.stance.duckTime, d.stance.duckTime);
      }
    }
  }

  lemma FinishDuckEnds(env: Env, s: Mover)
    ensures !FinishDuck(env, s).stance.inDuck
  {
    hide CatagorizePosition, Unstuck;
    forall s': Mover ensures SameDuck(s', CatagorizePosition(env, s')) {
      CatagorizeMoves(env, s');
    }
  }
}
