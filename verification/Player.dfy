/** The part of the player record that a walking player's move changes, and its touch list. */
module Player {
  import opened Vectors
  import opened Engine

  /** The directions of the view. */
  datatype View = View(forward: Vec, right: Vec, up: Vec)

  /** The hull in use, the ducking flag, whether the player is on the way down, the duck timer, and the
      height of the eyes above the origin. */
  datatype Stance = Stance(usehull: int, ducking: bool, inDuck: bool, duckTime: real, viewZ: real)

  /** The buttons held before, and the speeds the keys ask for. */
  datatype Keys = Keys(oldDuck: bool, oldJump: bool, forwardmove: real, sidemove: real, upmove: real)

  datatype Mover = Mover(
    origin: Vec, velocity: Vec, basevelocity: Vec, view: View, stance: Stance, keys: Keys, movedir: Vec,
    waterjumptime: real, onground: int, waterlevel: int, watertype: int, touch: seq<Touch>)

  // ----- the touch list -----

  predicate Touches(touch: seq<Touch>, ent: int) {
    exists i :: 0 <= i < |touch| && touch[i].trace.ent == ent
  }

  function AddToTouched(touch: seq<Touch>, trace: Trace, impactvelocity: Vec): seq<Touch> {
    if Touches(touch, trace.ent) then touch else touch + [Touch(trace, impactvelocity)]
  }

  /** Every record names one of the n entities and no entity has two records. */
  ghost predicate TouchOk(n: nat, touch: seq<Touch>) {
    && (forall i :: 0 <= i < |touch| ==> 0 <= touch[i].trace.ent < n)
    && (forall i, j :: 0 <= i < j < |touch| ==> touch[i].trace.ent != touch[j].trace.ent)
  }

  lemma AddKeepsTouchOk(n: nat, touch: seq<Touch>, trace: Trace, impactvelocity: Vec)
    requires TouchOk(n, touch) && 0 <= trace.ent < n
    ensures TouchOk(n, AddToTouched(touch, trace, impactvelocity))
    ensures Touches(AddToTouched(touch, trace, impactvelocity), trace.ent)
  {
    var added := AddToTouched(touch, trace, impactvelocity);
    if !Touches(touch, trace.ent) {
      assert added[|touch|].trace.ent == trace.ent;
    }
  }

  function Indices(n: nat): (s: set<int>)
    ensures |s| == n && forall k :: k in s <==> 0 <= k < n
  {
    if n == 0 then {} else Indices(n - 1) + {n - 1}
  }

  lemma {:induction false} PigeonholeSet(n: nat, touch: seq<Touch>) returns (ents: set<int>)
    requires TouchOk(n, touch)
    ensures |ents| == |touch|
    ensures forall e :: e in ents <==> Touches(touch, e)
  {
    if touch == [] {
      ents := {};
    } else {
      var last := |touch| - 1;
      var init := touch[..last];
      ents := PigeonholeSet(n, init);
      forall e ensures Touches(touch, e) <==> Touches(init, e) || e == touch[last].trace.ent {
        if Touches(init, e) {
          var i :| 0 <= i < |init| && init[i].trace.ent == e;
          assert touch[i].trace.ent == e;
        }
        if Touches(touch, e) && e != touch[last].trace.ent {
          var i :| 0 <= i < |touch| && touch[i].trace.ent == e;
          assert init[i].trace.ent == e;
        }
      }
      ents := ents + {touch[last].trace.ent};
    }
  }

  lemma SubsetSmaller<T>(a: set<T>, b: set<T>)
    requires a <= b
    ensures |a| <= |b|
    ensures a != b ==> |a| < |b|
  {
    assert b == a + (b - a);
    assert a != b ==> b - a != {};
  }

  /** The list never holds more records than there are entities, and while some entity has no record
      there is room for one more. */
  lemma TouchRoom(n: nat, touch: seq<Touch>)
    requires TouchOk(n, touch)
    ensures |touch| <= n
    ensures forall ent :: 0 <= ent < n && !Touches(touch, ent) ==> |touch| < n
  {
    var ents := PigeonholeSet(n, touch);
    assert ents <= Indices(n);
    SubsetSmaller(ents, Indices(n));
  }
}
