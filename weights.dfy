/**
  The weight calculator: every squad's relative weight for the next draw,
  which decays with the number of times that squad already contributed to
  the group being filled.
*/
module Weights {
  import opened Squads

  /** How often `squadIndex` occurs among the group's picks so far. */
  function TimesPicked(currentPicks: seq<int>, squadIndex: int): (k: nat)
    ensures k > 0 <==> squadIndex in currentPicks
  {
    multiset(currentPicks)[squadIndex]
  }

  /** `1 / (multiplier * timesPicked + 1)`, computed exactly. */
  function Weight(timesPicked: nat, multiplier: nat): (w: real)
    ensures 0.0 < w <= 1.0
    ensures timesPicked == 0 || multiplier == 0 ==> w == 1.0
  {
    var d := (multiplier * timesPicked + 1) as real;
    assert d >= 1.0;
    1.0 / d
  }

  /** With a positive multiplier, every further pick strictly lowers the
      weight. */
  lemma WeightStrictlyDecreasing(k1: nat, k2: nat, multiplier: nat)
    requires multiplier > 0 && k1 < k2
    ensures Weight(k2, multiplier) < Weight(k1, multiplier)
  {
    assert multiplier * k1 < multiplier * k2 by {
      assert multiplier * k2 == multiplier * k1 + multiplier * (k2 - k1);
      assert multiplier * (k2 - k1) >= 1;
    }
    ReciprocalDecreasing((multiplier * k1 + 1) as real, (multiplier * k2 + 1) as real);
  }

  lemma ReciprocalDecreasing(a: real, b: real)
    requires 1.0 <= a < b
    ensures 1.0 / b < 1.0 / a
  {
    var x, y := 1.0 / a, 1.0 / b;
    assert x * a == 1.0 && y * b == 1.0;
    assert y * a < y * b;
  }

  /** The weights `CalculateRelativeWeights` produces for `squadCount`
      squads. */
  function RelativeWeights(squadCount: nat, currentPicks: seq<int>, multiplier: nat): (ws: seq<real>)
    ensures |ws| == squadCount
    ensures forall i :: 0 <= i < squadCount ==> 0.0 < ws[i] <= 1.0
    ensures forall i :: 0 <= i < squadCount && (i !in currentPicks || multiplier == 0) ==> ws[i] == 1.0
  {
    seq(squadCount, i => Weight(TimesPicked(currentPicks, i), multiplier))
  }

  /** Fills one weight per squad: entry `i` is the weight of squad `i` given
      how often it was already picked for the current group. */
  method CalculateRelativeWeights(squads: seq<Squad>, currentPicks: seq<int>, multiplier: nat)
    returns (weights: array<real>)
    ensures fresh(weights) && weights.Length == |squads|
    ensures forall i :: 0 <= i < |squads| ==>
      weights[i] == Weight(TimesPicked(currentPicks, i), multiplier)
    ensures weights[..] == RelativeWeights(|squads|, currentPicks, multiplier)
  {
    weights := new real[|squads|];
    for squadIndex := 0 to |squads|
      invariant forall i :: 0 <= i < squadIndex ==>
        weights[i] == Weight(TimesPicked(currentPicks, i), multiplier)
    {
      var alreadyPickedFromSquad := TimesPicked(currentPicks, squadIndex);
      weights[squadIndex] := Weight(alreadyPickedFromSquad, multiplier);
    }
  }
}
