/**
  The range builder and the sampler.

  Every squad gets a half-open integer range `[start, end)` whose length is
  `round(100 * weight * poolSize)`; the ranges are laid out one after the
  other from 0, skipping squads whose length rounds to 0.  A number drawn
  in `[0, end of the last range)` then selects the squad whose range holds
  it.
*/
module Ranges {
  import opened Wrappers
  import opened Squads

  /** The factor that turns fractional weights into integer lengths. */
  const Scale: real := 100.0

  datatype Range = Range(start: int, end: int, squadIndex: int)

  predicate Contains(rg: Range, r: int)
  {
    rg.start <= r < rg.end
  }

  /** Rounding to the nearest integer, ties to the even neighbour (the
      default mode of `Math.Round`). */
  function RoundHalfEven(x: real): (n: int)
    ensures -0.5 <= x - n as real <= 0.5
    ensures x - n as real == 0.5 || n as real - x == 0.5 ==> n % 2 == 0
  {
    var f := x.Floor;
    var frac := x - f as real;
    if frac < 0.5 then f
    else if frac > 0.5 then f + 1
    else if f % 2 == 0 then f
    else f + 1
  }

  /** The two properties of `RoundHalfEven` determine it. */
  lemma RoundHalfEvenUnique(x: real, n: int)
    requires -0.5 <= x - n as real <= 0.5
    requires x - n as real == 0.5 || n as real - x == 0.5 ==> n % 2 == 0
    ensures n == RoundHalfEven(x)
  {
  }

  /** The length of a squad's range. */
  function RangeLength(weight: real, poolSize: nat): (len: int)
    ensures poolSize == 0 ==> len == 0
    ensures weight >= 0.0 ==> len >= 0
  {
    RoundHalfEven(Scale * weight * poolSize as real)
  }

  /** The range length of every squad, in squad order. */
  function Lengths(weights: seq<real>, poolSizes: seq<nat>): (lens: seq<int>)
    requires |weights| == |poolSizes|
    ensures |lens| == |weights|
    ensures forall i :: 0 <= i < |lens| && poolSizes[i] == 0 ==> lens[i] == 0
    ensures forall i :: 0 <= i < |lens| && weights[i] >= 0.0 ==> lens[i] >= 0
  {
    seq(|weights|, i requires 0 <= i < |weights| => RangeLength(weights[i], poolSizes[i]))
  }

  function Sum(s: seq<int>): int
  {
    if s == [] then 0 else Sum(s[..|s| - 1]) + s[|s| - 1]
  }

  /** Where the next range would start: the end of the last one, or 0. */
  function EndOf(rs: seq<Range>): int
  {
    if rs == [] then 0 else rs[|rs| - 1].end
  }

  /** The first range starts at `from` and each further one where the
      previous one ended. */
  ghost predicate Consecutive(rs: seq<Range>, from: int)
  {
    && (|rs| > 0 ==> rs[0].start == from)
    && (forall j :: 0 < j < |rs| ==> rs[j].start == rs[j - 1].end)
  }

  ghost predicate Positive(rs: seq<Range>)
  {
    forall j :: 0 <= j < |rs| ==> rs[j].start < rs[j].end
  }

  /** The ranges laid out for the squad lengths `lens`: lengths in squad
      order, zero lengths skipped, each range starting where the previous
      one ended. */
  function Layout(lens: seq<int>): (rs: seq<Range>)
    ensures |rs| <= |lens|
    decreases |lens|
  {
    if lens == [] then []
    else
      var n := |lens| - 1;
      var prev := Layout(lens[..n]);
      if lens[n] == 0 then prev
      else prev + [Range(EndOf(prev), EndOf(prev) + lens[n], n)]
  }

  /** Every range belongs to a squad with a non-zero length and is that
      long. */
  ghost predicate Owned(lens: seq<int>, rs: seq<Range>)
  {
    forall j :: 0 <= j < |rs| ==>
      && 0 <= rs[j].squadIndex < |lens|
      && lens[rs[j].squadIndex] != 0
      && rs[j].end - rs[j].start == lens[rs[j].squadIndex]
  }

  /** Squads appear in increasing order. */
  ghost predicate Increasing(rs: seq<Range>)
  {
    forall j, k :: 0 <= j < k < |rs| ==> rs[j].squadIndex < rs[k].squadIndex
  }

  /** What a layout of `lens` looks like: every range belongs to a squad
      with a non-zero length and is that long, squads appear in increasing
      order, the ranges follow each other from 0 and end at the sum of the
      lengths. */
  ghost predicate LaidOut(lens: seq<int>, rs: seq<Range>)
  {
    && Owned(lens, rs)
    && Increasing(rs)
    && Consecutive(rs, 0)
    && EndOf(rs) == Sum(lens)
  }

  lemma LayoutShape(lens: seq<int>)
    ensures LaidOut(lens, Layout(lens))
  {
    LayoutOwned(lens);
    LayoutIncreasing(lens);
    LayoutConsecutive(lens);
  }

  lemma {:induction false} LayoutOwned(lens: seq<int>)
    ensures Owned(lens, Layout(lens))
    decreases |lens|
  {
    if lens != [] {
      var n := |lens| - 1;
      var prev := Layout(lens[..n]);
      LayoutOwned(lens[..n]);
      var rs := Layout(lens);
      forall j | 0 <= j < |rs|
        ensures 0 <= rs[j].squadIndex < |lens| && lens[rs[j].squadIndex] != 0
        ensures rs[j].end - rs[j].start == lens[rs[j].squadIndex]
      {
        if j < |prev| {
          assert rs[j] == prev[j];
          assert lens[..n][prev[j].squadIndex] == lens[prev[j].squadIndex];
        }
      }
    }
  }

  lemma {:induction false} LayoutIncreasing(lens: seq<int>)
    ensures Increasing(Layout(lens))
    decreases |lens|
  {
    if lens != [] {
      var n := |lens| - 1;
      var prev := Layout(lens[..n]);
      LayoutIncreasing(lens[..n]);
      LayoutOwned(lens[..n]);
      var rs := Layout(lens);
      assert forall j :: 0 <= j < |prev| ==> rs[j] == prev[j];
    }
  }

  lemma {:induction false} LayoutConsecutive(lens: seq<int>)
    ensures Consecutive(Layout(lens), 0) && EndOf(Layout(lens)) == Sum(lens)
    decreases |lens|
  {
    if lens != [] {
      var n := |lens| - 1;
      var prev := Layout(lens[..n]);
      LayoutConsecutive(lens[..n]);
      var rs := Layout(lens);
      assert forall j :: 0 <= j < |prev| ==> rs[j] == prev[j];
    }
  }

  /** A squad has a range exactly when its length is not 0. */
  lemma LayoutMembership(lens: seq<int>, i: int)
    requires 0 <= i < |lens|
    ensures lens[i] != 0 <==>
      exists j :: 0 <= j < |Layout(lens)| && Layout(lens)[j].squadIndex == i
  {
    if lens[i] != 0 {
      var j := LayoutHas(lens, i);
    } else {
      LayoutOwned(lens);
    }
  }

  /** The position of the range of a squad with a non-zero length. */
  lemma {:induction false} LayoutHas(lens: seq<int>, i: int) returns (j: int)
    requires 0 <= i < |lens| && lens[i] != 0
    ensures 0 <= j < |Layout(lens)| && Layout(lens)[j].squadIndex == i
    decreases |lens|
  {
    var n := |lens| - 1;
    var prev := Layout(lens[..n]);
    var rs := Layout(lens);
    if i < n {
      assert lens[..n][i] == lens[i];
      j := LayoutHas(lens[..n], i);
      assert rs[j] == prev[j];
    } else {
      j := |rs| - 1;
    }
  }

  /** There are no ranges exactly when every length is 0. */
  lemma LayoutEmpty(lens: seq<int>)
    ensures Layout(lens) == [] <==> forall i :: 0 <= i < |lens| ==> lens[i] == 0
  {
    if Layout(lens) == [] {
      forall i | 0 <= i < |lens| ensures lens[i] == 0 {
        LayoutMembership(lens, i);
      }
    } else {
      var rs := Layout(lens);
      LayoutShape(lens);
      assert lens[rs[0].squadIndex] != 0;
    }
  }

  /** Non-negative lengths give ranges of positive length. */
  lemma LayoutPositive(lens: seq<int>)
    requires forall i :: 0 <= i < |lens| ==> lens[i] >= 0
    ensures Positive(Layout(lens))
  {
    LayoutShape(lens);
  }

  /** A non-empty layout of non-negative lengths ends above 0, so the draw
      `Random.Next(0, end)` has a non-empty interval. */
  lemma LayoutEndPositive(lens: seq<int>)
    requires forall i :: 0 <= i < |lens| ==> lens[i] >= 0
    requires Layout(lens) != []
    ensures EndOf(Layout(lens)) > 0
  {
    var rs := Layout(lens);
    LayoutShape(lens);
    LayoutPositive(lens);
    var n := |rs| - 1;
    if n > 0 {
      Disjoint(rs, 0, 0, n);
    }
  }

  /** The sum of the lengths of consecutive ranges. */
  function Spans(rs: seq<Range>): int
  {
    if rs == [] then 0 else Spans(rs[..|rs| - 1]) + (rs[|rs| - 1].end - rs[|rs| - 1].start)
  }

  /** Consecutive ranges from 0 end at the sum of their lengths. */
  lemma {:induction false} EndIsSpans(rs: seq<Range>)
    requires Consecutive(rs, 0)
    ensures EndOf(rs) == Spans(rs)
  {
    if rs != [] {
      var n := |rs| - 1;
      assert Consecutive(rs[..n], 0);
      EndIsSpans(rs[..n]);
    }
  }

  /** Consecutive ranges of positive length do not overlap. */
  lemma {:induction false} Disjoint(rs: seq<Range>, from: int, j: nat, k: nat)
    requires Consecutive(rs, from) && Positive(rs)
    requires j < k < |rs|
    ensures rs[j].end <= rs[k].start
    decreases k - j
  {
    if j + 1 < k {
      Disjoint(rs, from, j, k - 1);
    }
  }

  /** Every number between `from` and the end falls in some range. */
  lemma {:induction false} Covered(rs: seq<Range>, from: int, r: int)
    requires Consecutive(rs, from) && rs != []
    requires from <= r < EndOf(rs)
    ensures exists j :: 0 <= j < |rs| && Contains(rs[j], r)
  {
    var n := |rs| - 1;
    if !Contains(rs[n], r) {
      assert Consecutive(rs[..n], from);
      assert n > 0 && EndOf(rs[..n]) == rs[n].start;
      Covered(rs[..n], from, r);
      var j :| 0 <= j < n && Contains(rs[..n][j], r);
      assert Contains(rs[j], r);
    }
  }

  /** The scan of the sampler: the squad of the first range that holds `r`,
      or squad 0 when none does. */
  function FirstContaining(rs: seq<Range>, r: int): (squad: int)
    ensures (forall j :: 0 <= j < |rs| ==> !Contains(rs[j], r)) ==> squad == 0
    ensures forall j :: (0 <= j < |rs| && Contains(rs[j], r) &&
      forall i :: 0 <= i < j ==> !Contains(rs[i], r)) ==> squad == rs[j].squadIndex
  {
    if rs == [] then 0
    else if Contains(rs[0], r) then rs[0].squadIndex
    else
      var rest := FirstContaining(rs[1..], r);
      assert forall j :: 1 <= j < |rs| ==> rs[j] == rs[1..][j - 1];
      rest
  }

  /** The sampler: `None` when there are no ranges to take the last one of,
      otherwise the squad whose range holds the number `r` drawn from
      `[0, end of the last range)`. */
  function ChooseSquad(ranges: seq<Range>, r: int): (res: Option<int>)
    requires ranges != [] ==> 0 <= r < EndOf(ranges)
    ensures res.None? <==> ranges == []
    ensures res.Some? ==> res.value == FirstContaining(ranges, r)
    ensures res.Some? && Consecutive(ranges, 0) ==>
      exists j :: 0 <= j < |ranges| && Contains(ranges[j], r) && res.value == ranges[j].squadIndex
  {
    if ranges == [] then None
    else
      ScanFindsHolder(ranges, r);
      Some(FirstContaining(ranges, r))
  }

  /** On consecutive ranges from 0, a number below the end makes the scan
      return the squad of a range that holds it. */
  lemma ScanFindsHolder(rs: seq<Range>, r: int)
    requires rs != [] && 0 <= r < EndOf(rs)
    ensures Consecutive(rs, 0) ==>
      exists j :: 0 <= j < |rs| && Contains(rs[j], r) && FirstContaining(rs, r) == rs[j].squadIndex
  {
    if Consecutive(rs, 0) {
      Covered(rs, 0, r);
      FirstHolder(rs, r);
    }
  }

  /** When some range holds `r`, the scan returns the squad of one that
      does. */
  lemma {:induction false} FirstHolder(rs: seq<Range>, r: int)
    requires exists j :: 0 <= j < |rs| && Contains(rs[j], r)
    ensures exists j :: 0 <= j < |rs| && Contains(rs[j], r) && FirstContaining(rs, r) == rs[j].squadIndex
  {
    if !Contains(rs[0], r) {
      var j :| 0 <= j < |rs| && Contains(rs[j], r);
      assert rs[1..][j - 1] == rs[j];
      FirstHolder(rs[1..], r);
      var k :| 0 <= k < |rs[1..]| && Contains(rs[1..][k], r) && FirstContaining(rs[1..], r) == rs[1..][k].squadIndex;
      assert rs[k + 1] == rs[1..][k];
    }
  }

  /** On laid-out ranges the lookup finds the one range that holds `r`; the
      fallback to squad 0 is never taken. */
  lemma ChooseFindsContaining(lens: seq<int>, r: int)
    requires forall i :: 0 <= i < |lens| ==> lens[i] >= 0
    requires Layout(lens) != [] && 0 <= r < EndOf(Layout(lens))
    ensures exists j :: 0 <= j < |Layout(lens)| && Contains(Layout(lens)[j], r)
    ensures forall j :: 0 <= j < |Layout(lens)| && Contains(Layout(lens)[j], r) ==>
      && 0 <= Layout(lens)[j].squadIndex < |lens|
      && (forall k :: 0 <= k < |Layout(lens)| && Contains(Layout(lens)[k], r) ==> k == j)
      && ChooseSquad(Layout(lens), r) == Some(Layout(lens)[j].squadIndex)
      && lens[Layout(lens)[j].squadIndex] > 0
  {
    var rs := Layout(lens);
    LayoutShape(lens);
    LayoutPositive(lens);
    Covered(rs, 0, r);
    forall j | 0 <= j < |rs| && Contains(rs[j], r)
      ensures forall k :: 0 <= k < |rs| && Contains(rs[k], r) ==> k == j
      ensures ChooseSquad(rs, r) == Some(rs[j].squadIndex)
    {
      forall k | 0 <= k < |rs| && k != j
        ensures !Contains(rs[k], r)
      {
        if k < j { Disjoint(rs, 0, k, j); } else { Disjoint(rs, 0, j, k); }
      }
    }
  }

  /** Builds the ranges for the squads' current pool sizes and the given
      weights, squad by squad. */
  method GetProportionalRanges(squads: seq<Squad>, weights: array<real>) returns (ranges: seq<Range>)
    requires weights.Length == |squads|
    ensures ranges == Layout(Lengths(weights[..], PoolSizes(squads)))
  {
    ghost var lens := Lengths(weights[..], PoolSizes(squads));
    var currentStart := 0;
    ranges := [];
    for squadIndex := 0 to |squads|
      invariant ranges == Layout(lens[..squadIndex])
      invariant currentStart == EndOf(ranges)
    {
      assert lens[..squadIndex + 1][..squadIndex] == lens[..squadIndex];
      var finalWeight := RangeLength(weights[squadIndex], |squads[squadIndex].members|);
      assert finalWeight == lens[squadIndex];
      if finalWeight == 0 {
        continue;
      }
      var range := Range(currentStart, currentStart + finalWeight, squadIndex);
      currentStart := range.end;
      ranges := ranges + [range];
    }
    assert lens[..|squads|] == lens;
  }
}
