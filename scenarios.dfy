/**
  Two concrete runs that pin down behaviour of the allocator worth knowing:
  the drain branch copies the pools without emptying them, and a large
  same-squad multiplier can leave a draw with no range at all.
*/
module Scenarios {
  import opened Wrappers
  import opened Squads
  import opened Weights
  import opened Ranges
  import opened Allocation
  import opened Allocator

  /** One squad `{a1, a2}` and two groups of size 5: both groups take the
      drain branch, and because the first one leaves the pool as it was,
      the second group receives the same two people again. */
  method DrainKeepsPools() returns (first: seq<string>, second: seq<string>, left: seq<string>)
    ensures first == ["a1", "a2"] && second == ["a1", "a2"] && left == ["a1", "a2"]
  {
    var squad := new Squad("A", ["a1", "a2"], 0);
    var squads := [squad];
    var g1 := new Group(5);
    var g2 := new Group(5);
    var rnd := (t: nat) => 0;
    assert Pools(squads) == [["a1", "a2"]];
    assert Flatten([["a1", "a2"]]) == ["a1", "a2"] by {
      assert [["a1", "a2"]][1..] == [];
    }
    var o1, t1, o2, t2;
    ghost var d1, d2;
    o1, t1, d1 := FillGroup(squads, g1, 1, rnd, 0, Pools(squads));
    o2, t2, d2 := FillGroup(squads, g2, 1, rnd, t1, Pools(squads));
    first, second, left := g1.members, g2.members, squad.members;
    assert Pools(squads)[0] == squad.members;
  }

  /** One squad of three people, a group of size 2 and a multiplier of 1000:
      the first pick finds the squad's range of length 300, but after it the
      squad's range has length `round(100 * 2 / 1001) = 0`, so the second
      draw has no range to take the last one of and the run stops. */
  method LargeMultiplierStops() returns (first: Outcome<Error>, second: Outcome<Error>)
    ensures first == Pass && second == Fail(NoRanges)
  {
    var squad := new Squad("A", ["a", "b", "c"], 0);
    var squads := [squad];
    var group := new Group(2);
    first := FirstPick(squads, group);
    second := SecondPick(squads, group);
  }

  /** The first pick of the run above: the squad's range has length 300. */
  method FirstPick(squads: seq<Squad>, group: Group) returns (outcome: Outcome<Error>)
    requires |squads| == 1 && |squads[0].members| == 3 && group.sourceGroupIndexes == []
    modifies squads`members, group`members, group`sourceGroupIndexes
    ensures outcome == Pass
    ensures |squads[0].members| == 2 && group.sourceGroupIndexes == [0]
  {
    assert PoolSizes(squads) == [3];
    UnpickedLength([3], [], 1000, 0);
    ghost var s, p;
    outcome, s, p := PickOne(squads, group, 1000, 0, 0);
    assert Pools(squads)[0] == squads[0].members;
  }

  /** The second pick of the run above: no range is left. */
  method SecondPick(squads: seq<Squad>, group: Group) returns (outcome: Outcome<Error>)
    requires |squads| == 1 && |squads[0].members| == 2 && group.sourceGroupIndexes == [0]
    modifies squads`members, group`members, group`sourceGroupIndexes
    ensures outcome == Fail(NoRanges)
  {
    assert PoolSizes(squads) == [2];
    SecondDrawLength();
    ghost var s, p;
    outcome, s, p := PickOne(squads, group, 1000, 0, 0);
  }

  /** The squad's range length after one pick with multiplier 1000. */
  lemma SecondDrawLength()
    ensures DrawLengths([2], [0], 1000) == [0]
  {
    assert TimesPicked([0], 0) == 1;
    var w := Weight(1, 1000);
    assert w == 1.0 / 1001.0;
    RoundHalfEvenUnique(Scale * w * 2.0, 0);
    assert DrawLengths([2], [0], 1000)[0] == RangeLength(w, 2);
  }
}
