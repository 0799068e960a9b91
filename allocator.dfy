/**
  The allocator: fills the groups one after the other, either by taking
  every remaining member at once (the drain branch) or by drawing squads
  with the weighted ranges and one random member of each drawn squad.
  Every method is tied to the value-level definition of the same step in
  `Allocation`, reading the random source `rnd` from a position `t`.
*/
module Allocator {
  import opened Wrappers
  import opened Squads
  import opened Weights
  import opened Ranges
  import opened Allocation

  /** The pool sizes of the squads are the sizes of their pools. */
  lemma SizesOfPools(squads: seq<Squad>)
    ensures SizesOf(Pools(squads)) == PoolSizes(squads)
  {
  }

  /** Computes the weights and the ranges for the next pick and draws a
      squad from them; `None` stands for `Last()` failing on an empty range
      list.  `draw` is the raw random value behind `Random.Next`. */
  method PickNextSquadIndex(squads: seq<Squad>, currentPicks: seq<int>, multiplier: nat, draw: nat)
    returns (res: Option<int>)
    ensures res.None? <==>
      forall i :: 0 <= i < |squads| ==> DrawLengths(PoolSizes(squads), currentPicks, multiplier)[i] == 0
    ensures res.Some? ==>
      && 0 <= res.value < |squads|
      && DrawLengths(PoolSizes(squads), currentPicks, multiplier)[res.value] > 0
      && |squads[res.value].members| > 0
    ensures res.Some? ==>
      var rs := Layout(DrawLengths(PoolSizes(squads), currentPicks, multiplier));
      && EndOf(rs) > 0
      && res.value == FirstContaining(rs, NextBelow(draw, EndOf(rs)))
      && exists j :: 0 <= j < |rs| && rs[j].squadIndex == res.value && Contains(rs[j], NextBelow(draw, EndOf(rs)))
  {
    var weights := CalculateRelativeWeights(squads, currentPicks, multiplier);
    var ranges := GetProportionalRanges(squads, weights);
    ghost var lens := DrawLengths(PoolSizes(squads), currentPicks, multiplier);
    assert ranges == Layout(lens);
    LayoutEmpty(lens);
    DrawableLayout(PoolSizes(squads), currentPicks, multiplier);
    if ranges == [] {
      return None;
    }
    var r := NextBelow(draw, EndOf(ranges));
    res := ChooseSquad(ranges, r);
  }

  /** Moves the member at a drawn position of squad `s`'s pool into the
      group (`group.Members.Add(squads[s].PickRandomMember())`). */
  method TakeMember(squads: seq<Squad>, s: int, group: Group, memberDraw: nat) returns (ghost p: int)
    requires Distinct(squads)
    requires 0 <= s < |squads| && |squads[s].members| > 0
    modifies squads`members, group`members
    ensures p == NextBelow(memberDraw, |old(squads[s].members)|)
    ensures group.members == old(group.members) + [old(squads[s].members)[p]]
    ensures Pools(squads) == old(Pools(squads))[s := RemoveAt(old(squads[s].members), p)]
  {
    var squad := squads[s];
    var index := NextBelow(memberDraw, |squad.members|);
    p := index;
    ghost var before := Pools(squads);
    var member := squad.PickRandomMember(index);
    DistinctAt(squads, s);
    group.members := group.members + [member.value];
    assert Pools(squads) == before[s := RemoveAt(before[s], p)];
  }

  /** One step of the fill loop: draw a squad, record its index in the
      group, and move one of its members into the group.  `squadDraw` and
      `memberDraw` are the two raw random values the step consumes; the
      ghost results name the squad and the pool position used. */
  method PickOne(squads: seq<Squad>, group: Group, multiplier: nat, squadDraw: nat, memberDraw: nat)
    returns (outcome: Outcome<Error>, ghost s: int, ghost p: int)
    requires Distinct(squads)
    modifies squads`members, group`members, group`sourceGroupIndexes
    ensures outcome == Pass || outcome == Fail(NoRanges)
    ensures outcome == Fail(NoRanges) <==>
      forall i :: 0 <= i < |squads| ==> old(DrawLengths(PoolSizes(squads), group.sourceGroupIndexes, multiplier))[i] == 0
    ensures outcome.Fail? ==>
      && Pools(squads) == old(Pools(squads))
      && group.members == old(group.members)
      && group.sourceGroupIndexes == old(group.sourceGroupIndexes)
    ensures outcome == Pass ==>
      var rs := old(Layout(DrawLengths(PoolSizes(squads), group.sourceGroupIndexes, multiplier)));
      && 0 <= s < |squads|
      && old(DrawLengths(PoolSizes(squads), group.sourceGroupIndexes, multiplier))[s] > 0
      && EndOf(rs) > 0
      && s == FirstContaining(rs, NextBelow(squadDraw, EndOf(rs)))
      && (exists j :: 0 <= j < |rs| && rs[j].squadIndex == s && Contains(rs[j], NextBelow(squadDraw, EndOf(rs))))
      && |old(squads[s].members)| > 0
      && p == NextBelow(memberDraw, |old(squads[s].members)|)
      && group.sourceGroupIndexes == old(group.sourceGroupIndexes) + [s]
      && group.members == old(group.members) + [old(squads[s].members)[p]]
      && Pools(squads) == old(Pools(squads))[s := RemoveAt(old(squads[s].members), p)]
  {
    s, p := 0, 0;
    ghost var lens := DrawLengths(PoolSizes(squads), group.sourceGroupIndexes, multiplier);
    ghost var sizes := PoolSizes(squads);
    var next := PickNextSquadIndex(squads, group.sourceGroupIndexes, multiplier, squadDraw);
    assert PoolSizes(squads) == sizes;
    assert next.None? <==> forall i :: 0 <= i < |squads| ==> lens[i] == 0;
    if next.None? {
      outcome := Fail(NoRanges);
      return;
    }
    var nextSquad := next.value;
    s := nextSquad;
    assert lens[s] > 0;
    group.sourceGroupIndexes := group.sourceGroupIndexes + [nextSquad];
    p := TakeMember(squads, nextSquad, group, memberDraw);
    outcome := Pass;
  }

  /** `PickOne` as the fill loop sees it: the pick `ChoosePick` makes from
      the pools and the two draws is the one taken, and nothing changes
      when it finds no range. */
  method PickStep(squads: seq<Squad>, group: Group, multiplier: nat, squadDraw: nat, memberDraw: nat)
    returns (outcome: Outcome<Error>, ghost s: int, ghost p: int)
    requires Distinct(squads)
    modifies squads`members, group`members, group`sourceGroupIndexes
    ensures outcome == Pass || outcome == Fail(NoRanges)
    ensures outcome.Fail? <==>
      old(ChoosePick(Pools(squads), group.sourceGroupIndexes, multiplier, squadDraw, memberDraw)) == None
    ensures outcome.Fail? ==>
      && Pools(squads) == old(Pools(squads))
      && group.members == old(group.members)
      && group.sourceGroupIndexes == old(group.sourceGroupIndexes)
    ensures outcome == Pass ==>
      && old(ChoosePick(Pools(squads), group.sourceGroupIndexes, multiplier, squadDraw, memberDraw)) == Some(Pick(s, p))
      && 0 <= s < |squads|
      && 0 <= p < |old(Pools(squads))[s]|
      && group.sourceGroupIndexes == old(group.sourceGroupIndexes) + [s]
      && group.members == old(group.members) + [old(Pools(squads))[s][p]]
      && Pools(squads) == old(Pools(squads))[s := RemoveAt(old(Pools(squads))[s], p)]
  {
    ghost var pools := Pools(squads);
    SizesOfPools(squads);
    outcome, s, p := PickOne(squads, group, multiplier, squadDraw, memberDraw);
    if outcome == Pass {
      assert pools[s] == old(squads[s].members);
    }
  }

  /** Fills one group (the body of the loop over the groups).  When at most
      `expectedSize` people are left in all pools together, the group
      receives all of them and the pools stay as they are; otherwise the
      group receives `expectedSize` weighted picks, stopping early only when
      a draw finds no range.  `rnd` is the random source and `t0` the
      position of its next value. */
  method FillGroup(squads: seq<Squad>, group: Group, multiplier: nat, rnd: nat -> nat, t0: nat,
                   ghost before: seq<seq<string>>)
    returns (outcome: Outcome<Error>, t: nat, ghost drained: bool)
    requires Distinct(squads)
    requires before == Pools(squads)
    requires group.members == [] && group.sourceGroupIndexes == []
    modifies squads`members, group`members, group`sourceGroupIndexes
    ensures Fill(Pools(squads), group.members, group.sourceGroupIndexes, outcome, t)
         == GroupFill(before, group.expectedSize, multiplier, rnd, t0)
    ensures outcome == Pass || outcome == Fail(NoRanges)
    ensures drained <==> Total(before) <= group.expectedSize
    ensures |group.members| <= Max0(group.expectedSize)
    ensures drained ==>
      && outcome == Pass
      && group.members == Flatten(before)
      && group.sourceGroupIndexes == []
      && Pools(squads) == before
    ensures !drained ==>
      && |group.members| <= Max0(group.expectedSize)
      && (outcome == Pass ==> |group.members| == Max0(group.expectedSize))
      && IndexesIn(group.sourceGroupIndexes, |squads|)
      && Conserved(before, Pools(squads), group.members, group.sourceGroupIndexes)
  {
    var remainingMembers := Total(Pools(squads));
    drained := remainingMembers <= group.expectedSize;
    if remainingMembers <= group.expectedSize {
      Drain(squads, group);
      t := t0;
      outcome := Pass;
    } else {
      outcome, t := FillByPicks(squads, group, multiplier, rnd, t0, before);
    }
  }

  /** The non-drain branch: `expectedSize` weighted picks, each reading two
      values of the random source. */
  method FillByPicks(squads: seq<Squad>, group: Group, multiplier: nat, rnd: nat -> nat, t0: nat,
                     ghost before: seq<seq<string>>)
    returns (outcome: Outcome<Error>, t: nat)
    requires Distinct(squads)
    requires before == Pools(squads)
    requires group.members == [] && group.sourceGroupIndexes == []
    modifies squads`members, group`members, group`sourceGroupIndexes
    ensures Fill(Pools(squads), group.members, group.sourceGroupIndexes, outcome, t)
         == Picks(before, [], [], Max0(group.expectedSize), multiplier, rnd, t0)
    ensures outcome == Pass || outcome == Fail(NoRanges)
    ensures |group.members| <= Max0(group.expectedSize)
    ensures outcome == Pass ==> |group.members| == Max0(group.expectedSize)
    ensures IndexesIn(group.sourceGroupIndexes, |squads|)
    ensures Conserved(before, Pools(squads), group.members, group.sourceGroupIndexes)
  {
    outcome, t := PickLoop(squads, group, multiplier, rnd, t0, before);
    NothingPickedYet(before, |before|);
    PicksConserve(before, before, [], [], Max0(group.expectedSize), multiplier, rnd, t0);
  }

  /** The loop of the non-drain branch: it makes the picks of `Picks`. */
  method PickLoop(squads: seq<Squad>, group: Group, multiplier: nat, rnd: nat -> nat, t0: nat,
                  ghost before: seq<seq<string>>)
    returns (outcome: Outcome<Error>, t: nat)
    requires Distinct(squads)
    requires before == Pools(squads)
    requires group.members == [] && group.sourceGroupIndexes == []
    modifies squads`members, group`members, group`sourceGroupIndexes
    ensures Fill(Pools(squads), group.members, group.sourceGroupIndexes, outcome, t)
         == Picks(before, [], [], Max0(group.expectedSize), multiplier, rnd, t0)
  {
    t := t0;
    outcome := Pass;
    ghost var remaining := Max0(group.expectedSize);
    ghost var pools, members, indexes := before, [], [];
    ghost var goal := Picks(pools, members, indexes, remaining, multiplier, rnd, t);
    var fillCounter := 0;
    while fillCounter < group.expectedSize
      invariant 0 <= fillCounter <= Max0(group.expectedSize) && remaining == Max0(group.expectedSize) - fillCounter
      invariant pools == Pools(squads) && members == group.members && indexes == group.sourceGroupIndexes
      invariant Picks(pools, members, indexes, remaining, multiplier, rnd, t) == goal
    {
      var step;
      step, t, pools, members, indexes := FillPick(squads, group, multiplier, rnd, t, pools, members, indexes, remaining);
      if step.Fail? {
        outcome := step;
        break;
      }
      fillCounter := fillCounter + 1;
      remaining := remaining - 1;
    }
    if outcome.Pass? {
      PicksDone(pools, members, indexes, multiplier, rnd, t);
    }
  }

  /** One iteration of the pick loop, with `count` picks still to make from
      the pools `pools` into a group holding `members`: one step of
      `Picks`, after which the pools and the group are `pools'`,
      `members'` and `indexes'`. */
  method FillPick(squads: seq<Squad>, group: Group, multiplier: nat, rnd: nat -> nat, t0: nat,
                  ghost pools: seq<seq<string>>, ghost members: seq<string>, ghost indexes: seq<int>,
                  ghost count: nat)
    returns (outcome: Outcome<Error>, t: nat,
             ghost pools': seq<seq<string>>, ghost members': seq<string>, ghost indexes': seq<int>)
    requires Distinct(squads) && count > 0
    requires pools == Pools(squads) && members == group.members && indexes == group.sourceGroupIndexes
    modifies squads`members, group`members, group`sourceGroupIndexes
    ensures t == t0 + 2
    ensures pools' == Pools(squads) && members' == group.members && indexes' == group.sourceGroupIndexes
    ensures outcome.Fail? ==>
      Picks(pools, members, indexes, count, multiplier, rnd, t0) == Fill(pools', members', indexes', outcome, t)
    ensures !outcome.Fail? ==>
      Picks(pools, members, indexes, count, multiplier, rnd, t0) == Picks(pools', members', indexes', count - 1, multiplier, rnd, t)
  {
    PicksStep(pools, members, indexes, count, multiplier, rnd, t0);
    ghost var s, p;
    outcome, s, p := PickStep(squads, group, multiplier, rnd(t0), rnd(t0 + 1));
    t := t0 + 2;
    pools', members', indexes' := Pools(squads), group.members, group.sourceGroupIndexes;
  }

  /** The drain branch: appends every member of every pool, in squad order
      and then pool order, and leaves the pools as they are. */
  method Drain(squads: seq<Squad>, group: Group)
    modifies group`members
    ensures group.members == old(group.members) + Flatten(Pools(squads))
  {
    ghost var pools := Pools(squads);
    for i := 0 to |squads|
      invariant group.members == old(group.members) + Flatten(pools[..i])
    {
      var pool := squads[i].members;
      assert pool == pools[i];
      FlattenSnoc(pools[..i], pool);
      assert pools[..i + 1] == pools[..i] + [pool];
      for j := 0 to |pool|
        invariant group.members == old(group.members) + Flatten(pools[..i]) + pool[..j]
      {
        assert pool[..j + 1] == pool[..j] + [pool[j]];
        group.members := group.members + [pool[j]];
      }
    }
    assert pools[..|squads|] == pools;
  }

  /** No group object occurs twice in the list. */
  ghost predicate GroupsDistinct(groups: seq<Group>)
  {
    forall h, k :: 0 <= h < k < |groups| ==> groups[h] != groups[k]
  }

  /** One new, empty group per configured size (`GroupSizes.Select(...)`). */
  method NewGroups(groupSizes: seq<int>) returns (groups: seq<Group>)
    ensures |groups| == |groupSizes| && GroupsDistinct(groups)
    ensures forall g :: 0 <= g < |groups| ==>
      fresh(groups[g]) && groups[g].expectedSize == groupSizes[g]
      && groups[g].members == [] && groups[g].sourceGroupIndexes == []
  {
    groups := [];
    for g := 0 to |groupSizes|
      invariant |groups| == g && GroupsDistinct(groups)
      invariant forall h :: 0 <= h < g ==>
        fresh(groups[h]) && groups[h].expectedSize == groupSizes[h]
        && groups[h].members == [] && groups[h].sourceGroupIndexes == []
    {
      var group := new Group(groupSizes[g]);
      groups := groups + [group];
    }
  }

  /** The allocation run (`Main` before printing): creates one group per
      configured size, then fills them in order.  A failed draw stops the
      run, as the exception does.  The groups, the pools and the outcome
      are those of `Run` on the starting pools; `lists[g]` is what group
      `g` received and `drained[g]` tells which branch filled it; the
      groups from `|lists|` on were never reached and stay empty. */
  method Allocate(squads: seq<Squad>, groupSizes: seq<int>, multiplier: nat, rnd: nat -> nat)
    returns (groups: seq<Group>, outcome: Outcome<Error>, ghost lists: seq<seq<string>>, ghost drained: seq<bool>)
    requires Distinct(squads)
    modifies squads`members
    ensures |groups| == |groupSizes|
    ensures forall g :: 0 <= g < |groups| ==> fresh(groups[g]) && groups[g].expectedSize == groupSizes[g]
    ensures Run(old(Pools(squads)), groupSizes, multiplier, rnd) == RunResult(lists, drained, Pools(squads), outcome)
    ensures outcome == Pass || outcome == Fail(NoRanges)
    ensures Placed(groups, lists)
    ensures Accounted(old(Pools(squads)), Pools(squads), lists, drained)
    ensures Within(lists, multiset(old(Flatten(Pools(squads)))))
    ensures outcome == Pass ==> |lists| == |groups| && PicksFull(groupSizes, lists, drained)
    ensures forall i :: 0 <= i < |squads| ==> old(squads[i].Valid()) ==> squads[i].Valid()
  {
    ghost var start := Pools(squads);
    groups := NewGroups(groupSizes);
    outcome, lists, drained := FillGroups(squads, groups, multiplier, rnd, start, groupSizes);
    ghost var pools := Pools(squads);
    forall i | 0 <= i < |squads| && old(squads[i].Valid())
      ensures squads[i].Valid()
    {
      assert start[i] == old(squads[i].members) && pools[i] == squads[i].members;
    }
  }

  /** The first `|lists|` groups hold `lists`, each within its size, and
      the groups after them are untouched. */
  ghost predicate Placed(groups: seq<Group>, lists: seq<seq<string>>)
    reads groups
  {
    && |lists| <= |groups|
    && (forall h :: 0 <= h < |lists| ==>
          groups[h].members == lists[h] && |lists[h]| <= Max0(groups[h].expectedSize))
    && (forall h :: |lists| <= h < |groups| ==> groups[h].members == [] && groups[h].sourceGroupIndexes == [])
  }

  /** The loop over the groups: it does what `Run` does on the starting
      pools, and so keeps everyone accounted for. */
  method FillGroups(squads: seq<Squad>, groups: seq<Group>, multiplier: nat, rnd: nat -> nat,
                    ghost start: seq<seq<string>>, ghost sizes: seq<int>)
    returns (outcome: Outcome<Error>, ghost lists: seq<seq<string>>, ghost drained: seq<bool>)
    requires Distinct(squads) && GroupsDistinct(groups)
    requires start == Pools(squads)
    requires |sizes| == |groups| && forall g :: 0 <= g < |groups| ==> groups[g].expectedSize == sizes[g]
    requires forall g :: 0 <= g < |groups| ==> groups[g].members == [] && groups[g].sourceGroupIndexes == []
    modifies squads`members, groups`members, groups`sourceGroupIndexes
    ensures Run(start, sizes, multiplier, rnd) == RunResult(lists, drained, Pools(squads), outcome)
    ensures outcome == Pass || outcome == Fail(NoRanges)
    ensures Placed(groups, lists) && Accounted(start, Pools(squads), lists, drained)
    ensures Within(lists, multiset(Flatten(start)))
    ensures outcome == Pass ==> |lists| == |groups| && PicksFull(sizes, lists, drained)
  {
    lists, drained := [], [];
    outcome := Pass;
    var t := 0;
    ghost var goal := Run(start, sizes, multiplier, rnd);
    for g := 0 to |groups|
      invariant g == |lists| == |drained|
      invariant Placed(groups, lists)
      invariant RunFrom(Pools(squads), sizes, g, multiplier, rnd, t, lists, drained) == goal
    {
      var step;
      step, t, lists, drained := FillStep(squads, groups, g, groups[g], multiplier, rnd, t, sizes, lists, drained);
      if step.Fail? {
        outcome := step;
        break;
      }
    }
    RunFacts(start, sizes, multiplier, rnd);
  }

  /** One iteration of the loop over the groups: fills group `g`, which is
      one step of `RunFrom`. */
  method FillStep(squads: seq<Squad>, groups: seq<Group>, g: int, group: Group,
                  multiplier: nat, rnd: nat -> nat, t0: nat, ghost sizes: seq<int>,
                  ghost lists: seq<seq<string>>, ghost drained: seq<bool>)
    returns (outcome: Outcome<Error>, t: nat, ghost lists': seq<seq<string>>, ghost drained': seq<bool>)
    requires Distinct(squads) && GroupsDistinct(groups)
    requires g == |lists| == |drained| < |groups| == |sizes| && group == groups[g] && group.expectedSize == sizes[g]
    requires Placed(groups, lists)
    modifies squads`members, group`members, group`sourceGroupIndexes
    ensures |lists'| == |drained'| == g + 1
    ensures Placed(groups, lists')
    ensures old(RunFrom(Pools(squads), sizes, g, multiplier, rnd, t0, lists, drained))
         == if outcome.Fail? then RunResult(lists', drained', Pools(squads), outcome)
            else RunFrom(Pools(squads), sizes, g + 1, multiplier, rnd, t, lists', drained')
  {
    ghost var d;
    ghost var pools := Pools(squads);
    outcome, t, d := FillNext(squads, groups, g, group, multiplier, rnd, t0, pools, lists, sizes[g]);
    lists', drained' := lists + [group.members], drained + [d];
  }

  /** Fills group `g` of the run; the other groups are left as they are. */
  method FillNext(squads: seq<Squad>, groups: seq<Group>, g: int, group: Group,
                  multiplier: nat, rnd: nat -> nat, t0: nat,
                  ghost pools: seq<seq<string>>, ghost lists: seq<seq<string>>, ghost size: int)
    returns (outcome: Outcome<Error>, t: nat, ghost d: bool)
    requires Distinct(squads) && GroupsDistinct(groups)
    requires pools == Pools(squads)
    requires g == |lists| < |groups| && group == groups[g]
    requires Placed(groups, lists) && group.expectedSize == size
    modifies squads`members, group`members, group`sourceGroupIndexes
    ensures Fill(Pools(squads), group.members, group.sourceGroupIndexes, outcome, t)
         == GroupFill(pools, size, multiplier, rnd, t0)
    ensures outcome == Pass || outcome == Fail(NoRanges)
    ensures d <==> Total(pools) <= size
    ensures Placed(groups, lists + [group.members])
    ensures d ==> Pools(squads) == pools && group.members == Flatten(pools)
    ensures !d ==> Conserved(pools, Pools(squads), group.members, group.sourceGroupIndexes)
    ensures outcome == Pass && !d ==> |group.members| == Max0(size)
  {
    outcome, t, d := FillGroup(squads, group, multiplier, rnd, t0, pools);
    ghost var lists' := lists + [group.members];
    forall h | 0 <= h < |lists'|
      ensures groups[h].members == lists'[h] && |lists'[h]| <= Max0(groups[h].expectedSize)
    {
      if h < g {
        assert groups[h] != group;
      }
    }
    forall h | |lists'| <= h < |groups|
      ensures groups[h].members == [] && groups[h].sourceGroupIndexes == []
    {
      assert groups[h] != group;
    }
  }
}
