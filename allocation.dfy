/**
  The allocation as values: what one pick, one group and the whole run
  produce from the pools, the group sizes, the multiplier and the random
  source, and the conservation facts proved about them.

  The random source is an oracle `rnd: nat -> nat` read in order; a draw
  `Random.Next(0, n)` with `n > 0` is modelled as `rnd(t) % n`, which
  reaches every value of `[0, n)`.  Every pick reads two values, the first
  for the squad and the second for the position in its pool.
*/
module Allocation {
  import opened Wrappers
  import opened Squads
  import opened Weights
  import opened Ranges

  /** `Random.Next(0, bound)` answered from the raw random value `draw`. */
  function NextBelow(draw: nat, bound: int): (r: int)
    requires bound > 0
    ensures 0 <= r < bound
  {
    draw % bound
  }

  /** The range length of every squad for the next draw of a group whose
      picks so far are `currentPicks`. */
  function DrawLengths(poolSizes: seq<nat>, currentPicks: seq<int>, multiplier: nat): (lens: seq<int>)
    ensures |lens| == |poolSizes|
    ensures forall i :: 0 <= i < |lens| ==> lens[i] >= 0
    ensures forall i :: 0 <= i < |lens| && lens[i] > 0 ==> poolSizes[i] > 0
  {
    Lengths(RelativeWeights(|poolSizes|, currentPicks, multiplier), poolSizes)
  }

  /** A squad not yet picked for this group (or any squad when the
      multiplier is 0) gets a range of length `100 * poolSize`. */
  lemma UnpickedLength(poolSizes: seq<nat>, currentPicks: seq<int>, multiplier: nat, i: int)
    requires 0 <= i < |poolSizes|
    requires TimesPicked(currentPicks, i) == 0 || multiplier == 0
    ensures DrawLengths(poolSizes, currentPicks, multiplier)[i] == 100 * poolSizes[i]
  {
    var c := poolSizes[i];
    assert Weight(TimesPicked(currentPicks, i), multiplier) == 1.0;
    RoundHalfEvenUnique(Scale * 1.0 * c as real, 100 * c);
  }

  /** So the draw can only find no range once every squad with members left
      was already picked for this group. */
  lemma RangesWhileUnpickedSquadLeft(poolSizes: seq<nat>, currentPicks: seq<int>, multiplier: nat, i: int)
    requires 0 <= i < |poolSizes| && poolSizes[i] > 0
    requires TimesPicked(currentPicks, i) == 0 || multiplier == 0
    ensures Layout(DrawLengths(poolSizes, currentPicks, multiplier)) != []
  {
    UnpickedLength(poolSizes, currentPicks, multiplier, i);
    LayoutEmpty(DrawLengths(poolSizes, currentPicks, multiplier));
  }


  function Max0(n: int): nat
  {
    if n < 0 then 0 else n
  }

  /** The members of a group that were drawn from squad `squadIndex`, given
      the parallel list of source indexes. */
  function PickedFrom(members: seq<string>, indexes: seq<int>, squadIndex: int): multiset<string>
    requires |members| == |indexes|
  {
    if members == [] then multiset{}
    else
      var n := |members| - 1;
      PickedFrom(members[..n], indexes[..n], squadIndex)
        + if indexes[n] == squadIndex then multiset{members[n]} else multiset{}
  }

  lemma PickedFromSnoc(members: seq<string>, indexes: seq<int>, x: string, j: int, squadIndex: int)
    requires |members| == |indexes|
    ensures PickedFrom(members + [x], indexes + [j], squadIndex)
      == PickedFrom(members, indexes, squadIndex) + if j == squadIndex then multiset{x} else multiset{}
  {
    assert (members + [x])[..|members|] == members;
    assert (indexes + [j])[..|indexes|] == indexes;
  }


  /** Every recorded source index names a squad. */
  ghost predicate IndexesIn(indexes: seq<int>, squadCount: int)
  {
    forall k :: 0 <= k < |indexes| ==> 0 <= indexes[k] < squadCount
  }

  lemma IndexesInSnoc(indexes: seq<int>, s: int, squadCount: int)
    requires IndexesIn(indexes, squadCount) && 0 <= s < squadCount
    ensures IndexesIn(indexes + [s], squadCount)
  {
  }

  /** Nobody is lost or duplicated: every starting pool is the current pool
      plus the members the group drew from it, and all starting pools
      together are all current pools plus the whole group. */
  ghost predicate Conserved(start: seq<seq<string>>, pools: seq<seq<string>>,
                            members: seq<string>, indexes: seq<int>)
  {
    && |start| == |pools|
    && |members| == |indexes|
    && EachSquadConserved(start, pools, members, indexes, |pools|)
    && multiset(Flatten(start)) == multiset(Flatten(pools)) + multiset(members)
  }

  /** Squads `0 .. n-1`: the starting pool is the current pool plus the
      members the group drew from that squad. */
  ghost predicate EachSquadConserved(start: seq<seq<string>>, pools: seq<seq<string>>,
                                     members: seq<string>, indexes: seq<int>, n: nat)
    requires n <= |start| && n <= |pools| && |members| == |indexes|
  {
    n == 0 ||
    (EachSquadConserved(start, pools, members, indexes, n - 1)
     && multiset(start[n - 1]) == multiset(pools[n - 1]) + PickedFrom(members, indexes, n - 1))
  }

  lemma {:induction false} EachSquadConservedIff(start: seq<seq<string>>, pools: seq<seq<string>>,
                                                members: seq<string>, indexes: seq<int>, n: nat)
    requires n <= |start| && n <= |pools| && |members| == |indexes|
    ensures EachSquadConserved(start, pools, members, indexes, n) <==>
      forall i :: 0 <= i < n ==> multiset(start[i]) == multiset(pools[i]) + PickedFrom(members, indexes, i)
  {
    if n > 0 {
      EachSquadConservedIff(start, pools, members, indexes, n - 1);
    }
  }

  /** Before the first pick every squad is conserved trivially. */
  lemma {:induction false} NothingPickedYet(start: seq<seq<string>>, n: nat)
    requires n <= |start|
    ensures EachSquadConserved(start, start, [], [], n)
  {
    if n > 0 {
      NothingPickedYet(start, n - 1);
    }
  }


  /** One pick keeps the conservation invariant of the fill loop. */
  lemma StepConserves(start: seq<seq<string>>, pools: seq<seq<string>>, after: seq<seq<string>>,
                      members: seq<string>, indexes: seq<int>, s: int, p: int)
    requires Conserved(start, pools, members, indexes)
    requires 0 <= s < |pools| && 0 <= p < |pools[s]|
    requires after == pools[s := RemoveAt(pools[s], p)]
    ensures Conserved(start, after, members + [pools[s][p]], indexes + [s])
  {
    var x := pools[s][p];
    EachSquadStep(start, pools, after, members, indexes, s, p, |pools|);
    FlattenRemoveAt(pools, s, p);
    assert multiset(members + [x]) == multiset(members) + multiset{x};
  }

  /** The per-squad half of `StepConserves`, squad by squad. */
  lemma {:induction false} EachSquadStep(start: seq<seq<string>>, pools: seq<seq<string>>, after: seq<seq<string>>,
                                         members: seq<string>, indexes: seq<int>, s: int, p: int, n: nat)
    requires n <= |start| == |pools| && |members| == |indexes|
    requires EachSquadConserved(start, pools, members, indexes, n)
    requires 0 <= s < |pools| && 0 <= p < |pools[s]|
    requires after == pools[s := RemoveAt(pools[s], p)]
    ensures EachSquadConserved(start, after, members + [pools[s][p]], indexes + [s], n)
  {
    if n > 0 {
      var i, x := n - 1, pools[s][p];
      EachSquadStep(start, pools, after, members, indexes, s, p, i);
      PickedFromSnoc(members, indexes, x, s, i);
      if i == s {
        RemoveAtMultiset(pools[s], p);
        SquadStep(start[i], pools[i], after[i], PickedFrom(members, indexes, i), x);
      } else {
        assert after[i] == pools[i];
      }
    }
  }

  lemma SquadStep(start: seq<string>, pool: seq<string>, after: seq<string>, picked: multiset<string>, x: string)
    requires multiset(start) == multiset(pool) + picked
    requires multiset(pool) == multiset(after) + multiset{x}
    ensures multiset(start) == multiset(after) + (picked + multiset{x})
  {
  }


  /** The multiset of the members drawn from the pools, group by group:
      the groups filled in the drain branch took copies and are left out. */
  function Drawn(lists: seq<seq<string>>, drained: seq<bool>): multiset<string>
    requires |lists| == |drained|
  {
    if lists == [] then multiset{}
    else
      var n := |lists| - 1;
      Drawn(lists[..n], drained[..n]) + if drained[n] then multiset{} else multiset(lists[n])
  }

  lemma DrawnSnoc(lists: seq<seq<string>>, drained: seq<bool>, list: seq<string>, d: bool)
    requires |lists| == |drained|
    ensures Drawn(lists + [list], drained + [d])
      == Drawn(lists, drained) + if d then multiset{} else multiset(list)
  {
    assert (lists + [list])[..|lists|] == lists;
    assert (drained + [d])[..|drained|] == drained;
  }

  /** Conservation bounds every pool and the group by what there was. */
  lemma ConservedShrinks(start: seq<seq<string>>, pools: seq<seq<string>>,
                         members: seq<string>, indexes: seq<int>)
    requires Conserved(start, pools, members, indexes)
    ensures forall i :: 0 <= i < |pools| ==> multiset(pools[i]) <= multiset(start[i])
    ensures multiset(members) <= multiset(Flatten(start))
  {
    EachSquadConservedIff(start, pools, members, indexes, |pools|);
  }


  /** Everyone is accounted for after the groups `lists`: every pool only
      shrank, and the people drawn (not copied) are exactly those missing
      from the pools. */
  ghost predicate Accounted(start: seq<seq<string>>, pools: seq<seq<string>>,
                            lists: seq<seq<string>>, drained: seq<bool>)
  {
    && |lists| == |drained|
    && |start| == |pools|
    && (forall i :: 0 <= i < |pools| ==> multiset(pools[i]) <= multiset(start[i]))
    && multiset(Flatten(start)) == multiset(Flatten(pools)) + Drawn(lists, drained)
  }

  /** No group holds anyone who was not in the pools at the start. */
  ghost predicate Within(lists: seq<seq<string>>, people: multiset<string>)
  {
    lists == [] || (Within(lists[..|lists| - 1], people) && multiset(lists[|lists| - 1]) <= people)
  }

  lemma WithinSnoc(lists: seq<seq<string>>, people: multiset<string>, list: seq<string>)
    requires Within(lists, people) && multiset(list) <= people
    ensures Within(lists + [list], people)
  {
    assert (lists + [list])[..|lists|] == lists;
  }

  /** `Within` speaks about every group. */
  lemma {:induction false} WithinEach(lists: seq<seq<string>>, people: multiset<string>)
    requires Within(lists, people)
    ensures forall h :: 0 <= h < |lists| ==> multiset(lists[h]) <= people
  {
    if lists != [] {
      var n := |lists| - 1;
      WithinEach(lists[..n], people);
      assert forall h :: 0 <= h < n ==> lists[..n][h] == lists[h];
    }
  }

  /** Every group filled by picks received its full size. */
  ghost predicate PicksFull(sizes: seq<int>, lists: seq<seq<string>>, drained: seq<bool>)
  {
    && |lists| == |drained| <= |sizes|
    && forall h :: 0 <= h < |lists| && !drained[h] ==> |lists[h]| == Max0(sizes[h])
  }

  lemma PicksFullSnoc(sizes: seq<int>, lists: seq<seq<string>>, drained: seq<bool>, list: seq<string>, d: bool)
    requires PicksFull(sizes, lists, drained) && |lists| < |sizes|
    requires !d ==> |list| == Max0(sizes[|lists|])
    ensures PicksFull(sizes, lists + [list], drained + [d])
  {
  }


  /** Filling one group keeps everyone accounted for: a drained group
      copied the pools, a group filled by picks took its members out of
      them. */
  lemma RunStep(start: seq<seq<string>>, pools: seq<seq<string>>, after: seq<seq<string>>,
                lists: seq<seq<string>>, drained: seq<bool>,
                members: seq<string>, indexes: seq<int>, d: bool)
    requires Accounted(start, pools, lists, drained)
    requires d ==> after == pools && members == Flatten(pools)
    requires !d ==> Conserved(pools, after, members, indexes)
    ensures Accounted(start, after, lists + [members], drained + [d])
    ensures multiset(members) <= multiset(Flatten(start))
  {
    if d {
      DrainStep(start, pools, lists, drained);
    } else {
      PickedGroupStep(start, pools, after, lists, drained, members, indexes);
    }
  }

  /** A drained group took copies: the pools and the drawn members stay as
      they were, and the copies are bounded by what there was. */
  lemma DrainStep(start: seq<seq<string>>, pools: seq<seq<string>>,
                  lists: seq<seq<string>>, drained: seq<bool>)
    requires |lists| == |drained|
    requires multiset(Flatten(start)) == multiset(Flatten(pools)) + Drawn(lists, drained)
    ensures multiset(Flatten(pools)) <= multiset(Flatten(start))
    ensures multiset(Flatten(start)) == multiset(Flatten(pools)) + Drawn(lists + [Flatten(pools)], drained + [true])
  {
    DrawnSnoc(lists, drained, Flatten(pools), true);
  }

  /** A group filled by picks took its members out of the pools. */
  lemma PickedGroupStep(start: seq<seq<string>>, pools: seq<seq<string>>, after: seq<seq<string>>,
                  lists: seq<seq<string>>, drained: seq<bool>, members: seq<string>, indexes: seq<int>)
    requires |lists| == |drained| && |start| == |pools|
    requires forall i :: 0 <= i < |pools| ==> multiset(pools[i]) <= multiset(start[i])
    requires multiset(Flatten(start)) == multiset(Flatten(pools)) + Drawn(lists, drained)
    requires Conserved(pools, after, members, indexes)
    ensures |after| == |start|
    ensures forall i :: 0 <= i < |after| ==> multiset(after[i]) <= multiset(start[i])
    ensures multiset(members) <= multiset(Flatten(start))
    ensures multiset(Flatten(start)) == multiset(Flatten(after)) + Drawn(lists + [members], drained + [false])
  {
    DrawnSnoc(lists, drained, members, false);
    ConservedShrinks(pools, after, members, indexes);
  }

  /** The current size of every pool, in squad order. */
  function SizesOf(pools: seq<seq<string>>): seq<nat>
  {
    seq(|pools|, i requires 0 <= i < |pools| => |pools[i]|)
  }

  /** In a non-empty layout of the draw lengths, every number below the
      end selects (through the sampler's scan) a squad whose range holds
      the number, whose length is positive and whose pool is not empty. */
  lemma DrawableLayout(poolSizes: seq<nat>, currentPicks: seq<int>, multiplier: nat)
    ensures var lens := DrawLengths(poolSizes, currentPicks, multiplier);
      var rs := Layout(lens);
      rs != [] ==>
        && EndOf(rs) > 0
        && forall r :: 0 <= r < EndOf(rs) ==>
             var s := FirstContaining(rs, r);
             && 0 <= s < |poolSizes| && poolSizes[s] > 0 && lens[s] > 0
             && exists j :: 0 <= j < |rs| && rs[j].squadIndex == s && Contains(rs[j], r)
  {
    var lens := DrawLengths(poolSizes, currentPicks, multiplier);
    var rs := Layout(lens);
    if rs != [] {
      LayoutEndPositive(lens);
      forall r | 0 <= r < EndOf(rs)
        ensures var s := FirstContaining(rs, r);
          && 0 <= s < |poolSizes| && poolSizes[s] > 0 && lens[s] > 0
          && exists j :: 0 <= j < |rs| && rs[j].squadIndex == s && Contains(rs[j], r)
      {
        ChooseFindsContaining(lens, r);
        var j :| 0 <= j < |rs| && Contains(rs[j], r);
        assert FirstContaining(rs, r) == rs[j].squadIndex;
      }
    }
  }

  /** The squad and the pool position a pick takes. */
  datatype Pick = Pick(squad: int, position: int)

  /** One pick of a group whose picks so far are `currentPicks`: the squad
      whose range holds the squad draw, and the drawn position in its pool;
      `None` when every range length is 0, so that `Last()` fails. */
  function ChoosePick(pools: seq<seq<string>>, currentPicks: seq<int>, multiplier: nat,
                      squadDraw: nat, memberDraw: nat): (r: Option<Pick>)
    ensures r.None? <==>
      forall i :: 0 <= i < |pools| ==> DrawLengths(SizesOf(pools), currentPicks, multiplier)[i] == 0
    ensures r.Some? ==> 0 <= r.value.squad < |pools| && 0 <= r.value.position < |pools[r.value.squad]|
  {
    var lens := DrawLengths(SizesOf(pools), currentPicks, multiplier);
    var rs := Layout(lens);
    DrawableLayout(SizesOf(pools), currentPicks, multiplier);
    LayoutEmpty(lens);
    if rs == [] then None
    else
      var s := FirstContaining(rs, NextBelow(squadDraw, EndOf(rs)));
      Some(Pick(s, NextBelow(memberDraw, |pools[s]|)))
  }

  /** The state of a group being filled: the pools, the group's members
      and source indexes, how filling ended, and the position of the next
      random value. */
  datatype Fill = Fill(pools: seq<seq<string>>, members: seq<string>, indexes: seq<int>,
                       outcome: Outcome<Error>, next: nat)

  /** `count` more weighted picks into a group that holds `members`, drawn
      from the squads `indexes`, reading the random source from position
      `t`; the first draw that finds no range stops the group. */
  function Picks(pools: seq<seq<string>>, members: seq<string>, indexes: seq<int>, count: nat,
                 multiplier: nat, rnd: nat -> nat, t: nat): Fill
    decreases count, 2
  {
    if count == 0 then Fill(pools, members, indexes, Pass, t)
    else DrawThen(pools, members, indexes, count, multiplier, rnd, t)
  }

  /** The next pick reads the squad draw and the member draw, in that
      order. (Kept apart from `Picks` and `PickWith`, so that the verifier
      unfolds a pick's range computation only where a proof asks for it.) */
  function DrawThen(pools: seq<seq<string>>, members: seq<string>, indexes: seq<int>, count: nat,
                    multiplier: nat, rnd: nat -> nat, t: nat): Fill
    requires count > 0
    decreases count, 1
  {
    PickWith(pools, members, indexes, count, multiplier, rnd(t), rnd(t + 1), rnd, t + 2)
  }

  /** The next pick with the draws it read, before the remaining picks read
      the random source from position `t`. */
  function PickWith(pools: seq<seq<string>>, members: seq<string>, indexes: seq<int>, count: nat,
                    multiplier: nat, squadDraw: nat, memberDraw: nat, rnd: nat -> nat, t: nat): Fill
    requires count > 0
    decreases count, 0
  {
    match ChoosePick(pools, indexes, multiplier, squadDraw, memberDraw)
    case None => Fill(pools, members, indexes, Fail(NoRanges), t)
    case Some(pick) =>
      var s, p := pick.squad, pick.position;
      Picks(pools[s := RemoveAt(pools[s], p)], members + [pools[s][p]], indexes + [s],
            count - 1, multiplier, rnd, t)
  }

  /** How one group of expected size `size` is filled from `pools`: when at
      most `size` people are left, the drain branch copies all of them and
      leaves the pools as they are; otherwise `max(size, 0)` picks. */
  function GroupFill(pools: seq<seq<string>>, size: int, multiplier: nat, rnd: nat -> nat, t: nat): Fill
  {
    if Total(pools) <= size then Fill(pools, Flatten(pools), [], Pass, t)
    else Picks(pools, [], [], Max0(size), multiplier, rnd, t)
  }

  /** The result of a run: what every reached group received, which of
      them drained, the pools at the end and how the run ended. */
  datatype RunResult = RunResult(lists: seq<seq<string>>, drained: seq<bool>,
                                 pools: seq<seq<string>>, outcome: Outcome<Error>)

  /** The groups from `g` on, after the groups before it received `lists`;
      a group whose draw finds no range ends the run. */
  function RunFrom(pools: seq<seq<string>>, sizes: seq<int>, g: nat, multiplier: nat, rnd: nat -> nat, t: nat,
                   lists: seq<seq<string>>, drained: seq<bool>): RunResult
    requires g <= |sizes|
    decreases |sizes| - g
  {
    if g == |sizes| then RunResult(lists, drained, pools, Pass)
    else
      var f := GroupFill(pools, sizes[g], multiplier, rnd, t);
      var lists', drained' := lists + [f.members], drained + [Total(pools) <= sizes[g]];
      if f.outcome.Fail? then RunResult(lists', drained', f.pools, f.outcome)
      else RunFrom(f.pools, sizes, g + 1, multiplier, rnd, f.next, lists', drained')
  }

  /** The whole allocation: the groups in order, from the first random
      value on. */
  function Run(pools: seq<seq<string>>, sizes: seq<int>, multiplier: nat, rnd: nat -> nat): RunResult
  {
    RunFrom(pools, sizes, 0, multiplier, rnd, 0, [], [])
  }

  /** No picks left: the group is complete. */
  lemma PicksDone(pools: seq<seq<string>>, members: seq<string>, indexes: seq<int>,
                  multiplier: nat, rnd: nat -> nat, t: nat)
    ensures Picks(pools, members, indexes, 0, multiplier, rnd, t) == Fill(pools, members, indexes, Pass, t)
  {
  }

  /** One pick of `Picks`: the group stops when the pick finds no range,
      and goes on with one member moved otherwise. */
  lemma PicksStep(pools: seq<seq<string>>, members: seq<string>, indexes: seq<int>, count: nat,
                  multiplier: nat, rnd: nat -> nat, t: nat)
    requires count > 0
    ensures var next := ChoosePick(pools, indexes, multiplier, rnd(t), rnd(t + 1));
      && (next.None? ==>
            Picks(pools, members, indexes, count, multiplier, rnd, t) == Fill(pools, members, indexes, Fail(NoRanges), t + 2))
      && (next.Some? ==>
            var s, p := next.value.squad, next.value.position;
            Picks(pools, members, indexes, count, multiplier, rnd, t)
              == Picks(pools[s := RemoveAt(pools[s], p)], members + [pools[s][p]], indexes + [s],
                       count - 1, multiplier, rnd, t + 2))
  {
    assert Picks(pools, members, indexes, count, multiplier, rnd, t)
        == PickWith(pools, members, indexes, count, multiplier, rnd(t), rnd(t + 1), rnd, t + 2);
  }

  /** Weighted picks keep everyone: every pick removes its member from the
      pool of the squad recorded next to it; the group gets `count` members
      more unless a draw finds no range, and then it stops. */
  lemma {:induction false} PicksConserve(start: seq<seq<string>>, pools: seq<seq<string>>,
                                         members: seq<string>, indexes: seq<int>, count: nat,
                                         multiplier: nat, rnd: nat -> nat, t: nat)
    requires Conserved(start, pools, members, indexes) && IndexesIn(indexes, |pools|)
    ensures var f := Picks(pools, members, indexes, count, multiplier, rnd, t);
      && (f.outcome == Pass || f.outcome == Fail(NoRanges))
      && |f.members| <= |members| + count
      && (f.outcome == Pass ==> |f.members| == |members| + count)
      && IndexesIn(f.indexes, |pools|)
      && Conserved(start, f.pools, f.members, f.indexes)
    decreases count
  {
    if count > 0 {
      PicksStep(pools, members, indexes, count, multiplier, rnd, t);
      var next := ChoosePick(pools, indexes, multiplier, rnd(t), rnd(t + 1));
      if next.Some? {
        var s, p := next.value.squad, next.value.position;
        var after := pools[s := RemoveAt(pools[s], p)];
        StepConserves(start, pools, after, members, indexes, s, p);
        IndexesInSnoc(indexes, s, |pools|);
        PicksConserve(start, after, members + [pools[s][p]], indexes + [s], count - 1, multiplier, rnd, t + 2);
      }
    }
  }

  /** What filling one group promises: the drain branch is taken exactly
      when at most `size` people are left, and then copies them all in
      squad and pool order and leaves the pools alone; otherwise the group
      gets `max(size, 0)` members unless a draw finds no range, and the
      pools lose exactly what the group took, squad by squad. */
  lemma GroupFillFacts(pools: seq<seq<string>>, size: int, multiplier: nat, rnd: nat -> nat, t: nat)
    ensures var f := GroupFill(pools, size, multiplier, rnd, t);
      && (f.outcome == Pass || f.outcome == Fail(NoRanges))
      && |f.members| <= Max0(size)
      && (Total(pools) <= size ==>
            f.outcome == Pass && f.pools == pools && f.members == Flatten(pools) && f.indexes == [])
      && (Total(pools) > size ==>
            && IndexesIn(f.indexes, |pools|)
            && Conserved(pools, f.pools, f.members, f.indexes)
            && (f.outcome == Pass ==> |f.members| == Max0(size)))
  {
    if Total(pools) > size {
      NothingPickedYet(pools, |pools|);
      PicksConserve(pools, pools, [], [], Max0(size), multiplier, rnd, t);
    }
  }

  /** Every group is within its size. */
  ghost predicate Sized(sizes: seq<int>, lists: seq<seq<string>>)
  {
    && |lists| <= |sizes|
    && (lists == [] ||
        (Sized(sizes, lists[..|lists| - 1]) && |lists[|lists| - 1]| <= Max0(sizes[|lists| - 1])))
  }

  lemma SizedSnoc(sizes: seq<int>, lists: seq<seq<string>>, list: seq<string>)
    requires Sized(sizes, lists) && |lists| < |sizes| && |list| <= Max0(sizes[|lists|])
    ensures Sized(sizes, lists + [list])
  {
    assert (lists + [list])[..|lists|] == lists;
  }

  /** `Sized` speaks about every group. */
  lemma {:induction false} SizedEach(sizes: seq<int>, lists: seq<seq<string>>)
    requires Sized(sizes, lists)
    ensures forall h :: 0 <= h < |lists| ==> |lists[h]| <= Max0(sizes[h])
  {
    if lists != [] {
      var init := lists[..|lists| - 1];
      SizedEach(sizes, init);
      assert forall h :: 0 <= h < |init| ==> lists[h] == init[h];
    }
  }

  /** What a run promises about its result `r`: it stops only on a draw
      that finds no range; on success every group was reached and every
      picking group is full; every group is within its size and within the
      starting pools; and everyone is accounted for. */
  ghost predicate Reached(start: seq<seq<string>>, sizes: seq<int>, r: RunResult)
  {
    && (r.outcome == Pass || r.outcome == Fail(NoRanges))
    && (r.outcome == Pass ==> |r.lists| == |sizes| && PicksFull(sizes, r.lists, r.drained))
    && Sized(sizes, r.lists)
    && Accounted(start, r.pools, r.lists, r.drained)
    && Within(r.lists, multiset(Flatten(start)))
  }

  /** One more group, filled with the result `f` of `GroupFill` from
      `pools`, keeps what a run promises about the groups so far. */
  lemma GroupStep(start: seq<seq<string>>, pools: seq<seq<string>>, size: int, sizes: seq<int>,
                  lists: seq<seq<string>>, drained: seq<bool>, f: Fill, d: bool)
    requires |lists| < |sizes| && sizes[|lists|] == size
    requires Accounted(start, pools, lists, drained) && Within(lists, multiset(Flatten(start)))
    requires PicksFull(sizes, lists, drained)
    requires f.outcome == Pass || f.outcome == Fail(NoRanges)
    requires d ==> f.outcome == Pass && f.pools == pools && f.members == Flatten(pools)
    requires !d ==> Conserved(pools, f.pools, f.members, f.indexes) && (f.outcome == Pass ==> |f.members| == Max0(size))
    ensures Accounted(start, f.pools, lists + [f.members], drained + [d])
    ensures Within(lists + [f.members], multiset(Flatten(start)))
    ensures f.outcome == Pass ==> PicksFull(sizes, lists + [f.members], drained + [d])
  {
    RunStep(start, pools, f.pools, lists, drained, f.members, f.indexes, d);
    WithinSnoc(lists, multiset(Flatten(start)), f.members);
    if f.outcome == Pass {
      PicksFullSnoc(sizes, lists, drained, f.members, d);
    }
  }

  /** One group of `RunFrom`: the run ends with this group when its draw
      fails, and goes on with the next group otherwise. */
  lemma RunFromStep(pools: seq<seq<string>>, sizes: seq<int>, g: nat, multiplier: nat, rnd: nat -> nat, t: nat,
                    lists: seq<seq<string>>, drained: seq<bool>)
    requires g < |sizes|
    ensures var f := GroupFill(pools, sizes[g], multiplier, rnd, t);
      var lists', drained' := lists + [f.members], drained + [Total(pools) <= sizes[g]];
      RunFrom(pools, sizes, g, multiplier, rnd, t, lists, drained)
        == if f.outcome.Fail? then RunResult(lists', drained', f.pools, f.outcome)
           else RunFrom(f.pools, sizes, g + 1, multiplier, rnd, f.next, lists', drained')
  {
  }

  /** The run from group `g` on keeps the promises of `Reached`, given
      that the groups before `g` kept them. */
  lemma {:induction false} RunFromFacts(start: seq<seq<string>>, pools: seq<seq<string>>, sizes: seq<int>, g: nat,
                                        multiplier: nat, rnd: nat -> nat, t: nat,
                                        lists: seq<seq<string>>, drained: seq<bool>)
    requires g == |lists| <= |sizes|
    requires Accounted(start, pools, lists, drained) && Within(lists, multiset(Flatten(start)))
    requires Sized(sizes, lists) && PicksFull(sizes, lists, drained)
    ensures Reached(start, sizes, RunFrom(pools, sizes, g, multiplier, rnd, t, lists, drained))
    decreases |sizes| - g
  {
    if g < |sizes| {
      var f := GroupFill(pools, sizes[g], multiplier, rnd, t);
      var d := Total(pools) <= sizes[g];
      GroupFillFacts(pools, sizes[g], multiplier, rnd, t);
      GroupStep(start, pools, sizes[g], sizes, lists, drained, f, d);
      SizedSnoc(sizes, lists, f.members);
      var lists', drained' := lists + [f.members], drained + [d];
      RunFromStep(pools, sizes, g, multiplier, rnd, t, lists, drained);
      if f.outcome.Pass? {
        RunFromFacts(start, f.pools, sizes, g + 1, multiplier, rnd, f.next, lists', drained');
      }
    }
  }

  /** A whole run keeps the promises of `Reached`. */
  lemma RunFacts(pools: seq<seq<string>>, sizes: seq<int>, multiplier: nat, rnd: nat -> nat)
    ensures Reached(pools, sizes, Run(pools, sizes, multiplier, rnd))
  {
    RunFromFacts(pools, pools, sizes, 0, multiplier, rnd, 0, [], []);
  }
}
