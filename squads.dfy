/**
  Squads and groups: the mutable entities of the allocator.

  A squad keeps two rosters: `initialMembers`, the snapshot taken when the
  roster is assigned, and `members`, the pool of people not yet placed in a
  group, which shrinks as the allocator draws from it.  A group has an
  expected size and collects the members drawn for it together with the
  index of the squad each of them came from.
*/
module Squads {
  import opened Wrappers

  /** A console colour, kept as an opaque code. */
  type Color = nat

  /** The errors the core can raise. */
  datatype Error =
    | EmptyPool  // `ArgumentException`: a member was drawn from an empty pool
    | NoRanges   // `InvalidOperationException`: `Last()` of an empty range list

  /** `s` with the element at position `i` taken out (`List.RemoveAt`). */
  function RemoveAt<T>(s: seq<T>, i: nat): (r: seq<T>)
    requires i < |s|
    ensures |r| == |s| - 1
    ensures forall j :: 0 <= j < i ==> r[j] == s[j]
    ensures forall j :: i <= j < |r| ==> r[j] == s[j + 1]
  {
    s[..i] + s[i + 1..]
  }

  lemma RemoveAtMultiset<T>(s: seq<T>, i: nat)
    requires i < |s|
    ensures |RemoveAt(s, i)| == |s| - 1
    ensures multiset(RemoveAt(s, i)) + multiset{s[i]} == multiset(s)
  {
    assert s == s[..i] + [s[i]] + s[i + 1..];
  }

  class Squad {
    var name: string
    var members: seq<string>
    var initialMembers: seq<string>
    var color: Color

    /** The pool only ever holds people of the original roster. */
    ghost predicate Valid()
      reads this
    {
      multiset(members) <= multiset(initialMembers)
    }

    /** A squad as the configuration reader builds it: the `Members` setter
        stores the roster and its snapshot together. */
    constructor (name: string, roster: seq<string>, color: Color)
      ensures Valid()
      ensures this.name == name && this.color == color
      ensures members == roster && initialMembers == roster
    {
      this.name := name;
      this.color := color;
      members := roster;
      initialMembers := roster;
    }

    /** The `Members` setter: the pool and the snapshot become `value`. */
    method SetMembers(value: seq<string>)
      modifies this`members, this`initialMembers
      ensures Valid()
      ensures members == value && initialMembers == value
    {
      initialMembers := value;
      members := value;
    }

    /** Removes and returns the member at `index`, the position the random
        source draws in `[0, |members|)`; fails on an empty pool. */
    method PickRandomMember(index: int) returns (res: Result<string, Error>)
      requires members != [] ==> 0 <= index < |members|
      modifies this`members
      ensures old(members) == [] ==> res == Failure(EmptyPool) && members == old(members)
      ensures old(members) != [] ==>
        res == Success(old(members)[index]) && members == RemoveAt(old(members), index)
      ensures old(Valid()) ==> Valid()
    {
      if members == [] {
        return Failure(EmptyPool);
      }
      var member := members[index];
      RemoveAtMultiset(members, index);
      members := RemoveAt(members, index);
      res := Success(member);
    }
  }

  class Group {
    var expectedSize: int
    var sourceGroupIndexes: seq<int>
    var members: seq<string>

    constructor (expectedSize: int)
      ensures this.expectedSize == expectedSize
      ensures sourceGroupIndexes == [] && members == []
    {
      this.expectedSize := expectedSize;
      sourceGroupIndexes := [];
      members := [];
    }
  }

  /** No squad object occurs twice in the list: each one is missing from
      the squads after it. */
  ghost predicate Distinct(squads: seq<Squad>)
  {
    squads == [] || (squads[0] !in squads[1..] && Distinct(squads[1..]))
  }

  /** In a list of distinct squads, the squad at `s` is at no other
      index. */
  lemma {:induction false} DistinctAt(squads: seq<Squad>, s: int)
    requires Distinct(squads) && 0 <= s < |squads|
    ensures forall i :: 0 <= i < |squads| && i != s ==> squads[i] != squads[s]
  {
    assert forall i :: 1 <= i < |squads| ==> squads[i] == squads[1..][i - 1];
    if s > 0 {
      DistinctAt(squads[1..], s - 1);
      assert squads[s] in squads[1..];
    }
  }

  /** The current pool of every squad, in squad order. */
  function Pools(squads: seq<Squad>): seq<seq<string>>
    reads squads
  {
    seq(|squads|, i requires 0 <= i < |squads| reads squads => squads[i].members)
  }

  /** The current pool size of every squad, in squad order. */
  function PoolSizes(squads: seq<Squad>): seq<nat>
    reads squads
  {
    seq(|squads|, i requires 0 <= i < |squads| reads squads => |squads[i].members|)
  }

  /** Every pool's members, in squad order and then pool order
      (`SelectMany`). */
  function Flatten(pools: seq<seq<string>>): (people: seq<string>)
    ensures |people| == Total(pools)
  {
    if pools == [] then [] else pools[0] + Flatten(pools[1..])
  }

  /** The number of people left in all pools (`Sum` of the counts). */
  function Total(pools: seq<seq<string>>): nat
  {
    if pools == [] then 0 else |pools[0]| + Total(pools[1..])
  }

  /** No one is left exactly when every pool is empty. */
  lemma {:induction false} TotalZero(pools: seq<seq<string>>)
    ensures Total(pools) == 0 <==> forall i :: 0 <= i < |pools| ==> pools[i] == []
  {
    if pools != [] {
      TotalZero(pools[1..]);
      assert forall i :: 1 <= i < |pools| ==> pools[i] == pools[1..][i - 1];
    }
  }

  lemma {:induction false} FlattenMembership(pools: seq<seq<string>>, x: string)
    ensures x in Flatten(pools) <==> exists i :: 0 <= i < |pools| && x in pools[i]
  {
    if pools != [] {
      FlattenMembership(pools[1..], x);
      if x in Flatten(pools[1..]) {
        var i :| 0 <= i < |pools[1..]| && x in pools[1..][i];
        assert x in pools[i + 1];
      }
      if exists i :: 0 <= i < |pools| && x in pools[i] {
        var i :| 0 <= i < |pools| && x in pools[i];
        if i > 0 {
          assert x in pools[1..][i - 1];
        }
      }
    }
  }

  /** Removing one member from one pool removes exactly that member from the
      flattened pools. */
  lemma {:induction false} FlattenRemoveAt(pools: seq<seq<string>>, i: nat, p: nat)
    requires i < |pools| && p < |pools[i]|
    ensures multiset(Flatten(pools[i := RemoveAt(pools[i], p)])) + multiset{pools[i][p]}
            == multiset(Flatten(pools))
  {
    var after := pools[i := RemoveAt(pools[i], p)];
    if i == 0 {
      RemoveAtMultiset(pools[0], p);
      assert after[1..] == pools[1..];
    } else {
      FlattenRemoveAt(pools[1..], i - 1, p);
      assert after[1..] == pools[1..][i - 1 := RemoveAt(pools[i], p)];
    }
  }

  lemma {:induction false} FlattenSnoc(pools: seq<seq<string>>, pool: seq<string>)
    ensures Flatten(pools + [pool]) == Flatten(pools) + pool
  {
    if pools == [] {
      assert [pool][1..] == [];
    } else {
      assert (pools + [pool])[1..] == pools[1..] + [pool];
      FlattenSnoc(pools[1..], pool);
    }
  }
}
