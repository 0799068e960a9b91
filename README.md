# GroupsShuffle allocator, modelled in Dafny

GroupsShuffle splits people into groups of given sizes. The people come
from squads, and the program tries to mix the squads. Each group is
filled in one of two ways:

- **Weighted picks.** If more people are left than the group's expected
  size, the group gets `expectedSize` picks. For each pick, every squad
  receives a weight `1/(m·k+1)`. Here `k` is how often that squad was
  already picked for this group and `m` is the same-squad multiplier. Each
  squad then gets an integer range of length `round(100·weight·poolSize)`,
  and the ranges are laid out one after the other from 0. A random number
  below the last range's end selects a squad, and a random member of that
  squad moves into the group.
- **Drain.** Otherwise the group receives every person still in a pool.

The printer shows each name in the colour of the first squad whose
original roster lists it.

The model has eight modules:

- `Wrappers`: `Option`, `Result`, `Outcome`.
- `Squads`: the `Squad` and `Group` classes, and the pools seen as values (`Pools`, `Flatten`, `Total`).
- `Weights`: the weight formula and the loop that fills the weight array.
- `Ranges`: the range builder (`GetProportionalRanges`), its value-level specification `Layout`, and the sampler (`ChooseSquad`).
- `Allocation`: the allocation as values. `ChoosePick` is one pick, `Picks` the picks of one group, `GroupFill` one group and `Run` the whole run. The lemmas about them state what a run keeps: everyone accounted for, every group within its size and within the starting pools.
- `Allocator`: the imperative allocator. One pick (`PickNextSquadIndex`, `PickOne`), one group (`FillGroup`, `Drain`, `FillByPicks`) and the whole run (`Allocate`). The one-pick, one-group and run methods (`PickStep`, `FillPick`, `PickLoop`, `FillByPicks`, `FillGroup`, `FillNext`, `FillStep`, `FillGroups`, `Allocate`) are each proved to compute the value of their counterpart in `Allocation`.
- `Printer`: the colour lookup.
- `Scenarios`: two concrete runs.

Modelling choices:

- **Randomness.** `System.Random` is replaced by an oracle `rnd: nat -> nat` that the allocator reads in order. `Random.Next(0, n)` becomes `rnd(t) % n`, so every value in `[0, n)` can be drawn. Each pick consumes two values: one for the squad, one for the pool position.
- **Arithmetic.** Weights are exact `real`s. `Math.Round` is written out as round-half-to-even, its default mode.
- **Errors.** Each exception becomes an error result and stops the run, as the exception does:
  - `ArgumentException` from an empty pool becomes `EmptyPool`;
  - `InvalidOperationException` from `ranges.Last()` on an empty range list becomes `NoRanges`.
- **Aliasing.** The squads are distinct objects, as the configuration reader creates them.

Two behaviours of the code are worth knowing:

- **Drain copies.** The drain branch (Program.cs:33-36) adds every pool member to the group and removes no one from the pools. The pools stay as they were, and a later group that drains receives the same people again (`Scenarios.DrainKeepsPools`).
- **The ranges can run out early.** A squad whose length rounds to 0 gets no range (Program.cs:78-82), and `ranges.Last()` (Program.cs:60) throws on an empty range list. A large multiplier can round every remaining squad's length to 0 while people are still left, and the run then stops there. `Scenarios.LargeMultiplierStops` shows this: one squad of three, a group of two and a multiplier of 1000 stop on the second pick. The program crashes there, so no group is shown short.

## Model

| member | source | states |
|---|---|---|
| Weights.TimesPicked | Program.cs:96 | a squad counts as picked at least once if and only if its index occurs in the current picks |
| Weights.Weight | Program.cs:102-103 | the weight `1/(m·k+1)` lies in (0, 1] and is exactly 1 when the squad was not picked yet or the multiplier is 0 |
| Weights.WeightStrictlyDecreasing | Program.cs:102-103 | with a positive multiplier, each further pick of the same squad strictly lowers its weight |
| Weights.RelativeWeights | Program.cs:91-100 | one weight per squad, each in (0, 1], and exactly 1 for a squad not in the current picks or when the multiplier is 0 |
| Weights.CalculateRelativeWeights | Program.cs:91-100 | returns a fresh array with one entry per squad; entry `i` is the weight for the number of occurrences of `i` in the current picks |
| Ranges.RoundHalfEven | Program.cs:78 | the result is within 0.5 of its argument, and ties go to the even neighbour (the default of `Math.Round`) |
| Ranges.RoundHalfEvenUnique | Program.cs:78 | those two properties determine the rounding |
| Ranges.RangeLength | Program.cs:78 | an empty pool gets length 0; a non-negative weight gives a non-negative length |
| Ranges.Lengths | Program.cs:78 | one length per squad; a squad with an empty pool gets 0, and a non-negative weight gives a non-negative length |
| Ranges.Layout | Program.cs:71-89 | there are never more ranges than squads |
| Ranges.GetProportionalRanges | Program.cs:71-89 | the loop with its `currentStart` accumulator and `continue` builds exactly `Layout` of the squads' lengths |
| Ranges.LayoutShape | Program.cs:73-88 | the layout satisfies every property of `LaidOut`: ownership, squad order, contiguity from 0, last end equal to the sum of the lengths |
| Ranges.LayoutOwned | Program.cs:78-86 | every range belongs to a squad whose length is non-zero, and is exactly that long |
| Ranges.LayoutIncreasing | Program.cs:75-86 | squad indexes appear in strictly increasing order |
| Ranges.LayoutConsecutive | Program.cs:73-88 | the first range starts at 0, each range starts where the previous one ended, and the last end is the sum of all lengths |
| Ranges.LayoutMembership | Program.cs:79-86 | a squad has a range if and only if its length is not 0 |
| Ranges.LayoutHas | Program.cs:84-86 | gives the position of the range of a squad with a non-zero length |
| Ranges.LayoutEmpty | Program.cs:79-82 | there are no ranges if and only if every length is 0 |
| Ranges.LayoutPositive | Program.cs:79-84 | with non-negative lengths, every range has positive length |
| Ranges.LayoutEndPositive | Program.cs:60 | a non-empty layout ends above 0, so the draw `Random.Next(0, end)` has values to choose from |
| Ranges.EndIsSpans | Program.cs:84-85 | consecutive ranges from 0 end at the sum of their own lengths |
| Ranges.Disjoint | Program.cs:84-85 | consecutive ranges of positive length do not overlap |
| Ranges.Covered | Program.cs:84-85 | every number from the start up to the last end lies in some range |
| Ranges.FirstContaining | Program.cs:61-68 | the scan returns the squad of the first range that holds the number, or 0 when none does |
| Ranges.EndOf | Program.cs:60 | `ranges.Last().end`, the bound of the squad draw, taken as 0 for an empty list (where `Last()` fails and the sampler gives `None`) |
| Ranges.ChooseSquad | Program.cs:58-69 | `None` if and only if there are no ranges (`Last()` fails); otherwise the squad the scan finds, which on ranges laid out consecutively from 0 is the squad of a range holding the drawn number |
| Ranges.ScanFindsHolder | Program.cs:61-68 | on ranges laid out consecutively from 0, a number below the last end makes the scan return the squad of a range that holds it |
| Ranges.FirstHolder | Program.cs:61-68 | when some range holds the number, the scan returns the squad of a range that holds it, not the fallback |
| Ranges.ChooseFindsContaining | Program.cs:58-69 | on laid-out ranges and a number below the last end, exactly one range holds the number, the lookup returns its squad, that squad's length is positive, and the `return 0` fallback is never taken |
| Squads.RemoveAt | Program.cs:141 | the list loses exactly the element at the index: the ones before it stay in place and the ones after it move down by one |
| Squads.RemoveAtMultiset | Program.cs:141 | `RemoveAt` shortens the list by one and removes exactly the element at the index |
| Squads.Squad.constructor | Program.cs:120-128 | a squad built from a roster has that roster as both its pool and its snapshot |
| Squads.Squad.SetMembers | Program.cs:120-128 | the `Members` setter sets the pool and `InitialMembers` to the new list |
| Squads.Squad.PickRandomMember | Program.cs:135-143 | on an empty pool, fails with `EmptyPool` and changes nothing; otherwise returns the member at the drawn index and removes exactly that position; the snapshot is untouched, and the pool stays within the snapshot |
| Squads.Group.constructor | Program.cs:146-151 | a new group has the expected size and no members or source indexes |
| Squads.DistinctAt | Program.cs:44 | among distinct squads, the squad a pick takes from is at no other index, so no other pool changes |
| Squads.Pools | Program.cs:26 | the current pool (`Members`) of every squad, in squad order: the state the allocator's value-level model reads |
| Squads.PoolSizes | Program.cs:78 | `squads[i].Members.Count` for every squad, in squad order |
| Squads.Total | Program.cs:30 | `squads.Sum(squad => squad.Members.Count)`, the number of people left (its property is `TotalZero`) |
| Squads.TotalZero | Program.cs:30 | nobody is left if and only if every pool is empty |
| Squads.Flatten | Program.cs:33 | the flattened pools have as many people as the sum of the pool sizes |
| Squads.FlattenMembership | Program.cs:33 | a person is in the flattened pools if and only if some pool holds them |
| Squads.FlattenRemoveAt | Program.cs:141 | removing one member from one pool removes exactly that member from the flattened pools |
| Squads.FlattenSnoc | Program.cs:33 | flattening one pool more appends that pool |
| Allocation.NextBelow | Program.cs:139 | `Random.Next(0, n)` gives a value in `[0, n)` |
| Allocation.DrawLengths | Program.cs:55-56 | one length per squad for the next draw; every length is non-negative, and a positive length belongs to a squad with a non-empty pool |
| Allocation.UnpickedLength | Program.cs:78 | a squad with no picks in this group, or any squad when the multiplier is 0, gets length `100·poolSize` |
| Allocation.RangesWhileUnpickedSquadLeft | Program.cs:78-82 | while an unpicked squad still has members, the range list is not empty |
| Allocation.DrawableLayout | Program.cs:58-69 | when there are ranges, the last end is positive, and every number below it makes the scan return a squad whose range holds the number, whose length is positive and whose pool is not empty |
| Allocation.ChoosePick | Program.cs:55-69 | no pick if and only if every length is 0; otherwise a valid squad index and a valid position in that squad's pool |
| Allocation.Picks | Program.cs:40-45 | the pick loop as a value: `count` more picks, each reading two random values, the first draw without a range ending the group with `NoRanges` (properties in `PicksConserve`) |
| Allocation.DrawThen | Program.cs:42-44 | one iteration of the pick loop reads the squad draw, then the member draw |
| Allocation.PickWith | Program.cs:42-44 | one iteration with its draws: no range stops the group; otherwise `ChoosePick`'s member leaves its pool, joins the group with its squad index, and the remaining picks follow |
| Allocation.GroupFill | Program.cs:30-46 | one group as a value: all pools copied when at most the group's size is left, otherwise `max(size, 0)` picks (properties in `GroupFillFacts`) |
| Allocation.RunFrom | Program.cs:28-47 | the loop over the groups as a value, from group `g` on; a group whose draw finds no range ends the run, as the exception does |
| Allocation.Run | Program.cs:25-47 | the whole allocation as a value, from the first group and the first random value (properties in `RunFacts`) |
| Allocation.PicksDone | Program.cs:40 | unfolds `Picks` by one step: with no picks left, the group is complete |
| Allocation.PicksStep | Program.cs:40-45 | unfolds `Picks` by one step: a draw with no range stops the group after reading two random values; otherwise the chosen member moves from its pool into the group, its squad index is recorded, and the remaining picks follow |
| Allocation.PicksConserve | Program.cs:40-45 | the picks end with `Pass` or `NoRanges`; the group gains at most `count` members, exactly `count` on `Pass`; every source index names a squad; everyone is conserved, squad by squad and in total |
| Allocation.GroupFillFacts | Program.cs:30-46 | one group never exceeds `max(size, 0)`. It drains exactly when at most `size` people are left, and then copies everyone in order and keeps the pools. Otherwise it is full unless a draw finds no range, and the pools lose exactly what it took |
| Allocation.NothingPickedYet | Program.cs:40 | before the first pick, every squad is trivially conserved |
| Allocation.StepConserves | Program.cs:43-44 | one pick keeps the conservation invariant |
| Allocation.EachSquadStep | Program.cs:43-44 | the per-squad part of one pick's conservation |
| Allocation.EachSquadConservedIff | Program.cs:43-44 | the recursive per-squad conservation is equivalent to its quantified form |
| Allocation.ConservedShrinks | Program.cs:44 | under conservation, every pool and the group lie within the starting pools |
| Allocation.RunStep | Program.cs:31-46 | one group keeps everyone accounted for, whichever branch filled it |
| Allocation.DrainStep | Program.cs:31-37 | a drain group takes copies: pools and drawn members stay as they were |
| Allocation.PickedGroupStep | Program.cs:38-46 | a picking group's members are exactly what its pools lost |
| Allocation.WithinEach | Program.cs:28-47 | containment speaks about every group |
| Allocation.SizedEach | Program.cs:40 | the size bound speaks about every group |
| Allocation.GroupStep | Program.cs:28-46 | one more group keeps everyone accounted for and within the starting pools, and a picking group that passes is full |
| Allocation.RunFromStep | Program.cs:28-46 | unfolds `RunFrom` by one step: the run fills the next group, ends with it when its draw finds no range, and goes on with the following group otherwise |
| Allocation.RunFromFacts | Program.cs:28-47 | the rest of a run keeps what a run promises (`Reached`), given that the groups before it kept it |
| Allocation.RunFacts | Program.cs:25-47 | a run stops only on `NoRanges`. On success every group was reached and every picking group is full. Every group is within its size and within the starting pools, every pool only shrinks, and the people missing from the pools are exactly those drawn by picking groups |
| Allocator.PickNextSquadIndex | Program.cs:55-69 | fails exactly when every length is 0; otherwise returns a squad with a positive length and a non-empty pool: the squad whose range the scan finds for the drawn number `draw % end` |
| Allocator.TakeMember | Program.cs:44 | the drawn position is `memberDraw % poolSize`; the group gains the member at that position of the chosen squad, and that squad's pool loses exactly that position; other pools are unchanged |
| Allocator.PickOne | Program.cs:42-44 | `NoRanges` if and only if every length was 0, and then nothing changes. Otherwise the squad is the one the scan finds for `squadDraw % end`, the position is `memberDraw % poolSize`, the squad index and that member are appended, and the member leaves its pool; `EmptyPool` never happens |
| Allocator.PickStep | Program.cs:42-44 | `PickOne` does what `ChoosePick` says: it fails exactly when `ChoosePick` finds no pick, and then nothing changes; otherwise it takes exactly the pick `ChoosePick` makes |
| Allocator.FillGroup | Program.cs:30-46 | the group and the pools end as `GroupFill` says. The drain branch is taken if and only if at most `expectedSize` people are left; it copies every pool member in order and leaves the pools alone. The picks never exceed `max(expectedSize, 0)`, reach it unless a draw finds no range, and conserve everyone |
| Allocator.Drain | Program.cs:33-36 | the group's members become the old members followed by all pools flattened, and no pool changes |
| Allocator.FillByPicks | Program.cs:40-45 | the group and the pools end as `Picks` says. The loop makes at most `max(expectedSize, 0)` picks, exactly that many unless a draw finds no range; every source index names a squad; everyone is conserved |
| Allocator.PickLoop | Program.cs:40-45 | the loop, which stops at the first draw without a range, ends where `Picks` ends |
| Allocator.FillPick | Program.cs:42-44 | one iteration reads two random values and is one step of `Picks` |
| Allocator.NewGroups | Program.cs:25 | one fresh, distinct, empty group per configured size |
| Allocator.Allocate | Program.cs:25-47 | the groups, the final pools and the outcome are exactly those of `Run` on the starting pools. One group per size, filled in order. Each filled group is within its size and holds only people from the starting pools. Later groups stay empty. Every pool only shrinks, and the people missing from the pools are exactly those drawn by picking groups. On success every picking group is full. Squads keep their invariant |
| Allocator.FillGroups | Program.cs:28-47 | the loop over the groups does what `Run` does, keeps placement, accounting and containment, and stops at the first failed draw |
| Allocator.FillStep | Program.cs:28-46 | one iteration of the group loop is one step of `RunFrom` and keeps the groups placed |
| Allocator.FillNext | Program.cs:28-46 | filling group `g` does what `GroupFill` says, reports the drain branch exactly when at most the group's size is left, and leaves the other groups as they are |
| Printer.GetColor | Program.cs:173-176 | the default colour if no roster lists the name; otherwise the colour of the first squad whose roster lists it |
| Printer.ColorOfListed | Program.cs:175 | a listed name gets the colour of a squad, at or before the given one, whose roster lists it |
| Printer.PooledMemberColored | Program.cs:161-175 | while every pool is within its roster, anyone still in a pool, so anyone a group can receive, is shown in a squad colour rather than the default |
| Scenarios.DrainKeepsPools | Program.cs:28-37 | one squad `{a1, a2}` and two groups of size 5: both groups receive `a1, a2`, and the pool still holds both |
| Scenarios.LargeMultiplierStops | Program.cs:40-44 | one squad of three, group size 2, multiplier 1000: the first pick succeeds and the second fails with `NoRanges` |
| Scenarios.FirstPick | Program.cs:42-44 | the first pick of that run succeeds and takes one member |
| Scenarios.SecondPick | Program.cs:60 | the second pick of that run finds no range |
| Scenarios.SecondDrawLength | Program.cs:78 | after one pick with multiplier 1000, the squad's length rounds to `round(200/1001) = 0` |

## Left out

- Reading `settings.json` (Program.cs:13-16, 22-23, 106-113): file I/O and library deserialisation. `Allocate` takes the squads, the group sizes and the multiplier as parameters.
- `Printer.Print` (Program.cs:156-171): console output and colour switching. This includes its crash on an empty group at `groupMembers[^1]`, a display issue. Only `GetColor` is modelled.
- `System.Random` and `Randomizer` (Program.cs:6-9, 60, 139): replaced by the oracle `rnd`. The model makes no claim about the distribution.
- IEEE-754 `double` weights and `Math.Round` on doubles (Program.cs:78, 102-103): the model uses exact reals, so results at or near a rounding tie may differ from floating point.
- The 32-bit `int` of the range ends and sizes: the model uses unbounded integers, so overflow is not captured.
- `ConsoleColor`: a colour is an opaque natural number.
- A negative `SameSquadWeightMultiplier`: the multiplier is a `nat`. A negative one can divide by zero in `double`, which the model does not cover.
- Aliasing between squads: the squads are assumed to be distinct objects (`Distinct`).
- Ranges.ChooseSquad: requires the drawn number to lie below the last range's end, which `Random.Next` guarantees; it does not model draws outside that interval.
