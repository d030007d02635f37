# Straw2 placement engine, modelled in Dafny

This project models the placement engine of a CRUSH-style object placement
test bench written in C#. Its three parts:

- **The hash** (`Hash.cs`). `Hashmix` is Bob Jenkins' 96-bit mix of three
  `uint` registers. The five `Calculate` overloads fold one to five inputs
  through it. They start from a seed of `HashSeed` xor the inputs and use two
  auxiliary registers, `x` and `y`.
- **The two weighted selectors** (`Program.cs`). `Choose_Straw2` gives each
  eligible item a draw from a log table and keeps the highest.
  `Choose_Straw2Plus` scores each eligible item by a sum of squares of
  recentred byte lanes, shifted and divided by the weight, and keeps the
  lowest. An item is eligible when its weight is non-zero and it is not
  disabled.
- **The bucket** (`Program.cs`). It holds a list of items, the set of
  objects each item holds, and an object count. `AddObject` places an object
  at the item `Choose` returns for it. `Rebalance` walks every item's set and
  moves each object whose chosen item has changed.

Modules:

- `Words` (Words.dfy): C# `uint` arithmetic on integers in [0, 2^32). It
  has wrap-around `Add`, `Sub` and `Shl`, `Shr` as division by a power of
  two, and `Xor` defined bit by bit.
- `Hash` (Hash.dfy):
  - `Hashmix` is an imperative method over three registers. It is proved
    equal to `Mix`, a composition of nine invertible rows. `Unmix` undoes
    `Mix` on both sides.
  - Each `Calculate` overload is a method that threads its locals through
    `Hashmix` exactly as the source passes them by `ref`. Each is proved
    equal to `HashOf`, an independent definition: a register-file machine
    driven by a table of the calls each overload makes.
- `Selection` (Selection.dfy):
  - The scores of the two strategies, with the C# truncating division and
    the overflow bounds.
  - `Pick`, the choice as a fold over the list of scores, and `IsWinner`,
    the choice stated outright.
  - The two `foreach` loops, as methods proved equal to `Pick`.
- `Buckets` (Bucket.dfy): the `Bucket` class. Its fields are `items`,
  `objects` (one set of object ids per item, at the item's position) and
  `objectCount`. Its methods update them in place.

Items are identified by their position in `Items`, and objects by their id.
`Choose` returns an index, or `None` where the source returns null.
`Bucket.alg` is a datatype tag, `Straw2(ln)` or `Straw2Plus`, not a delegate.

The source dereferences null in two places: `AddObject` and `Rebalance`,
when no item is eligible. The model gives each an error outcome:

- `AddObject` returns `None` with the state unchanged. The exception happens
  before anything is written.
- `Rebalance` returns `ok == false` after removing the first object it
  visits from its set. The source removes that object and then throws, so
  the object is lost.

## Model

| member | source | states |
|---|---|---|
| Words.XorInvolution | Hash.cs:75-83 | xoring the same word twice restores the original, so every `^=` of a row can be undone |
| Words.AddSub | Hash.cs:75-83 | wrap-around `+` and `-` on `uint` undo each other |
| Hash.LineInverse | Hash.cs:75 | one line `x = x-y; x = x-z; x = x^t` is undone by `UnLine`, and `UnLine` is undone by the line |
| Hash.RowInverse | Hash.cs:75-83 | each of the nine rows of the mix has a two-sided inverse, because the shifted register it xors in is one it does not change |
| Hash.RowsInverse | Hash.cs:75-83 | rows `k` to 8 applied in order are undone by undoing them in reverse order, on both sides |
| Hash.MixInverse | Hash.cs:73-84 | `Unmix(Mix(r)) == r` and `Mix(Unmix(r)) == r`: the mix is a bijection on register triples |
| Hash.MixInjective | Hash.cs:73-84 | two triples with the same mix are equal |
| Hash.Hashmix | Hash.cs:73-84 | the 27 in-place assignments of `Hashmix` leave the registers equal to `Mix` of their initial values |
| Hash.StepInverse | Hash.cs:60 | one `Hashmix(ref p, ref q, ref hash)` call on the locals of an overload can be undone |
| Hash.RunInverse | Hash.cs:60-67 | the whole sequence of calls of an overload can be undone, last call first |
| Hash.RunInjective | Hash.cs:60-67 | two starting register files with the same final register file are equal |
| Hash.Schedule | Hash.cs:6-69 | no overload passes the same local twice, or `hash` in the first two positions, to `Hashmix` |
| Hash.SeededZeros | Hash.cs:57 | with all-zero inputs the seed `HashSeed ^ in0 ^ ... ^ ink` is `HashSeed` |
| Hash.SeedOfZeroInputs | Hash.cs:57-59 | with all-zero inputs the accumulator starts at 1315423911, not 0, and `x`, `y` start at 231232 and 1232 |
| Hash.StartInjective | Hash.cs:55-59 | the starting locals of an overload determine its inputs |
| Hash.FinalRegistersDetermineInputs | Hash.cs:55-69 | the final values of all locals of an overload determine its inputs |
| Hash.Calculate1 | Hash.cs:6-15 | the one-input overload mixes the copy `b` with `x`, then `y` with the original `a`, and returns `HashOf([a])` |
| Hash.Calculate2 | Hash.cs:17-26 | the two-input overload, with its `ref` threading, returns `HashOf([a, b])` |
| Hash.Calculate3 | Hash.cs:28-39 | the three-input overload returns `HashOf([a, b, c])`; each call sees the locals left by the previous ones |
| Hash.Calculate4 | Hash.cs:41-53 | the four-input overload returns `HashOf([a, b, c, d])` |
| Hash.Calculate5 | Hash.cs:55-69 | the five-input overload returns `HashOf([a, b, c, d, e])` |
| Selection.TruncDiv | Program.cs:107 | C# `long` division truncates toward zero: the quotient is never larger in magnitude than the dividend |
| Selection.TruncDivRemainder | Program.cs:138 | the remainder of the truncating division is smaller than the divisor in magnitude and has the sign of the dividend |
| Selection.Straw2Score | Program.cs:102-107 | with `0 <= Ln.Get(u) <= 2^48`, a Straw2 draw lies in [-2^48, 2^48], so it is strictly above the sentinel `long.MinValue` |
| Selection.LanesNoCarry | Program.cs:130-135 | the four masked terms add without wrapping: `s & 0xffff` is the sum of bytes 0 and 1 of both draws, `s >> 16` the sum of bytes 2 and 3 |
| Selection.LanesBound | Program.cs:130-135 | each 16-bit lane of `s` is at most 4 * 255 = 1020 |
| Selection.LaneSquaresBound | Program.cs:133-136 | both recentred lanes are within 510 of zero, so `sum1*sum1 + sum2*sum2` lies in [0, 520200] |
| Selection.Straw2PlusSquares | Program.cs:127-136 | the Straw2Plus sum of squares of the two draws lies in [0, 520200] |
| Selection.Straw2PlusScore | Program.cs:137-138 | the shifted and divided Straw2Plus score is at most 520200 * 2^42 in magnitude |
| Selection.Straw2PlusNoOverflow | Program.cs:130-138 | the squares fit in `int`, the shifted value stays below 2^62, and every score is strictly inside the `long` range, so the sentinel `long.MaxValue` is always beaten |
| Selection.Score | Program.cs:96-138 | every score of either strategy is strictly between `long.MinValue` and `long.MaxValue` |
| Selection.BestStep | Program.cs:109-113 | one loop iteration: a later score replaces the current choice only if it is strictly better |
| Selection.BestNone | Program.cs:95-115 | the fold over the scores yields no choice exactly when no item has a score |
| Selection.BestWins | Program.cs:109-113 | the fold's choice beats every later score and is not beaten by any earlier one |
| Selection.WinsUnique | Program.cs:109-113 | at most one position wins |
| Selection.BestIsWinner | Program.cs:109-113 | the fold returns `Some(w)` exactly when `w` wins |
| Selection.Pick | Program.cs:93-147 | the choice is null exactly when no item is eligible, and otherwise an eligible item |
| Selection.WinsOrderedIff | Program.cs:139-143 | with a strict comparison, ties go to the earlier item: winning is beating every earlier score and not being beaten by any later one |
| Selection.IsWinnerScores | Program.cs:99-107 | the outright statement of the winner, in item scores, agrees with the one over the fold's list of scores |
| Selection.PickIsWinner | Program.cs:109-113 | the choice is `w` exactly when `w` is eligible, beats every earlier eligible item and is not beaten by any later one: the highest draw for Straw2, the lowest score for Straw2Plus |
| Selection.BestReplace | Program.cs:97-114 | changing one score can only move the choice onto or off that position |
| Selection.ReplaceLocality | Program.cs:122-138 | changing one item's weight or disabled flag can only move the choice onto or off that item |
| Selection.AppendLocality | Program.cs:200 | appending an item can only move the choice onto the new item |
| Selection.Straw2ItemDraw | Program.cs:99-107 | the body of a `Choose_Straw2` iteration for an eligible item computes its draw |
| Selection.Straw2PlusItemScore | Program.cs:127-138 | the body of a `Choose_Straw2Plus` iteration for an eligible item computes its score |
| Selection.ChooseStraw2 | Program.cs:93-116 | the `Choose_Straw2` loop returns `Pick` for Straw2: the highest draw, the earliest on ties, null when no item is eligible |
| Selection.ChooseStraw2Plus | Program.cs:118-147 | the `Choose_Straw2Plus` loop returns `Pick` for Straw2Plus: the lowest score, the earliest on ties, null when no item is eligible |
| Buckets.AddTo | Program.cs:51 | adding a fresh id to one set keeps the sets disjoint and grows their union by exactly that id |
| Buckets.RemoveFrom | Program.cs:75 | removing a held id from its set keeps the sets disjoint and shrinks their union by exactly that id |
| Buckets.MoveKeeps | Program.cs:75-76 | a `Remove` paired with an `Add` on another item keeps the sets disjoint and their union unchanged |
| Buckets.MoveMisplaced | Program.cs:71-77 | moving an id to its chosen item takes exactly that id off the misplaced ids |
| Buckets.MoveSettled | Program.cs:67-80 | such a move keeps the earlier items settled and the visited ids of the current item at home |
| Buckets.PlacedAt | Program.cs:55-59 | adding the listed ids one after another, each to its chosen item, grows every set by exactly the listed ids whose chosen item it is: no id held before moves and no set loses anything |
| Buckets.Bucket.constructor | Program.cs:33-37 | a new bucket has one enabled, empty item per weight, holds nothing and counts zero |
| Buckets.Bucket.Choose | Program.cs:85-88 | `Choose(obj, r)` is the strategy's choice over the current items |
| Buckets.Bucket.AddObject | Program.cs:48-53 | the object goes to `Choose(obj)` only, no other set changes, the count goes up by exactly 1 and stays equal to the number held; with no eligible item nothing changes |
| Buckets.Bucket.AddObjects | Program.cs:55-59 | either all new objects are placed, each at its chosen item, and the count rises by their number, or no item is eligible and nothing changes; on success each item's set is its old set plus exactly the new objects chosen for it, so objects held before stay where they were |
| Buckets.Bucket.Rebalance | Program.cs:61-81 | items and count unchanged; held objects conserved; every object ends at its chosen item; `moved` counts those that were not; on a bucket already settled it moves nothing; with no eligible item exactly one object is removed from its set and nothing else changes |
| Buckets.Bucket.SetWeight | Program.cs:168 | setting a weight changes that item only and moves no object |
| Buckets.Bucket.SetDisabled | Program.cs:176 | setting the disabled flag changes that item only and moves no object |
| Buckets.Bucket.AddItem | Program.cs:200 | appending an item adds an empty set and moves no object |

## Left out

- `Test`, `ShowObjectDistribution` and `Main` (console driver, I/O): not
  modelled. The driver's own updates of `Items` are modelled: the weight
  change, the disabled flag and the appended item. These are `SetWeight`,
  `SetDisabled` and `AddItem`.
- `Update`, `Item.w` and the `expected` output of `Rebalance`: not
  modelled. They are `double` arithmetic with a truncating cast, and a
  weight sum of zero gives NaN.
- The table behind `Ln.Get` is not modelled. It is a parameter of the
  Straw2 strategy: any function on 16-bit values with range [0, 2^48].
- The static `idCounter` fields of `Obj` and `Item`: ids are supplied by
  the caller. The constructor takes the item ids. `AddObjects` takes the ids
  of the new objects rather than a count, and a negative count is an empty
  list. `uint` wrap-around of the counters is not modelled.
- `uint` is modelled as integers in [0, 2^32) with explicit reduction
  modulo 2^32, not as `bv32`. The masks `& 0xffff` and `& 0x00ff00ff` are
  written as `%` and `/` by powers of two.
- `HashSet` iteration order: the order in which `Rebalance` visits a
  snapshot is an arbitrary choice. Every property holds for every order.
- Reference identity: items are positions in the list and objects are ids.
  `dest != item` becomes a comparison of positions.
- Buckets.Bucket.AddObject: requires a fresh object. The source's only
  caller passes `new Obj()`. A duplicate would raise `ObjectCount` while
  `HashSet.Add` ignores it.
- Buckets.Bucket.AddObjects: requires distinct fresh ids, for the same
  reason.
- `ObjectCount` and `moved` are unbounded integers. Overflow of the C# `int`
  is not modelled.
- Statistical properties: the distribution of objects in proportion to
  weight, the quality of the hash, and how close `moved` comes to
  `expected`. These are not modelled.
