# A verified model of a Kakuro solver

This project models a Python Kakuro solver in Dafny and proves properties of the model. It covers two parts:

- the puzzle model and its propagation rules in `board.py`:
  - a `Tile` is one white cell;
  - a `Constraint` is one run, with its clue and every way of filling it;
  - a `Board` keeps the tiles keyed by location, in insertion order, and the runs keyed by index;
- the depth-first search in `kakuro.py`:
  - each turn commits the forced cells, propagates, prunes, and branches on a cell with the fewest candidates;
  - the turns run over a last-in first-out stack of boards.

## How the code is modelled

Each source method that updates an object in place becomes a Dafny method. It takes the old value and returns the new one. `Tile`, `Constraint` and `Board` are datatypes. `copy.deepcopy` is a plain value copy, so boards never share state.

Every such method is proved against a ghost specification of its new state:

- `PlacedPost` for `place_tile`;
- `PropagatedPost` for `update_constraints`;
- `Commit`, `Pruned`, `WithTwo` and `SkipRemove` for the loops inside them.

Properties of those specifications are proved as lemmas.

The source has several loops that remove elements from the list they are iterating over. Because the loop index still advances after a removal, the element after each removed one is never examined. `Lists.SkipRemove` models exactly this, and `Lists.SkipRemoveSkipsNext` proves that the skipped element survives. The affected loops are:

- `remove_placements_without_numbers`;
- both loops of `update_constraints_with_two`;
- the placement loop of `update_constraints`.

The source relies on aliasing in two places, and the model writes both out:

- `place_tile` removes the placed value from the run's own `possible_numbers` set (`Placement.Commit`).
- The second loop of the two-tile rule reads the first tile's list after the first loop has already narrowed it (`Propagation.PairNarrowed`).

The source iterates Python sets in three places:

- `possible_numbers`;
- a tile's set of run indices;
- the set of tuples in `calculate_possible_subsets`.

Python leaves the iteration order of a set open. The model fixes one: sets of digits and of run indices are iterated in ascending order, and the placements of a run are listed in lexicographic order. CPython's order differs. It follows the slots of a hash table, so `{7, 9}` iterates 9 before 7. The chosen order decides the order of every candidate list that `intersect_possible_values` builds, the order of the placement lists, and so what the remove-while-iterating loops keep (see "## Left out"). For `place_tile` the order does not matter: the model walks the runs in increasing index order and the candidates left are the same in any order.

The duplicate test in `is_legal`, `len(cur_values) < len(set(cur_values))`, can never be true: a list never has more distinct elements than entries. The model keeps the test, and proves the branch dead. `Oracles.LegalIgnoresRepeats` shows a board whose only run has two cells that both hold 1; that board is both legal and complete.

`single_turn` calls `board.print_board()`, which `Board` does not define. The model returns this as `crashed`, and `Kakuro.SolveKakuro` reports it as the `Crashed` outcome.

## Model

| member | source | states |
|---|---|---|
| Lists.RemoveFirst | board.py:122 | `list.remove(x)`: the result is one element shorter and its multiset is the input's with one `x` fewer |
| Lists.Sum | board.py:496 | Python's `sum` of a list, defined by recursion; `Lists.SumAppend` lets the scans add one value at a time |
| Lists.Elements | board.py:499 | Python's `set(list)`: the set of the list's entries; a list never has more distinct entries than it has entries (`Lists.ElementsAtMostLength`) |
| Lists.SkipRemove | board.py:259-263 | the remove-while-iterating loop as a definition: the entry at index `i` is examined, removed by its first occurrence when the test holds, and the index advances either way; its properties are the `SkipRemove` lemmas below |
| Lists.SkipRemoveDropsOnly | board.py:259-263 | the remove-while-iterating loop removes only elements the test holds of, and keeps every copy of every other element |
| Lists.SkipRemoveSubset | board.py:259-263 | every element of the result was in the input; every element the test rejects stays |
| Lists.SkipRemoveAscending | board.py:536-541 | the loop keeps a strictly increasing list strictly increasing |
| Lists.SkipRemoveDistinct | board.py:551-554 | the loop keeps a list without repeats without repeats |
| Lists.SkipRemoveKeepsPassed | board.py:259-263 | in a list without repeats, the loop never removes an entry it has already passed |
| Lists.SkipRemoveSkipsNext | board.py:259-263 | when the entry at position `i` is removed, the entry after it survives the loop, whatever the test says of it |
| Digits.InIterationOrder | board.py:110 | the order in which a set of digits is iterated lists exactly the set's digits |
| Digits.InIterationOrderDigitList | board.py:110 | that order is strictly increasing |
| Digits.AllNumbersIsDigitList | board.py:12 | `ALL_NUMBERS` is the digits 1..9 in increasing order |
| Digits.DigitListLength | board.py:3 | a list of strictly increasing digits has at most `BIGGEST_NUM` entries |
| Subsets.CombinationsMembers | board.py:232-243 | the lexicographic enumeration lists exactly the strictly increasing lists of `n` digits from `lo`..9 that sum to `total` |
| Subsets.CombinationsDistinct | board.py:239-242 | the enumeration lists each combination once |
| Subsets.PossibleSubsets | board.py:221-243 | the list `calculate_possible_subsets` returns, with the source's guards, its `n == 1` case and the general case in lexicographic order; proved exact by `Subsets.PossibleSubsetsExact` |
| Subsets.AsWritten | board.py:232-240 | the source's recursion read literally, as a set: each digit `i` prepended to every shorter option without `i`, sorted; proved equal to the placements by `Subsets.AsWrittenIsPlacements` |
| Subsets.PossibleSubsetsExact | board.py:221-243 | `calculate_possible_subsets(s, n)` gives nothing for `n <= 0`, and otherwise exactly the strictly increasing `n`-digit lists summing to `s`, each once; for `n == 1` this is `[[s]]` when `1 <= s <= 9` |
| Subsets.CollectMembers | board.py:233-240 | the source's loop over `i` collects `p` exactly when some digit `j >= i` contributes it |
| Subsets.AsWrittenSound | board.py:221-243 | everything the source's recursion collects is an `n`-digit placement summing to `s` |
| Subsets.AsWrittenComplete | board.py:221-243 | the source's recursion collects every such placement |
| Subsets.AsWrittenIsPlacements | board.py:221-243 | both directions: the source's set is exactly the set of placements |
| Subsets.PossibleSubsetsMatchesSource | board.py:221-243 | the modelled list and the source's recursion hold the same placements |
| Subsets.InsertPlacement | board.py:238 | sorting an unused digit into a placement of `n - 1` tiles gives a placement of `n` tiles |
| Tiles.NewTile | board.py:35-49 | a new tile is at `(row, col)`, unvisited, in no run, and has every digit as a candidate |
| Tiles.NewTileValid | board.py:35-49 | a new tile satisfies the tile invariant |
| Tiles.SetValue | board.py:81-88 | the tile becomes visited, holds `v`, has `[v]` as its only candidate, and keeps its position and runs |
| Tiles.AddConstraint | board.py:90-95 | the run index is added to the tile's runs, and nothing else changes |
| Tiles.IntersectionMembers | board.py:103-112 | the intersection holds exactly the known values that were candidates |
| Tiles.IntersectionAscending | board.py:103-112 | intersecting with a strictly increasing list gives a strictly increasing list |
| Tiles.Intersection | board.py:103-112 | the list `intersect_possible_values` builds: the known values that are candidates, in the order of the known values; its properties are the two lemmas above |
| Tiles.IntersectPossibleValues | board.py:103-112 | the loop leaves the tile with exactly the entries of `known` that were candidates, in `known`'s order |
| Tiles.RemoveValueFromPossible | board.py:114-123 | returns true exactly when `v` was a candidate; if not, the tile is unchanged; if so, one copy of `v` is gone and nothing else changed |
| Constraints.RunDistinct | board.py:166-175 | the cells of a run are pairwise distinct |
| Constraints.FindLocations | board.py:166-175 | the cells are `(r + k, c)` for `k = 1..n` when vertical, `(r, c + k)` otherwise, and none when `n <= 0` |
| Constraints.IsInRun | board.py:195-201 | a cell is in a run exactly when it lies 1..`num_tiles` steps past the clue cell |
| Constraints.IsIn | board.py:195-201 | `Constraint.is_in`: whether a location is one of the run's cells; `Constraints.IsInRun` states which cells those are |
| Constraints.CollectNumbers | board.py:158-164 | the union loop yields exactly the digits used by the placements |
| Constraints.NumbersOfAppend | board.py:160-164 | adding a placement adds exactly its digits to the union |
| Constraints.NewConstraint | board.py:137-164 | the constructor stores the clue, lays out the run, lists exactly the placements of the clue, and sets `possible_numbers` to their union, which holds only digits |
| Constraints.WithoutPlacement | board.py:245-251 | state of a run after `remove_placement(p)`: one copy of `p` fewer, the union recomputed, and nothing else changed |
| Constraints.RemovePlacement | board.py:245-251 | an absent placement changes nothing; a present one is removed once and the union recomputed; the run invariant is kept |
| Constraints.MissingAt | board.py:260-261 | a placement without one of the required numbers is missing a number |
| Constraints.RemovePlacementsWithoutNumbers | board.py:253-268 | the run keeps the placements the skipping loop keeps; only placements missing a required number are dropped, every copy of every other one stays, and the union is recomputed |
| Boards.CoveringRunsSame | board.py:360-392 | runs with the same cells cover the same locations |
| Boards.AddConst | board.py:360-392 | the run is built as the next constraint; its missing cells get new tiles in run order; each cell adds the run's index and narrows its candidates to the run's digits; nothing else changes; validity and "candidates are what all runs allow" are kept |
| Boards.LinkTile | board.py:386-391 | the two calls made on one tile: add the run index, then intersect with the run's digits |
| Boards.LinkRun | board.py:377-391 | the loop over the run's cells leaves the state `AddConstPost` describes |
| Boards.LinkStep | board.py:378-391 | one turn of that loop keeps the loop invariant |
| Boards.LinkedTile | board.py:386-391 | a linked tile has the run among its runs and exactly its old candidates that the run allows, in increasing order |
| Boards.AddConstKeys | board.py:382-384 | the new tiles extend the key order without repeats |
| Boards.AddConstWired | board.py:374-388 | after the call, every tile lists exactly the runs that cover it, and every cell of every run has a tile |
| Boards.AddConstValid | board.py:360-392 | adding a run to a valid board with no visited tiles gives a valid board with no visited tiles |
| Boards.AddConstCandidates | board.py:390-391 | a tile's candidates stay exactly the digits that every run covering it can use |
| Boards.AddConstCovered | board.py:378-384 | every tile stays a cell of some run |
| Boards.TilesAreCells | board.py:378-384 | when every cell has a tile and every tile is covered, the tiles are exactly the cells of the runs |
| Boards.NewBoard | board.py:285-298 | the constructor adds the runs in order; the result is valid, has no visited tile, its tiles are exactly the cells of the runs, and each tile's candidates are the digits all its runs allow |
| Boards.GetTile | board.py:394-403 | `None` exactly when there is no tile at `(row, col)`, else that tile |
| Boards.GetConstraint | board.py:412-420 | `None` exactly when there is no run with that index, else that run |
| Boards.TileRunsAgree | board.py:450-452 | on a valid board, a tile lists a run exactly when `get_constraint` finds that run and the run has the tile as a cell |
| Boards.RunCellsPresent | board.py:457-460 | on a valid board, each cell of a run has a tile at that position that lists the run |
| Placement.MissingOne | board.py:453 | `remove_placements_without_numbers([v])` drops a placement exactly when it lacks `v` |
| Placement.Commit | board.py:452-456 | a covering run keeps its other fields; only placements without `v` are dropped, every copy of every placement with `v` stays, and the digit union is recomputed without `v` |
| Placement.CommitValid | board.py:452-456 | committing keeps the run invariant |
| Placement.NarrowStep | board.py:463 | intersecting a narrowed tile with a run's digits narrows it by that run as well |
| Placement.NarrowCellStep | board.py:457-463 | the loop body skips the placed cell and visited cells, and intersects the others |
| Placement.SiblingsStep | board.py:457-463 | one turn of the loop over a run's cells keeps its invariant |
| Placement.SiblingsFrame | board.py:452-456 | committing a run not yet handled leaves the tiles narrowed as before |
| Placement.SiblingsClose | board.py:457-463 | once every cell of the run is handled, every tile is narrowed by that run too |
| Placement.NarrowRun | board.py:457-463 | the loop over the run's cells narrows every unvisited cell other than the placed one by the run's digits, and changes nothing else |
| Placement.CommitRun | board.py:451-463 | one turn of the loop of `place_tile` commits run `k` and narrows its cells |
| Placement.ValidPlaceable | board.py:450-452 | a valid board meets what `place_tile` needs at any of its tiles |
| Placement.PlaceTile | board.py:443-466 | the covering runs are committed to `v` and the other runs unchanged; the tile ends visited with value `v` and candidates `[v]`; visited tiles are unchanged; every other tile keeps exactly its candidates that all committed runs covering it allow, so candidates only shrink |
| Placement.PlaceTileValid | board.py:443-466 | placing a digit keeps the board invariant |
| Placement.PlaceTileKeepsClues | board.py:443-466 | placing a digit changes no run's total, length or cells |
| Placement.PlaceTileUnrelated | board.py:443-466 | a tile that shares no run with the placed cell is left exactly as it was |
| Placement.PlaceTileClearsRuns | board.py:454-463 | no unvisited tile sharing a run with the placed cell keeps `v` as a candidate |
| Placement.OneMoveBoardCopy | board.py:319-332 | `None` exactly for a value outside 1..9; otherwise a valid copy with the value placed as `PlaceTile` places it |
| Propagation.NarrowedMeaning | board.py:536-541 | one pass of the two-tile rule removes only values whose complement the partner lacks, and keeps every copy of the others |
| Propagation.PairNarrowedMeaning | board.py:536-541 | both passes only shrink the lists; the second pass is measured against the already narrowed first |
| Propagation.PairKeepsSolutions | board.py:536-541 | a pair of candidates that fills the run survives both passes |
| Propagation.PairNarrowedDigits | board.py:536-541 | lists of strictly increasing digits stay so |
| Propagation.PairNarrowed | board.py:536-541 | the two lists the two-tile rule leaves: the first narrowed against the second, then the second against the narrowed first; its properties are the three lemmas above |
| Propagation.NarrowAgainst | board.py:536-541 | the loop over a tile's own shrinking list leaves the candidates `SkipRemove` gives, and changes nothing else |
| Propagation.PairStep | board.py:524-541 | the rule for one run keeps the set of tile locations |
| Propagation.PairRun | board.py:524-541 | one turn of the loop: non-two-cell runs and runs with a visited cell are skipped; otherwise both tiles are narrowed |
| Propagation.PairStepShrinks | board.py:524-541 | one run of the rule only shrinks candidates, and touches only the run's two cells |
| Propagation.UpdateConstraintsWithTwo | board.py:522-541 | the board's tiles become `WithTwo` over all runs; nothing else changes |
| Propagation.WithTwoShrinks | board.py:522-541 | the two-tile rule only shrinks candidates, keeps them strictly increasing digits, and leaves visited tiles alone |
| Propagation.WithTwoUntouched | board.py:522-541 | a tile that is a cell of no two-cell run is left unchanged |
| Propagation.WithTwo | board.py:524-541 | the tiles after the loop of `update_constraints_with_two` has handled the first `k` runs; the set of locations stays the same |
| Propagation.ValidPairable | board.py:526-530 | on a valid board, both cells of every two-cell run exist and are distinct |
| Propagation.EscapesAppend | board.py:552-553 | a placement has a digit outside the set exactly when its prefix does or its last digit is outside |
| Propagation.RunCandidatesMeaning | board.py:546-550 | a digit is in the union of a run's candidates exactly when one of its cells has it |
| Propagation.CollectRunCandidates | board.py:546-550 | the loop yields the union of the candidates of the run's tiles |
| Propagation.DropIfEscapes | board.py:552-554 | the first digit outside the allowed set removes the placement, and later calls find it gone; the run invariant is kept |
| Propagation.PruneRun | board.py:551-554 | the loop over the run's own shrinking list of placements leaves `Pruned` |
| Propagation.PrunedMeaning | board.py:551-554 | the rule drops only placements using a digit no cell allows, keeps every copy of the rest, and keeps the run valid |
| Propagation.Pruned | board.py:551-554 | the run the placement rule leaves: the placements using a digit outside the allowed set dropped, the one after each drop not examined, and the digit union recomputed when anything was dropped; its meaning is `Propagation.PrunedMeaning` |
| Propagation.UpdateConstraints | board.py:543-554 | the tiles become those after the two-tile rule, and every run is pruned against the candidates of its cells on those tiles |
| Propagation.UpdateConstraintsValid | board.py:543-554 | propagation keeps the board invariant |
| Propagation.UpdateConstraintsShrinks | board.py:543-554 | propagation adds no tile, no candidate and no placement, and changes nothing about a tile except its candidates |
| Propagation.UpdateConstraintsKeepsClues | board.py:543-554 | propagation changes no run's total, length or cells |
| Oracles.ValidScannable | board.py:478-520 | a valid board meets what the scans need |
| Oracles.OrderCovers | board.py:483 | every tile appears in the key order |
| Oracles.CollectVisitedValues | board.py:492-496 | `cur_values` is the values of the run's visited cells, in cell order |
| Oracles.IsLegal | board.py:478-501 | true exactly when every tile has a candidate and no run's placed values sum above its total |
| Oracles.IsComplete | board.py:503-520 | true exactly when every tile is visited and every run's values add up to its total |
| Oracles.CompleteImpliesLegal | board.py:478-520 | a complete board whose visited tiles keep one candidate is legal |
| Oracles.LegalIgnoresRepeats | board.py:499-500 | a run whose two cells both hold 1, with total 2, is legal and complete |
| Kakuro.ValidOrderInTiles | kakuro.py:52-53 | every entry of the key order has a tile |
| Kakuro.MinimalRemainingValues | kakuro.py:46-60 | `FLAG` when every tile is visited; otherwise an unvisited tile whose candidate count is minimal among unvisited tiles, the first such in key order |
| Kakuro.GetSingleValueTiles | kakuro.py:96-105 | `None` exactly when no unvisited tile has one candidate; otherwise the first such tile in key order |
| Kakuro.CountOpenMono | kakuro.py:64-70 | keeping every visited tile visited does not raise the number of unvisited tiles |
| Kakuro.CountOpenDrops | kakuro.py:64-70 | visiting one more tile lowers it |
| Kakuro.CountOpenSame | kakuro.py:72 | boards with the same keys and the same visited flags have the same number of unvisited tiles |
| Kakuro.PlaceTileVisits | kakuro.py:69 | placing a value visits the tile, unvisits none, and so lowers the count when the tile was unvisited |
| Kakuro.TraceExtend | kakuro.py:64-70 | one more forced move extends the trace of the loop |
| Kakuro.PlaceForced | kakuro.py:64-70 | the forced-move loop ends; the boards it passes through form a trace from the input in which each step places the first forced tile's only candidate at that tile by `place_tile` (`PlacedPost`); it leaves no unvisited tile with exactly one candidate, and keeps the board valid, its keys, order and clues |
| Kakuro.ChildrenExtend | kakuro.py:89-92 | appending a child keeps the per-child facts |
| Kakuro.Branch | kakuro.py:86-93 | one child per candidate of the chosen tile, in candidate order, each a valid board with that candidate placed there, the same cells and clues, and fewer unvisited tiles; the counter grows by the number of children, at most nine |
| Kakuro.SingleTurn | kakuro.py:63-93 | forced moves as in `PlaceForced`, then propagation (`PropagatedPost`), with the clues kept; no children for an illegal or complete board; `crashed` exactly for a legal, incomplete board whose MRV location has no tile, which happens only when every tile is visited; otherwise the MRV tile's children as in `Branch`, each over the input's cells and clues |
| Kakuro.Pow10 | kakuro.py:112 | helper fact for the termination measure: `10^n` is positive, so every board on the stack adds to the weight |
| Kakuro.WeightAppend | kakuro.py:92 | the weight of a stack is additive over concatenation |
| Kakuro.Pow10Mono | kakuro.py:112 | the weight grows with the number of unvisited tiles |
| Kakuro.WeightBelow | kakuro.py:89-92 | boards that each have fewer than `u` unvisited tiles weigh at most their number times `10^(u-1)` |
| Kakuro.ChildrenLighter | kakuro.py:89-92 | at most nine such boards weigh less than one board with `u` unvisited tiles |
| Kakuro.PopPushLighter | kakuro.py:112-114 | popping a board and pushing its children lowers the weight of the stack |
| Kakuro.StackPush | kakuro.py:113-114 | the stack keeps holding valid boards over the input's cells and clues |
| Kakuro.CompleteSolves | kakuro.py:115-116 | a complete, valid board over the cells and clues of the input solves the input |
| Kakuro.SolveKakuro | kakuro.py:108-118 | the search terminates; a reported solution solves the input puzzle: every input cell holds a digit and every input run's digits add up to its clue; the board is also complete, valid and has the input's clues; the counter is at least 1 |

## Left out

- `Tile.get_row`, `get_col`, `get_value`, `is_visited`, `possible_values`, `get_constraints` and `num_possible` (board.py:51-129) are plain field reads. The model reads the datatype fields instead.
- The `Constraint` getters (board.py:177-219) are likewise field reads.
- `Board.get_tiles` and `tile_poss_values` (board.py:405-410, 468-476) are likewise field reads.
- `Board.__str__`, `Constraint.__str__` and the serial-number string (board.py:270-277, 291, 331, 334-358) are left out. They only build text for printing.
- `choose_board_dimensions` (board.py:300-317) is left out. It only feeds `__str__`.
- `get_related_tiles` and `num_related_tiles` (board.py:422-441) are left out. Nothing calls them, and they iterate bound methods without calling them, which would raise at run time.
- The `print` calls, `time.time()`, the `__main__` block and the `EXAMPLE_*` clue lists (kakuro.py:7-43, 116-126) are left out. They are I/O, a clock and input data.
- The memo `possible_dict` (board.py:25) is replaced by the pure function it caches. Its entry for a key is always the function's value for that key, so every call sees the same list.
- Subsets.PossibleSubsets: lists the general case of `calculate_possible_subsets` in lexicographic order, where the source lists a Python set of tuples in hash order. `Subsets.PossibleSubsetsMatchesSource` proves only that the members are the same. The order is not harmless: the loops at board.py:259-263 and board.py:551-554 skip the entry after each removal, so the list order decides which placements survive. For clue 10 over two cells, CPython lists `[(3,7), (4,6), (1,9), (2,8)]`; placing 9 there keeps `[4,6]` and `[1,9]`, while the model's `[1,9], [2,8], [3,7], [4,6]` keeps `[1,9]` and `[3,7]`. The model therefore shows the behaviour of the code under the lexicographic order, not CPython's.
- Digits.InIterationOrder: iterates a set of digits in ascending order, where CPython iterates small-integer sets in hash-table slot order, which can differ (`{7, 9}` gives 9 first). Every candidate list that `intersect_possible_values` (board.py:110) builds takes this order. With it go which values the skipping loops of the two-tile rule (board.py:536-541) keep, and the order in which `single_turn` pushes children (kakuro.py:89-92) and so which solution the search meets first. For clue 14 with candidates {5, 6, 8, 9} and partner `[9]`, CPython's `[8, 9, 5, 6]` leaves `[9, 5]`, and the model's `[5, 6, 8, 9]` leaves `[5, 8]`.
- Six quantities are unbounded integers: the row/column coordinates, the clue sums, the run lengths, the tile count, the board-use counter and the termination weight. The source's integers are unbounded too.
- Aliasing between tiles is not modelled. Every tile gets its own candidate list from `intersect_possible_values` before anything removes from it. The list `ALL_NUMBERS` that a new tile starts with is never mutated in place in the source, because every tile is created in `add_const` and intersected at once.
- Placement.PlaceTile: requires the tile's candidates to be strictly increasing digits, which every valid board has. The source works on any list; the requirement is needed only to state the narrowing as a set.
- Propagation.UpdateConstraints: requires every run's placements to be distinct, which every board built by the constructor has. With a repeated placement, `remove_placement` would be called again for the later digits of an option and remove a second copy. The model would not capture that.
- Kakuro.SolveKakuro: requires that no tile sits at `FLAG = (-1, -1)`. Such a tile would make a fully visited, legal, incomplete board branch on itself for ever. The model does not state that the search explores boards in last-in first-out order beyond the code itself. It does not state that `NoSolution` means the puzzle has no solution either.
- Kakuro.SingleTurn: states its children through `Branch` and leaves the search's stack to `SolveKakuro`. The source appends to the stack inside `single_turn`; the order of the children is the same.
- The search models the failure at the missing `Board.print_board` as a `Crashed` outcome. The source would raise an `AttributeError` there.
