/**
 * `Constraint` (board.py:132-277): one run of cells with its clue. The source
 * object mutates its placement list in place; here each update returns the
 * new constraint value.
 */
module Constraints {
  import opened Lists
  import opened Digits
  import opened Subsets
  import opened Tiles

  const HORIZONTAL := 0
  const VERTICAL := 1

  /**
   * A run of `numTiles` cells starting one step past the clue cell at
   * `(startRow, startCol)`. Every orientation other than `VERTICAL` is read as
   * horizontal, as `find_locations` does.
   */
  datatype Constraint = Constraint(
    totalSum: int,
    numTiles: int,
    orientation: int,
    startRow: int,
    startCol: int,
    index: int,
    locations: seq<Loc>,
    possibleSets: seq<seq<int>>,
    possibleNumbers: set<int>)

  /** The `k`-th cell past the clue cell. */
  function Step(orientation: int, startRow: int, startCol: int, k: int): Loc {
    if orientation == VERTICAL then (startRow + k, startCol) else (startRow, startCol + k)
  }

  /** `locs` are the cells 1..n past the clue cell, in order (none when n <= 0). */
  ghost predicate IsRunOf(locs: seq<Loc>, n: int, orientation: int, startRow: int, startCol: int) {
    && |locs| == (if n > 0 then n else 0)
    && forall k :: 0 <= k < |locs| ==> locs[k] == Step(orientation, startRow, startCol, k + 1)
  }

  ghost predicate HasRunShape(c: Constraint) {
    IsRunOf(c.locations, c.numTiles, c.orientation, c.startRow, c.startCol)
  }

  /**
   * What every constraint of a board keeps: its cells form its run, and its
   * placements are distinct lists of strictly increasing digits of the right
   * length and sum. (`possibleNumbers` is left out on purpose: `place_tile`
   * removes the placed value from it through an alias.)
   */
  ghost predicate ConstraintValid(c: Constraint) {
    && HasRunShape(c)
    && Distinct(c.possibleSets)
    && forall p :: p in c.possibleSets ==> IsPlacement(p, c.totalSum, c.numTiles)
  }

  lemma RunDistinct(locs: seq<Loc>, n: int, orientation: int, startRow: int, startCol: int)
    requires IsRunOf(locs, n, orientation, startRow, startCol)
    ensures Distinct(locs)
  {
    forall i, j | 0 <= i < j < |locs| ensures locs[i] != locs[j] {
      assert locs[i] == Step(orientation, startRow, startCol, i + 1);
      assert locs[j] == Step(orientation, startRow, startCol, j + 1);
    }
  }

  /** `Constraint.find_locations`: the cells of the run, nearest to the clue first. */
  method FindLocations(n: int, orientation: int, startRow: int, startCol: int) returns (locs: seq<Loc>)
    ensures IsRunOf(locs, n, orientation, startRow, startCol)
    ensures Distinct(locs)
  {
    locs := [];
    if orientation == VERTICAL {
      var i := startRow + 1;
      while i < startRow + n + 1
        invariant startRow + 1 <= i <= (if n > 0 then startRow + n + 1 else startRow + 1)
        invariant |locs| == i - startRow - 1
        invariant forall k :: 0 <= k < |locs| ==> locs[k] == Step(orientation, startRow, startCol, k + 1)
      {
        locs := locs + [(i, startCol)];
        i := i + 1;
      }
    } else {
      var i := startCol + 1;
      while i < startCol + n + 1
        invariant startCol + 1 <= i <= (if n > 0 then startCol + n + 1 else startCol + 1)
        invariant |locs| == i - startCol - 1
        invariant forall k :: 0 <= k < |locs| ==> locs[k] == Step(orientation, startRow, startCol, k + 1)
      {
        locs := locs + [(startRow, i)];
        i := i + 1;
      }
    }
    RunDistinct(locs, n, orientation, startRow, startCol);
  }

  /** `Constraint.is_in`: whether `loc` is one of the run's cells. */
  function IsIn(c: Constraint, loc: Loc): bool {
    loc in c.locations
  }

  /** A cell is in a run exactly when it lies 1..numTiles steps past the clue cell. */
  lemma IsInRun(c: Constraint, loc: Loc)
    requires HasRunShape(c)
    ensures IsIn(c, loc) <==> exists k :: 1 <= k <= c.numTiles && loc == Step(c.orientation, c.startRow, c.startCol, k)
  {
    if IsIn(c, loc) {
      var k :| 0 <= k < |c.locations| && c.locations[k] == loc;
      assert loc == Step(c.orientation, c.startRow, c.startCol, k + 1);
    }
    if exists k :: 1 <= k <= c.numTiles && loc == Step(c.orientation, c.startRow, c.startCol, k) {
      var k :| 1 <= k <= c.numTiles && loc == Step(c.orientation, c.startRow, c.startCol, k);
      assert c.locations[k - 1] == loc;
    }
  }

  /** The digits used by any of the placements. */
  ghost function NumbersOf(sets: seq<seq<int>>): set<int> {
    set p, x | p in sets && x in p :: x
  }

  lemma NumbersOfAppend(sets: seq<seq<int>>, p: seq<int>)
    ensures NumbersOf(sets + [p]) == NumbersOf(sets) + Elements(p)
  {
    forall x | x in NumbersOf(sets + [p]) ensures x in NumbersOf(sets) + Elements(p) {
      var q :| q in sets + [p] && x in q;
      if q != p {
        assert q in sets;
      }
    }
    forall x | x in NumbersOf(sets) + Elements(p) ensures x in NumbersOf(sets + [p]) {
      if x in NumbersOf(sets) {
        var q :| q in sets && x in q;
        assert q in sets + [p];
      } else {
        assert p in sets + [p];
      }
    }
  }

  /** The loop, written out three times in the source, that unions the digits of the placements. */
  method CollectNumbers(sets: seq<seq<int>>) returns (numbers: set<int>)
    ensures numbers == NumbersOf(sets)
  {
    numbers := {};
    for i := 0 to |sets|
      invariant numbers == NumbersOf(sets[..i])
    {
      var option := sets[i];
      for j := 0 to |option|
        invariant numbers == NumbersOf(sets[..i]) + Elements(option[..j])
      {
        assert option[..j + 1] == option[..j] + [option[j]];
        numbers := numbers + {option[j]};
      }
      assert option[..|option|] == option;
      assert sets[..i + 1] == sets[..i] + [option];
      NumbersOfAppend(sets[..i], option);
    }
    assert sets[..|sets|] == sets;
  }

  /** The facts `Constraint.__init__` establishes, gathered for the board. */
  ghost predicate Built(c: Constraint, totalSum: int, numTiles: int, orientation: int,
                        startRow: int, startCol: int, index: int)
  {
    && c.totalSum == totalSum && c.numTiles == numTiles && c.orientation == orientation
    && c.startRow == startRow && c.startCol == startCol && c.index == index
    && IsRunOf(c.locations, numTiles, orientation, startRow, startCol)
    && c.possibleSets == PossibleSubsets(totalSum, numTiles)
    && c.possibleNumbers == NumbersOf(c.possibleSets)
  }

  /**
   * `Constraint.__init__`: the run's cells, every placement of the clue (each
   * strictly increasing list of distinct digits of the right length and sum,
   * once), and the union of their digits.
   */
  method NewConstraint(totalSum: int, numTiles: int, orientation: int,
                       startRow: int, startCol: int, index: int) returns (c: Constraint)
    ensures Built(c, totalSum, numTiles, orientation, startRow, startCol, index)
    ensures forall p :: p in c.possibleSets <==> numTiles >= 1 && IsPlacement(p, totalSum, numTiles)
    ensures forall x :: x in c.possibleNumbers ==> IsDigit(x)
    ensures ConstraintValid(c)
  {
    var locs := FindLocations(numTiles, orientation, startRow, startCol);
    var options := PossibleSubsets(totalSum, numTiles);
    var numbers := CollectNumbers(options);
    c := Constraint(totalSum, numTiles, orientation, startRow, startCol, index, locs, options, numbers);
    PossibleSubsetsExact(totalSum, numTiles);
    forall x | x in numbers ensures IsDigit(x) {
      var p :| p in options && x in p;
    }
  }

  /** The constraint `remove_placement(p)` leaves when `p` is present: one copy fewer, digits recomputed. */
  ghost function WithoutPlacement(c: Constraint, p: seq<int>): (r: Constraint)
    requires p in c.possibleSets
    ensures r == c.(possibleSets := r.possibleSets, possibleNumbers := r.possibleNumbers)
    ensures multiset(r.possibleSets) == multiset(c.possibleSets) - multiset{p}
    ensures r.possibleNumbers == NumbersOf(r.possibleSets)
  {
    var sets := RemoveFirst(c.possibleSets, p);
    c.(possibleSets := sets, possibleNumbers := NumbersOf(sets))
  }

  /**
   * `Constraint.remove_placement`: drops the first copy of `placement` and
   * recomputes the digit union; a placement that is not present changes nothing.
   */
  method RemovePlacement(c: Constraint, placement: seq<int>) returns (r: Constraint)
    ensures placement !in c.possibleSets ==> r == c
    ensures placement in c.possibleSets ==> r == WithoutPlacement(c, placement)
    ensures ConstraintValid(c) ==> ConstraintValid(r) && placement !in r.possibleSets
  {
    if placement in c.possibleSets {
      var sets := RemoveFirst(c.possibleSets, placement);
      var numbers := CollectNumbers(sets);
      r := c.(possibleSets := sets, possibleNumbers := numbers);
      RemoveFirstDistinct(c.possibleSets, placement);
      forall p | p in sets ensures p in c.possibleSets {
        RemoveFirstElements(c.possibleSets, placement, p);
      }
    } else {
      r := c;
    }
  }

  /** Some entry of `numbers` is missing from placement `p`. */
  predicate Missing(numbers: seq<int>, p: seq<int>) {
    exists x :: x in numbers && x !in p
  }

  lemma MissingAt(numbers: seq<int>, p: seq<int>, j: int)
    requires 0 <= j < |numbers| && numbers[j] !in p
    ensures Missing(numbers, p)
  {
    var x := numbers[j];
    assert x in numbers && x !in p;
  }

  function Lacks(numbers: seq<int>): seq<int> -> bool {
    p => Missing(numbers, p)
  }

  /**
   * `Constraint.remove_placements_without_numbers`: drops the placements
   * missing one of `numbers` while iterating the same list, so the placement
   * after each dropped one is not examined, then recomputes the digit union.
   */
  method RemovePlacementsWithoutNumbers(c: Constraint, numbers: seq<int>) returns (r: Constraint)
    ensures r == c.(possibleSets := r.possibleSets, possibleNumbers := r.possibleNumbers)
    ensures r.possibleSets == SkipRemove(c.possibleSets, 0, Lacks(numbers))
    ensures r.possibleNumbers == NumbersOf(r.possibleSets)
    ensures multiset(r.possibleSets) <= multiset(c.possibleSets)
    ensures forall p :: p in multiset(c.possibleSets) - multiset(r.possibleSets) ==> Missing(numbers, p)
    ensures forall p :: !Missing(numbers, p) ==> multiset(r.possibleSets)[p] == multiset(c.possibleSets)[p]
    ensures ConstraintValid(c) ==> ConstraintValid(r)
  {
    var sets := c.possibleSets;
    var i := 0;
    while i < |sets|
      invariant SkipRemove(sets, i, Lacks(numbers)) == SkipRemove(c.possibleSets, 0, Lacks(numbers))
      decreases |sets| - i
    {
      var possibility := sets[i];
      var before := sets;
      // the inner `for number in numbers` loop, up to its `break`
      var j := 0;
      while j < |numbers| && numbers[j] in possibility
        invariant 0 <= j <= |numbers|
        invariant forall t :: 0 <= t < j ==> numbers[t] in possibility
      {
        j := j + 1;
      }
      if j == |numbers| {
        forall x | x in numbers ensures x in possibility {
          var t :| 0 <= t < |numbers| && numbers[t] == x;
        }
        assert !Missing(numbers, possibility);
      } else {
        MissingAt(numbers, possibility, j);
      }
      assert Lacks(numbers)(possibility) <==> j < |numbers|;
      if j < |numbers| {
        sets := RemoveFirst(sets, possibility);
      }
      i := i + 1;
    }
    var union := CollectNumbers(sets);
    r := c.(possibleSets := sets, possibleNumbers := union);
    SkipRemoveDropsOnly(c.possibleSets, 0, Lacks(numbers));
    if ConstraintValid(c) {
      SkipRemoveDistinct(c.possibleSets, 0, Lacks(numbers));
      forall p | p in sets ensures p in c.possibleSets {
        SkipRemoveSubset(c.possibleSets, 0, Lacks(numbers), p);
      }
    }
  }
}
