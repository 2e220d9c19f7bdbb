/**
 * The propagation rules `Board.update_constraints_with_two`
 * (board.py:522-541) and `Board.update_constraints` (board.py:543-554). Both
 * only ever remove candidates and placements.
 */
module Propagation {
  import opened Lists
  import opened Digits
  import opened Tiles
  import opened Constraints
  import opened Boards

  // ---------------------------------------------------------------------
  // The two-tile rule

  /** The test of the two-tile rule: `n`'s complement to `total` is not among `partner`. */
  function NoComplement(total: int, partner: seq<int>): int -> bool {
    n => total - n !in partner
  }

  /**
   * The lists the two-tile rule leaves for a run with total `total`: the
   * first list loses the values without a complement in the second, then the
   * second loses those without a complement in the already narrowed first.
   * Each loop iterates the list it shrinks.
   */
  function PairNarrowed(total: int, first: seq<int>, second: seq<int>): (seq<int>, seq<int>) {
    var f := SkipRemove(first, 0, NoComplement(total, second));
    (f, SkipRemove(second, 0, NoComplement(total, f)))
  }

  /**
   * The two-tile rule removes only values whose complement the partner list
   * lacks, and keeps every copy of a value whose complement it has.
   */
  lemma PairNarrowedMeaning(total: int, first: seq<int>, second: seq<int>)
    ensures
      var (f, s) := PairNarrowed(total, first, second);
      && multiset(f) <= multiset(first) && multiset(s) <= multiset(second)
      && (forall x :: x in multiset(first) - multiset(f) ==> total - x !in second)
      && (forall x :: x in multiset(second) - multiset(s) ==> total - x !in f)
      && (forall x :: total - x in second ==> multiset(f)[x] == multiset(first)[x])
      && (forall x :: total - x in f ==> multiset(s)[x] == multiset(second)[x])
  {
    var f := SkipRemove(first, 0, NoComplement(total, second));
    NarrowedMeaning(total, first, second);
    NarrowedMeaning(total, second, f);
  }

  /** One pass of the two-tile rule, narrowing `xs` against `partner`. */
  lemma NarrowedMeaning(total: int, xs: seq<int>, partner: seq<int>)
    ensures
      var r := SkipRemove(xs, 0, NoComplement(total, partner));
      && multiset(r) <= multiset(xs)
      && (forall x :: x in multiset(xs) - multiset(r) ==> total - x !in partner)
      && (forall x :: total - x in partner ==> multiset(r)[x] == multiset(xs)[x])
  {
    SkipRemoveDropsOnly(xs, 0, NoComplement(total, partner));
  }

  /** A pair of values that fills the run survives the two-tile rule. */
  lemma PairKeepsSolutions(total: int, first: seq<int>, second: seq<int>, a: int, b: int)
    requires a in first && b in second && a + b == total
    ensures a in PairNarrowed(total, first, second).0 && b in PairNarrowed(total, first, second).1
  {
    var f := SkipRemove(first, 0, NoComplement(total, second));
    SkipRemoveSubset(first, 0, NoComplement(total, second), a);
    SkipRemoveSubset(second, 0, NoComplement(total, f), b);
  }

  lemma PairNarrowedDigits(total: int, first: seq<int>, second: seq<int>)
    ensures DigitList(first) ==> DigitList(PairNarrowed(total, first, second).0)
    ensures DigitList(second) ==> DigitList(PairNarrowed(total, first, second).1)
  {
    var f := SkipRemove(first, 0, NoComplement(total, second));
    var s := SkipRemove(second, 0, NoComplement(total, f));
    if DigitList(first) {
      SkipRemoveAscending(first, 0, NoComplement(total, second));
      forall x | x in f ensures IsDigit(x) {
        SkipRemoveSubset(first, 0, NoComplement(total, second), x);
      }
    }
    if DigitList(second) {
      SkipRemoveAscending(second, 0, NoComplement(total, f));
      forall x | x in s ensures IsDigit(x) {
        SkipRemoveSubset(second, 0, NoComplement(total, f), x);
      }
    }
  }

  /**
   * `for number in t.poss_values: if total - number not in partner:
   * t.remove_value_from_possible(number)`, over the list it shrinks.
   */
  method NarrowAgainst(t: Tile, total: int, partner: seq<int>) returns (r: Tile)
    ensures r == t.(possValues := SkipRemove(t.possValues, 0, NoComplement(total, partner)))
  {
    r := t;
    var i := 0;
    while i < |r.possValues|
      invariant r == t.(possValues := r.possValues)
      invariant SkipRemove(r.possValues, i, NoComplement(total, partner))
             == SkipRemove(t.possValues, 0, NoComplement(total, partner))
      decreases |r.possValues| - i
    {
      var number := r.possValues[i];
      if total - number !in partner {
        var removed := RemoveValueFromPossible(r, number);
        r := removed.0;
      }
      i := i + 1;
    }
  }

  /** A run the two-tile rule can read: a two-cell run has two distinct cells with tiles. */
  ghost predicate Pairable(keys: set<Loc>, c: Constraint) {
    c.numTiles == 2 ==>
      |c.locations| >= 2 && c.locations[0] in keys && c.locations[1] in keys && c.locations[0] != c.locations[1]
  }

  /** What the two-tile rule does to the tiles for run `c`. */
  function PairStep(tiles: map<Loc, Tile>, c: Constraint): (r: map<Loc, Tile>)
    requires Pairable(tiles.Keys, c)
    ensures r.Keys == tiles.Keys
  {
    if c.numTiles != 2 then tiles
    else
      var l0, l1 := c.locations[0], c.locations[1];
      var first, second := tiles[l0], tiles[l1];
      if first.visited || second.visited then tiles
      else
        var narrowed := PairNarrowed(c.totalSum, first.possValues, second.possValues);
        tiles[l0 := first.(possValues := narrowed.0)][l1 := second.(possValues := narrowed.1)]
  }

  /** One turn of the loop of `update_constraints_with_two`. */
  method PairRun(tiles: map<Loc, Tile>, c: Constraint) returns (r: map<Loc, Tile>)
    requires Pairable(tiles.Keys, c)
    ensures r == PairStep(tiles, c)
  {
    var constSum := c.totalSum;
    if c.numTiles != 2 {
      return tiles;
    }
    var first := tiles[c.locations[0]];
    var second := tiles[c.locations[1]];
    if first.visited || second.visited {
      return tiles;
    }
    first := NarrowAgainst(first, constSum, second.possValues);
    second := NarrowAgainst(second, constSum, first.possValues);
    r := tiles[c.locations[0] := first][c.locations[1] := second];
  }

  /** Every run of `cs` can be read by the two-tile rule. */
  ghost predicate AllPairable(keys: set<Loc>, cs: seq<Constraint>) {
    forall k :: 0 <= k < |cs| ==> Pairable(keys, cs[k])
  }

  /** The tiles after the loop of `update_constraints_with_two` has handled the first `k` runs. */
  function WithTwo(tiles: map<Loc, Tile>, cs: seq<Constraint>, k: nat): (r: map<Loc, Tile>)
    requires k <= |cs| && AllPairable(tiles.Keys, cs)
    ensures r.Keys == tiles.Keys
  {
    if k == 0 then tiles else PairStep(WithTwo(tiles, cs, k - 1), cs[k - 1])
  }

  /** `Board.update_constraints_with_two`. */
  method UpdateConstraintsWithTwo(b: Board) returns (r: Board)
    requires AllPairable(b.tiles.Keys, b.constraints)
    ensures r == b.(tiles := WithTwo(b.tiles, b.constraints, |b.constraints|))
  {
    var tiles := b.tiles;
    for k := 0 to |b.constraints|
      invariant tiles == WithTwo(b.tiles, b.constraints, k)
    {
      tiles := PairRun(tiles, b.constraints[k]);
    }
    r := b.(tiles := tiles);
  }

  /** `t` is `t0` with some candidates removed; a visited tile is left alone. */
  ghost predicate Shrunk(t0: Tile, t: Tile) {
    && t == t0.(possValues := t.possValues)
    && multiset(t.possValues) <= multiset(t0.possValues)
    && (DigitList(t0.possValues) ==> DigitList(t.possValues))
    && (t0.visited ==> t == t0)
  }

  lemma ShrunkTrans(t0: Tile, t1: Tile, t2: Tile)
    requires Shrunk(t0, t1) && Shrunk(t1, t2)
    ensures Shrunk(t0, t2)
  {
  }

  /**
   * One run of the two-tile rule only shrinks candidates, and changes no tile
   * unless the run has two cells and the tile is one of them.
   */
  lemma PairStepShrinks(tiles: map<Loc, Tile>, c: Constraint)
    requires Pairable(tiles.Keys, c)
    ensures forall l :: l in tiles ==> Shrunk(tiles[l], PairStep(tiles, c)[l])
    ensures forall l :: l in tiles && (c.numTiles != 2 || l !in c.locations) ==> PairStep(tiles, c)[l] == tiles[l]
  {
    if c.numTiles == 2 {
      var l0, l1 := c.locations[0], c.locations[1];
      var first, second := tiles[l0], tiles[l1];
      if !first.visited && !second.visited {
        PairNarrowedMeaning(c.totalSum, first.possValues, second.possValues);
        PairNarrowedDigits(c.totalSum, first.possValues, second.possValues);
      }
    }
  }

  /** The two-tile rule only shrinks candidates. */
  lemma {:induction false} WithTwoShrinks(tiles: map<Loc, Tile>, cs: seq<Constraint>, k: nat)
    requires k <= |cs| && AllPairable(tiles.Keys, cs)
    ensures forall l :: l in tiles ==> Shrunk(tiles[l], WithTwo(tiles, cs, k)[l])
  {
    if k > 0 {
      WithTwoShrinks(tiles, cs, k - 1);
      var before := WithTwo(tiles, cs, k - 1);
      PairStepShrinks(before, cs[k - 1]);
      forall l | l in tiles ensures Shrunk(tiles[l], WithTwo(tiles, cs, k)[l]) {
        ShrunkTrans(tiles[l], before[l], WithTwo(tiles, cs, k)[l]);
      }
    }
  }

  /** The two-tile rule leaves alone every tile that is a cell of no two-cell run. */
  lemma {:induction false} WithTwoUntouched(tiles: map<Loc, Tile>, cs: seq<Constraint>, k: nat)
    requires k <= |cs| && AllPairable(tiles.Keys, cs)
    ensures forall l :: l in tiles && (forall j :: 0 <= j < k && cs[j].numTiles == 2 ==> l !in cs[j].locations) ==>
      WithTwo(tiles, cs, k)[l] == tiles[l]
  {
    if k > 0 {
      WithTwoUntouched(tiles, cs, k - 1);
      PairStepShrinks(WithTwo(tiles, cs, k - 1), cs[k - 1]);
    }
  }

  /** With every cell of every run present, and the runs shaped as built, every run can be read by the two-tile rule. */
  lemma ValidPairable(b: Board)
    requires LocationsPresent(b) && forall k :: 0 <= k < |b.constraints| ==> HasRunShape(b.constraints[k])
    ensures AllPairable(b.tiles.Keys, b.constraints)
  {
    forall k | 0 <= k < |b.constraints| ensures Pairable(b.tiles.Keys, b.constraints[k]) {
      var c := b.constraints[k];
      if c.numTiles == 2 {
        RunDistinct(c.locations, c.numTiles, c.orientation, c.startRow, c.startCol);
        assert c.locations[0] in c.locations && c.locations[1] in c.locations;
      }
    }
  }

  // ---------------------------------------------------------------------
  // The placement rule

  /** Some digit of placement `p` is not in `allowed`. */
  predicate Escapes(allowed: set<int>, p: seq<int>) {
    exists x :: x in p && x !in allowed
  }

  function OutsideOf(allowed: set<int>): seq<int> -> bool {
    p => Escapes(allowed, p)
  }

  lemma EscapesAppend(allowed: set<int>, p: seq<int>, y: int)
    ensures Escapes(allowed, p + [y]) <==> Escapes(allowed, p) || y !in allowed
  {
    if Escapes(allowed, p) {
      var x :| x in p && x !in allowed;
      assert x in p + [y];
    }
    if y !in allowed {
      assert y in p + [y];
    }
    if Escapes(allowed, p + [y]) {
      var x :| x in p + [y] && x !in allowed;
      assert x == y || x in p;
    }
  }

  /** The candidates of the tiles at the first `m` cells of `locs`: `possible_values`. */
  ghost function RunCandidates(tiles: map<Loc, Tile>, locs: seq<Loc>, m: nat): set<int>
    requires m <= |locs| && forall i :: 0 <= i < |locs| ==> locs[i] in tiles
  {
    if m == 0 then {} else RunCandidates(tiles, locs, m - 1) + Elements(tiles[locs[m - 1]].possValues)
  }

  /** A digit is in the union exactly when one of the cells still has it as a candidate. */
  lemma {:induction false} RunCandidatesMeaning(tiles: map<Loc, Tile>, locs: seq<Loc>, m: nat, x: int)
    requires m <= |locs| && forall i :: 0 <= i < |locs| ==> locs[i] in tiles
    ensures x in RunCandidates(tiles, locs, m) <==> exists i :: 0 <= i < m && x in tiles[locs[i]].possValues
  {
    if m > 0 {
      RunCandidatesMeaning(tiles, locs, m - 1, x);
      if x in tiles[locs[m - 1]].possValues {
        assert x in Elements(tiles[locs[m - 1]].possValues);
      }
    }
  }

  /** The loop of `update_constraints` that unions the candidates of a run's tiles. */
  method CollectRunCandidates(tiles: map<Loc, Tile>, locs: seq<Loc>) returns (values: set<int>)
    requires forall i :: 0 <= i < |locs| ==> locs[i] in tiles
    ensures values == RunCandidates(tiles, locs, |locs|)
  {
    values := {};
    for m := 0 to |locs|
      invariant values == RunCandidates(tiles, locs, m)
    {
      var poss := tiles[locs[m]].possValues;
      for j := 0 to |poss|
        invariant values == RunCandidates(tiles, locs, m) + Elements(poss[..j])
      {
        assert poss[..j + 1] == poss[..j] + [poss[j]];
        values := values + {poss[j]};
      }
      assert poss[..|poss|] == poss;
    }
  }

  /**
   * `for number in option: if number not in allowed:
   * constraint.remove_placement(option)`: the first digit outside `allowed`
   * removes the placement, and the later ones find it gone.
   */
  method DropIfEscapes(c: Constraint, option: seq<int>, allowed: set<int>) returns (r: Constraint)
    requires ConstraintValid(c) && option in c.possibleSets
    ensures r == if Escapes(allowed, option) then WithoutPlacement(c, option) else c
    ensures ConstraintValid(r)
  {
    r := c;
    for j := 0 to |option|
      invariant r == if Escapes(allowed, option[..j]) then WithoutPlacement(c, option) else c
      invariant ConstraintValid(r) && (Escapes(allowed, option[..j]) ==> option !in r.possibleSets)
    {
      assert option[..j + 1] == option[..j] + [option[j]];
      EscapesAppend(allowed, option[..j], option[j]);
      if option[j] !in allowed {
        r := RemovePlacement(r, option);
      }
    }
    assert option[..|option|] == option;
  }

  /**
   * What `update_constraints` leaves of a run whose cells allow the digits
   * `allowed`: the placements using another digit are dropped, the one after
   * each dropped placement not being examined; the digit union is recomputed
   * if anything was dropped and left as it was otherwise.
   */
  ghost function Pruned(c: Constraint, allowed: set<int>): Constraint {
    var sets := SkipRemove(c.possibleSets, 0, OutsideOf(allowed));
    if sets == c.possibleSets then c else c.(possibleSets := sets, possibleNumbers := NumbersOf(sets))
  }

  /** The outer loop over the placements of one run, which it shrinks as it goes. */
  method PruneRun(c: Constraint, allowed: set<int>) returns (r: Constraint)
    requires ConstraintValid(c)
    ensures r == Pruned(c, allowed)
  {
    r := c;
    var i := 0;
    while i < |r.possibleSets|
      invariant ConstraintValid(r) && |r.possibleSets| <= |c.possibleSets|
      invariant SkipRemove(r.possibleSets, i, OutsideOf(allowed)) == SkipRemove(c.possibleSets, 0, OutsideOf(allowed))
      invariant |r.possibleSets| == |c.possibleSets| ==> r == c
      invariant |r.possibleSets| < |c.possibleSets| ==>
        r == c.(possibleSets := r.possibleSets, possibleNumbers := NumbersOf(r.possibleSets))
      decreases |r.possibleSets| - i
    {
      var option := r.possibleSets[i];
      r := DropIfEscapes(r, option, allowed);
      i := i + 1;
    }
  }

  /**
   * The placement rule drops only placements that use a digit no cell of the
   * run allows any more, keeps every copy of every other placement, and keeps
   * the run valid.
   */
  lemma PrunedMeaning(c: Constraint, allowed: set<int>)
    ensures
      var r := Pruned(c, allowed);
      && r == c.(possibleSets := r.possibleSets, possibleNumbers := r.possibleNumbers)
      && multiset(r.possibleSets) <= multiset(c.possibleSets)
      && (forall p :: p in multiset(c.possibleSets) - multiset(r.possibleSets) ==> Escapes(allowed, p))
      && (forall p :: !Escapes(allowed, p) ==> multiset(r.possibleSets)[p] == multiset(c.possibleSets)[p])
    ensures ConstraintValid(c) ==> ConstraintValid(Pruned(c, allowed))
  {
    SkipRemoveDropsOnly(c.possibleSets, 0, OutsideOf(allowed));
    if ConstraintValid(c) {
      SkipRemoveDistinct(c.possibleSets, 0, OutsideOf(allowed));
      forall p | p in Pruned(c, allowed).possibleSets ensures p in c.possibleSets {
        SkipRemoveSubset(c.possibleSets, 0, OutsideOf(allowed), p);
      }
    }
  }

  /** What `update_constraints` needs of a board: every cell has a tile and every run is as built. */
  ghost predicate Propagatable(b: Board) {
    LocationsPresent(b) && forall k :: 0 <= k < |b.constraints| ==> ConstraintValid(b.constraints[k])
  }

  /**
   * The board `update_constraints` leaves: the tiles after the two-tile rule,
   * and every run pruned to the candidates of its cells on those tiles.
   */
  ghost predicate PropagatedPost(b: Board, r: Board)
    requires Propagatable(b)
  {
    ValidPairable(b);
    var tiles := WithTwo(b.tiles, b.constraints, |b.constraints|);
    && r.tiles == tiles && r.order == b.order && |r.constraints| == |b.constraints|
    && forall k :: 0 <= k < |b.constraints| ==>
         var c := b.constraints[k];
         r.constraints[k] == Pruned(c, RunCandidates(tiles, c.locations, |c.locations|))
  }

  /** `Board.update_constraints`: the two-tile rule, then the placement rule for every run. */
  method UpdateConstraints(b: Board) returns (r: Board)
    requires Propagatable(b)
    ensures PropagatedPost(b, r)
  {
    ValidPairable(b);
    var b1 := UpdateConstraintsWithTwo(b);
    var cs := b1.constraints;
    for k := 0 to |cs|
      invariant |cs| == |b.constraints|
      invariant forall j :: 0 <= j < k ==>
        cs[j] == Pruned(b.constraints[j], RunCandidates(b1.tiles, b.constraints[j].locations, |b.constraints[j].locations|))
      invariant forall j :: k <= j < |cs| ==> cs[j] == b.constraints[j]
    {
      var allowed := CollectRunCandidates(b1.tiles, cs[k].locations);
      var run := PruneRun(cs[k], allowed);
      cs := cs[k := run];
    }
    r := b1.(constraints := cs);
  }

  /** Propagation keeps the board invariant. */
  lemma UpdateConstraintsValid(b: Board, r: Board)
    requires Valid(b) && PropagatedPost(b, r)
    ensures Valid(r)
  {
    ValidPairable(b);
    WithTwoShrinks(b.tiles, b.constraints, |b.constraints|);
    forall k | 0 <= k < |r.constraints|
      ensures r.constraints[k].locations == b.constraints[k].locations
      ensures r.constraints[k].index == k && ConstraintValid(r.constraints[k])
    {
      var c := b.constraints[k];
      PrunedMeaning(c, RunCandidates(r.tiles, c.locations, |c.locations|));
    }
    forall l | l in r.tiles
      ensures r.tiles[l].constraints == CoveringRuns(r.constraints, l)
      ensures TileValid(r.tiles[l]) && (r.tiles[l].row, r.tiles[l].col) == l
    {
      CoveringRunsSame(b.constraints, r.constraints, l);
    }
  }

  /** Propagation changes no run's clue or cells. */
  lemma UpdateConstraintsKeepsClues(b: Board, r: Board)
    requires Propagatable(b) && PropagatedPost(b, r)
    ensures SameClues(b, r)
  {
    forall k | 0 <= k < |b.constraints| ensures Clue(r.constraints[k]) == Clue(b.constraints[k]) {
      var c := b.constraints[k];
      PrunedMeaning(c, RunCandidates(r.tiles, c.locations, |c.locations|));
    }
  }

  /**
   * Propagation adds no tile, no candidate and no placement, and changes
   * nothing about a tile but its candidates.
   */
  lemma UpdateConstraintsShrinks(b: Board, r: Board)
    requires Propagatable(b) && PropagatedPost(b, r)
    ensures r.tiles.Keys == b.tiles.Keys && r.order == b.order
    ensures forall l :: l in b.tiles ==> Shrunk(b.tiles[l], r.tiles[l])
    ensures forall k :: 0 <= k < |b.constraints| ==>
      multiset(r.constraints[k].possibleSets) <= multiset(b.constraints[k].possibleSets)
  {
    ValidPairable(b);
    WithTwoShrinks(b.tiles, b.constraints, |b.constraints|);
    forall k | 0 <= k < |b.constraints|
      ensures multiset(r.constraints[k].possibleSets) <= multiset(b.constraints[k].possibleSets)
    {
      var c := b.constraints[k];
      PrunedMeaning(c, RunCandidates(r.tiles, c.locations, |c.locations|));
    }
  }
}
