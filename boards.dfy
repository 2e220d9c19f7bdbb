/**
 * `Board` (board.py:280-554): the tiles keyed by location and the constraints
 * keyed by index. Construction and lookups live here; placing a value and
 * copying a board with one more move are in `Placement`, the legality oracles
 * in `Oracles` and the propagation rules in `Propagation`.
 */
module Boards {
  import opened Lists
  import opened Digits
  import opened Options
  import opened Subsets
  import opened Tiles
  import opened Constraints

  /** One clue as `Board.__init__` takes it: `(sum, num_tiles, orientation, row, col)`. */
  datatype RunSpec = RunSpec(totalSum: int, numTiles: int, orientation: int, startRow: int, startCol: int)

  /**
   * `tiles` is the source's dict keyed by location and `order` its insertion
   * order, which the search's "first tile found" depends on. The constraint
   * dict's keys are 0, 1, ... in insertion order, so it is a sequence here.
   */
  datatype Board = Board(tiles: map<Loc, Tile>, order: seq<Loc>, constraints: seq<Constraint>)

  ghost predicate KeysOrdered(b: Board) {
    b.tiles.Keys == Elements(b.order) && Distinct(b.order)
  }

  /** Every cell of every run has a tile. */
  ghost predicate LocationsPresent(b: Board) {
    forall k, loc :: 0 <= k < |b.constraints| && loc in b.constraints[k].locations ==> loc in b.tiles
  }

  /** The indices of the runs of `cs` that have `loc` as a cell. */
  function CoveringRuns(cs: seq<Constraint>, loc: Loc): set<int> {
    set k | 0 <= k < |cs| && loc in cs[k].locations
  }

  /** Runs with the same cells cover the same locations. */
  lemma CoveringRunsSame(cs: seq<Constraint>, cs': seq<Constraint>, l: Loc)
    requires |cs| == |cs'| && forall k :: 0 <= k < |cs| ==> cs'[k].locations == cs[k].locations
    ensures CoveringRuns(cs', l) == CoveringRuns(cs, l)
  {
  }

  /** A tile lists exactly the runs that cover it. */
  ghost predicate Wired(b: Board) {
    forall loc :: loc in b.tiles ==> b.tiles[loc].constraints == CoveringRuns(b.constraints, loc)
  }

  /** The invariant every board the solver handles keeps. */
  ghost predicate Valid(b: Board) {
    && KeysOrdered(b)
    && LocationsPresent(b)
    && Wired(b)
    && (forall loc :: loc in b.tiles ==> TileValid(b.tiles[loc]) && (b.tiles[loc].row, b.tiles[loc].col) == loc)
    && (forall k :: 0 <= k < |b.constraints| ==> b.constraints[k].index == k && ConstraintValid(b.constraints[k]))
  }

  ghost predicate NoneVisited(b: Board) {
    forall loc :: loc in b.tiles ==> !b.tiles[loc].visited
  }

  /**
   * A tile's candidates are exactly the digits that every run covering it can
   * still use: what construction leaves behind.
   */
  ghost predicate CandidatesFromRuns(b: Board) {
    forall loc, x :: loc in b.tiles ==>
      (x in b.tiles[loc].possValues <==> IsDigit(x) && AllowedBy(b.constraints, loc, x))
  }

  /** Every run of `cs` covering `loc` can still use digit `x`. */
  ghost predicate AllowedBy(cs: seq<Constraint>, loc: Loc, x: int) {
    forall k :: 0 <= k < |cs| && loc in cs[k].locations ==> x in cs[k].possibleNumbers
  }

  lemma AllowedByAppend(cs: seq<Constraint>, c: Constraint, loc: Loc, x: int)
    ensures AllowedBy(cs + [c], loc, x) <==> AllowedBy(cs, loc, x) && (loc in c.locations ==> x in c.possibleNumbers)
  {
    if AllowedBy(cs, loc, x) && (loc in c.locations ==> x in c.possibleNumbers) {
      forall k | 0 <= k < |cs| + 1 && loc in (cs + [c])[k].locations ensures x in (cs + [c])[k].possibleNumbers {
        if k < |cs| {
          assert (cs + [c])[k] == cs[k];
        }
      }
    }
    if AllowedBy(cs + [c], loc, x) {
      forall k | 0 <= k < |cs| && loc in cs[k].locations ensures x in cs[k].possibleNumbers {
        assert (cs + [c])[k] == cs[k];
      }
      assert (cs + [c])[|cs|] == c;
    }
  }

  /** The tile `add_const` starts from at `loc`: the existing one, or a new one. */
  function Before(b: Board, loc: Loc): Tile {
    if loc in b.tiles then b.tiles[loc] else NewTile(loc.0, loc.1)
  }

  /** What `add_const` makes of the tile at a cell of run `c`. */
  function Linked(t: Tile, c: Constraint): Tile {
    var known := InIterationOrder(c.possibleNumbers);
    t.(constraints := t.constraints + {c.index}, possValues := Intersection(known, |known|, t.possValues))
  }

  /** The first `m` cells of `locs`. */
  function Cells(locs: seq<Loc>, m: nat): set<Loc>
    requires m <= |locs|
  {
    if m == 0 then {} else Cells(locs, m - 1) + {locs[m - 1]}
  }

  lemma {:induction false} CellsMembers(locs: seq<Loc>, m: nat)
    requires m <= |locs|
    ensures forall x :: x in Cells(locs, m) <==> x in locs[..m]
  {
    if m > 0 {
      CellsMembers(locs, m - 1);
      assert locs[..m] == locs[..m - 1] + [locs[m - 1]];
    }
  }

  lemma CellsNotBefore(locs: seq<Loc>, m: nat)
    requires m < |locs| && Distinct(locs)
    ensures locs[m] !in Cells(locs, m)
  {
    CellsMembers(locs, m);
    DistinctNotBefore(locs, m);
  }

  lemma CellsAll(locs: seq<Loc>)
    ensures Cells(locs, |locs|) == Elements(locs)
  {
    CellsMembers(locs, |locs|);
    assert locs[..|locs|] == locs;
  }

  /** The first `m` cells of `locs` not among `keys`, in order: the tiles `add_const` creates. */
  function NewKeys(locs: seq<Loc>, m: nat, keys: set<Loc>): seq<Loc>
    requires m <= |locs|
  {
    if m == 0 then []
    else NewKeys(locs, m - 1, keys) + (if locs[m - 1] in keys then [] else [locs[m - 1]])
  }

  lemma {:induction false} NewKeysElements(locs: seq<Loc>, m: nat, keys: set<Loc>)
    requires m <= |locs|
    ensures forall x :: x in NewKeys(locs, m, keys) <==> x in Cells(locs, m) && x !in keys
    ensures Distinct(locs) ==> Distinct(NewKeys(locs, m, keys))
  {
    if m > 0 {
      NewKeysElements(locs, m - 1, keys);
      var last := locs[m - 1];
      var ri := NewKeys(locs, m - 1, keys);
      var r := NewKeys(locs, m, keys);
      if Distinct(locs) && last !in keys {
        CellsNotBefore(locs, m - 1);
        assert r == ri + [last];
        forall i, j | 0 <= i < j < |r| ensures r[i] != r[j] {
          if j == |ri| {
            assert r[i] == ri[i] && ri[i] in ri;
          }
        }
      }
    }
  }

  /** The state `add_const` leaves after adding run `c` to `b`. */
  ghost predicate AddConstPost(b: Board, c: Constraint, r: Board) {
    && r.constraints == b.constraints + [c]
    && r.tiles.Keys == b.tiles.Keys + Elements(c.locations)
    && r.order == b.order + NewKeys(c.locations, |c.locations|, b.tiles.Keys)
    && forall loc :: loc in r.tiles ==>
         r.tiles[loc] == if loc in c.locations then Linked(Before(b, loc), c) else b.tiles[loc]
  }

  /**
   * `Board.add_const`: declares the run as the next constraint, creates the
   * missing tiles of its cells in run order, records the run on each of them
   * and narrows their candidates to the run's digits.
   */
  method AddConst(b: Board, spec: RunSpec) returns (r: Board)
    ensures |r.constraints| == |b.constraints| + 1
    ensures Built(r.constraints[|b.constraints|], spec.totalSum, spec.numTiles, spec.orientation,
                  spec.startRow, spec.startCol, |b.constraints|)
    ensures AddConstPost(b, r.constraints[|b.constraints|], r)
    ensures Valid(b) && NoneVisited(b) ==> Valid(r) && NoneVisited(r)
    ensures CandidatesFromRuns(b) && LocationsPresent(b) ==> CandidatesFromRuns(r)
    ensures Covered(b) ==> Covered(r)
  {
    var c := NewConstraint(spec.totalSum, spec.numTiles, spec.orientation, spec.startRow, spec.startCol,
                           |b.constraints|);
    RunDistinct(c.locations, spec.numTiles, spec.orientation, spec.startRow, spec.startCol);
    r := LinkRun(b, c);
    assert r.constraints[|b.constraints|] == c;
    if Valid(b) && NoneVisited(b) {
      AddConstValid(b, c, r);
    }
    if CandidatesFromRuns(b) && LocationsPresent(b) {
      AddConstCandidates(b, c, r);
    }
    if Covered(b) {
      AddConstCovered(b, c, r);
    }
  }

  /** The tiles after the loop of `add_const` has handled the first `m` cells of `c`. */
  ghost predicate LinkedUpTo(b: Board, c: Constraint, tiles: map<Loc, Tile>, order: seq<Loc>, m: nat)
    requires m <= |c.locations|
  {
    && tiles.Keys == b.tiles.Keys + Cells(c.locations, m)
    && order == b.order + NewKeys(c.locations, m, b.tiles.Keys)
    && TilesUpTo(b, c, tiles, m)
  }

  ghost predicate TilesUpTo(b: Board, c: Constraint, tiles: map<Loc, Tile>, m: nat)
    requires m <= |c.locations|
  {
    forall loc :: loc in tiles ==>
      tiles[loc] == if loc in Cells(c.locations, m) || loc !in b.tiles then Linked(Before(b, loc), c) else b.tiles[loc]
  }

  /** The tile the loop starts from at `loc`. */
  function Current(tiles: map<Loc, Tile>, loc: Loc): Tile {
    if loc in tiles then tiles[loc] else NewTile(loc.0, loc.1)
  }

  /** One turn of that loop keeps `LinkedUpTo`. */
  lemma LinkStep(b: Board, c: Constraint, tiles: map<Loc, Tile>, order: seq<Loc>, m: nat,
                 tiles': map<Loc, Tile>, order': seq<Loc>)
    requires m < |c.locations| && Distinct(c.locations) && LinkedUpTo(b, c, tiles, order, m)
    requires tiles' == tiles[c.locations[m] := Linked(Current(tiles, c.locations[m]), c)]
    requires order' == if c.locations[m] in tiles then order else order + [c.locations[m]]
    ensures LinkedUpTo(b, c, tiles', order', m + 1)
  {
    CellsNotBefore(c.locations, m);
    StepKeys(b, c, tiles, m, tiles'[c.locations[m]]);
    StepTiles(b, c, tiles, m);
    StepOrder(b, c, tiles, order, m);
  }

  lemma StepKeys(b: Board, c: Constraint, tiles: map<Loc, Tile>, m: nat, t: Tile)
    requires m < |c.locations| && tiles.Keys == b.tiles.Keys + Cells(c.locations, m)
    ensures tiles[c.locations[m] := t].Keys == b.tiles.Keys + Cells(c.locations, m + 1)
  {
  }

  lemma StepOrder(b: Board, c: Constraint, tiles: map<Loc, Tile>, order: seq<Loc>, m: nat)
    requires m < |c.locations| && c.locations[m] !in Cells(c.locations, m)
    requires tiles.Keys == b.tiles.Keys + Cells(c.locations, m)
    requires order == b.order + NewKeys(c.locations, m, b.tiles.Keys)
    ensures
      var loc := c.locations[m];
      (if loc in tiles then order else order + [loc]) == b.order + NewKeys(c.locations, m + 1, b.tiles.Keys)
  {
    var loc := c.locations[m];
    var added := NewKeys(c.locations, m, b.tiles.Keys);
    if loc !in tiles {
      assert (b.order + added) + [loc] == b.order + (added + [loc]);
    } else {
      assert loc in b.tiles;
    }
  }

  lemma StepTiles(b: Board, c: Constraint, tiles: map<Loc, Tile>, m: nat)
    requires m < |c.locations| && c.locations[m] !in Cells(c.locations, m)
    requires tiles.Keys == b.tiles.Keys + Cells(c.locations, m) && TilesUpTo(b, c, tiles, m)
    ensures
      var loc := c.locations[m];
      TilesUpTo(b, c, tiles[loc := Linked(Current(tiles, loc), c)], m + 1)
  {
  }

  /** The two calls `add_const` makes on each tile of the run. */
  method LinkTile(t: Tile, c: Constraint, known: seq<int>) returns (r: Tile)
    requires known == InIterationOrder(c.possibleNumbers)
    ensures r == Linked(t, c)
  {
    r := AddConstraint(t, c.index);
    r := IntersectPossibleValues(r, known);
  }

  /** The loop of `add_const` over the cells of the new run `c`. */
  method LinkRun(b: Board, c: Constraint) returns (r: Board)
    requires Distinct(c.locations)
    ensures AddConstPost(b, c, r)
  {
    var known := InIterationOrder(c.possibleNumbers);
    var locs := c.locations;
    var tiles := b.tiles;
    var order := b.order;
    for m := 0 to |locs|
      invariant LinkedUpTo(b, c, tiles, order, m)
    {
      var loc := locs[m];
      ghost var tiles0 := tiles;
      ghost var order0 := order;
      // A tile created here is stored, fetched back and updated: the value
      // stored at `loc` is the updated one.
      var t: Tile;
      if loc !in tiles {
        t := NewTile(loc.0, loc.1);
        order := order + [loc];
      } else {
        t := tiles[loc];
      }
      assert t == Current(tiles0, loc);
      t := LinkTile(t, c, known);
      tiles := tiles[loc := t];
      LinkStep(b, c, tiles0, order0, m, tiles, order);
    }
    CellsAll(locs);
    r := Board(tiles, order, b.constraints + [c]);
  }

  /** What `add_const` does to one tile of the new run. */
  lemma LinkedTile(t: Tile, c: Constraint)
    requires forall x :: x in c.possibleNumbers ==> IsDigit(x)
    ensures
      var l := Linked(t, c);
      && l == t.(constraints := t.constraints + {c.index}, possValues := l.possValues)
      && Ascending(l.possValues)
      && forall x :: x in l.possValues <==> x in t.possValues && x in c.possibleNumbers
  {
    var known := InIterationOrder(c.possibleNumbers);
    IntersectionMembers(known, |known|, t.possValues);
    assert known[..|known|] == known;
    InIterationOrderDigitList(c.possibleNumbers);
    IntersectionAscending(known, |known|, t.possValues);
  }

  lemma AddConstKeys(b: Board, c: Constraint, r: Board)
    requires KeysOrdered(b) && AddConstPost(b, c, r) && Distinct(c.locations)
    ensures KeysOrdered(r)
  {
    var locs := c.locations;
    NewKeysElements(locs, |locs|, b.tiles.Keys);
    CellsAll(locs);
    var added := NewKeys(locs, |locs|, b.tiles.Keys);
    ElementsAppend(b.order, added);
    forall x | x in b.order ensures x !in added {
      assert x in Elements(b.order);
    }
    DistinctConcat(b.order, added);
  }

  lemma AddConstTiles(b: Board, c: Constraint, r: Board)
    requires forall loc :: loc in b.tiles ==>
      TileValid(b.tiles[loc]) && !b.tiles[loc].visited && (b.tiles[loc].row, b.tiles[loc].col) == loc
    requires AddConstPost(b, c, r) && forall x :: x in c.possibleNumbers ==> IsDigit(x)
    ensures forall loc :: loc in r.tiles ==>
      TileValid(r.tiles[loc]) && !r.tiles[loc].visited && (r.tiles[loc].row, r.tiles[loc].col) == loc
  {
    forall loc | loc in r.tiles
      ensures TileValid(r.tiles[loc]) && !r.tiles[loc].visited && (r.tiles[loc].row, r.tiles[loc].col) == loc
    {
      NewTileValid(loc.0, loc.1);
      if loc in c.locations {
        LinkedTile(Before(b, loc), c);
      }
    }
  }

  lemma CoveringRunsAppend(cs: seq<Constraint>, c: Constraint, loc: Loc)
    ensures CoveringRuns(cs + [c], loc) == CoveringRuns(cs, loc) + if loc in c.locations then {|cs|} else {}
  {
    var cs' := cs + [c];
    assert forall k :: 0 <= k < |cs| ==> cs'[k] == cs[k];
    assert cs'[|cs|] == c;
  }

  /** A location that has no tile is a cell of no run. */
  lemma CoveringRunsNone(b: Board, loc: Loc)
    requires LocationsPresent(b) && loc !in b.tiles
    ensures CoveringRuns(b.constraints, loc) == {}
  {
  }

  lemma AddConstWired(b: Board, c: Constraint, r: Board)
    requires Wired(b) && LocationsPresent(b) && AddConstPost(b, c, r) && c.index == |b.constraints|
    ensures Wired(r) && LocationsPresent(r)
  {
    forall loc | loc in r.tiles ensures r.tiles[loc].constraints == CoveringRuns(r.constraints, loc) {
      CoveringRunsAppend(b.constraints, c, loc);
      if loc !in b.tiles {
        CoveringRunsNone(b, loc);
      }
    }
    forall k, loc | 0 <= k < |r.constraints| && loc in r.constraints[k].locations ensures loc in r.tiles {
      if k < |b.constraints| {
        assert r.constraints[k] == b.constraints[k];
      }
    }
  }

  lemma AddConstValid(b: Board, c: Constraint, r: Board)
    requires Valid(b) && NoneVisited(b) && AddConstPost(b, c, r)
    requires c.index == |b.constraints| && ConstraintValid(c) && forall x :: x in c.possibleNumbers ==> IsDigit(x)
    ensures Valid(r) && NoneVisited(r)
  {
    RunDistinct(c.locations, c.numTiles, c.orientation, c.startRow, c.startCol);
    AddConstKeys(b, c, r);
    AddConstTiles(b, c, r);
    AddConstWired(b, c, r);
    forall k | 0 <= k < |r.constraints| ensures r.constraints[k].index == k && ConstraintValid(r.constraints[k]) {
      if k < |b.constraints| {
        assert r.constraints[k] == b.constraints[k];
      }
    }
  }

  lemma AddConstCandidates(b: Board, c: Constraint, r: Board)
    requires CandidatesFromRuns(b) && LocationsPresent(b) && AddConstPost(b, c, r)
    requires forall x :: x in c.possibleNumbers ==> IsDigit(x)
    ensures CandidatesFromRuns(r)
  {
    forall loc, x | loc in r.tiles
      ensures x in r.tiles[loc].possValues <==> IsDigit(x) && AllowedBy(r.constraints, loc, x)
    {
      AllowedByAppend(b.constraints, c, loc, x);
      if loc in c.locations {
        LinkedTile(Before(b, loc), c);
        if loc !in b.tiles {
          assert AllowedBy(b.constraints, loc, x);
        }
      }
    }
  }

  /** The constraints are those `Constraint.__init__` builds from the first `|cs|` clues. */
  ghost predicate BuiltFrom(cs: seq<Constraint>, specs: seq<RunSpec>) {
    && |cs| <= |specs|
    && forall k :: 0 <= k < |cs| ==>
         Built(cs[k], specs[k].totalSum, specs[k].numTiles, specs[k].orientation, specs[k].startRow, specs[k].startCol, k)
  }

  lemma BuiltFromAppend(cs: seq<Constraint>, c: Constraint, specs: seq<RunSpec>)
    requires BuiltFrom(cs, specs) && |cs| < |specs|
    requires
      var s := specs[|cs|];
      Built(c, s.totalSum, s.numTiles, s.orientation, s.startRow, s.startCol, |cs|)
    ensures BuiltFrom(cs + [c], specs)
  {
    forall k | 0 <= k < |cs| ensures (cs + [c])[k] == cs[k] {
    }
  }

  /** Every tile is a cell of some run. */
  ghost predicate Covered(b: Board) {
    forall loc :: loc in b.tiles ==> CoveringRuns(b.constraints, loc) != {}
  }

  lemma AddConstCovered(b: Board, c: Constraint, r: Board)
    requires Covered(b) && AddConstPost(b, c, r)
    ensures Covered(r)
  {
    forall loc | loc in r.tiles ensures CoveringRuns(r.constraints, loc) != {} {
      CoveringRunsAppend(b.constraints, c, loc);
      if loc !in b.tiles {
        assert |b.constraints| in CoveringRuns(r.constraints, loc);
      }
    }
  }

  /** With every cell present and every tile covered, the tiles are exactly the cells of the runs. */
  lemma TilesAreCells(b: Board)
    requires LocationsPresent(b) && Covered(b)
    ensures forall loc :: loc in b.tiles <==> exists k :: 0 <= k < |b.constraints| && loc in b.constraints[k].locations
  {
    forall loc | loc in b.tiles ensures exists k :: 0 <= k < |b.constraints| && loc in b.constraints[k].locations {
      var k :| k in CoveringRuns(b.constraints, loc);
    }
  }

  /**
   * `Board.__init__` without the display dimensions and the serial string:
   * adds the runs in order. The tiles are exactly the cells of the runs, and
   * every tile's candidates are the digits all of its runs can use.
   */
  method NewBoard(specs: seq<RunSpec>) returns (b: Board)
    ensures Valid(b) && NoneVisited(b) && CandidatesFromRuns(b)
    ensures |b.constraints| == |specs| && BuiltFrom(b.constraints, specs)
    ensures forall loc :: loc in b.tiles <==> exists k :: 0 <= k < |specs| && loc in b.constraints[k].locations
  {
    b := Board(map[], [], []);
    for i := 0 to |specs|
      invariant Valid(b) && NoneVisited(b) && CandidatesFromRuns(b) && Covered(b)
      invariant |b.constraints| == i && BuiltFrom(b.constraints, specs)
    {
      var next := AddConst(b, specs[i]);
      BuiltFromAppend(b.constraints, next.constraints[i], specs);
      b := next;
    }
    TilesAreCells(b);
  }

  /** `Board.get_tile`: the tile at `(row, col)`, or `None` when there is none. */
  function GetTile(b: Board, row: int, col: int): (r: Option<Tile>)
    ensures r.None? <==> (row, col) !in b.tiles
    ensures r.Some? ==> r.value == b.tiles[(row, col)]
  {
    if (row, col) !in b.tiles then None else Some(b.tiles[(row, col)])
  }

  /** `Board.get_constraint`: the constraint with key `index`, or `None`. */
  function GetConstraint(b: Board, index: int): (r: Option<Constraint>)
    ensures r.None? <==> !(0 <= index < |b.constraints|)
    ensures r.Some? ==> r.value == b.constraints[index]
  {
    if 0 <= index < |b.constraints| then Some(b.constraints[index]) else None
  }

  /**
   * On a valid board the lookups `place_tile` makes never miss: the runs a
   * tile lists are exactly the existing runs that have it as a cell.
   */
  lemma TileRunsAgree(b: Board, loc: Loc, k: int)
    requires Valid(b) && loc in b.tiles
    ensures k in b.tiles[loc].constraints <==> GetConstraint(b, k).Some? && loc in GetConstraint(b, k).value.locations
  {
  }

  /** Every cell of a run of a valid board has a tile, placed at that cell and listing the run. */
  lemma RunCellsPresent(b: Board, k: int, i: int)
    requires Valid(b) && 0 <= k < |b.constraints| && 0 <= i < |b.constraints[k].locations|
    ensures
      var l := b.constraints[k].locations[i];
      var t := GetTile(b, l.0, l.1);
      t.Some? && (t.value.row, t.value.col) == l && k in t.value.constraints
  {
    var l := b.constraints[k].locations[i];
    assert l in b.tiles;
    assert k in CoveringRuns(b.constraints, l);
  }

  /** The clue of a run: its total, its number of cells and the cells themselves. */
  function Clue(c: Constraint): (int, int, seq<Loc>) {
    (c.totalSum, c.numTiles, c.locations)
  }

  /** `s` has the runs of `b`, each with the same clue: what the search never changes. */
  ghost predicate SameClues(b: Board, s: Board) {
    |s.constraints| == |b.constraints| && forall k :: 0 <= k < |b.constraints| ==> Clue(s.constraints[k]) == Clue(b.constraints[k])
  }
}
