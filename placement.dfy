/**
 * `Board.place_tile` (board.py:443-466) and `Board.one_move_board_copy`
 * (board.py:319-332): committing a digit to a cell and propagating it to the
 * runs that cover the cell and to the other cells of those runs.
 */
module Placement {
  import opened Lists
  import opened Digits
  import opened Options
  import opened Tiles
  import opened Constraints
  import opened Boards

  lemma MissingOne(v: int, p: seq<int>)
    ensures Missing([v], p) <==> v !in p
  {
    if v !in p {
      MissingAt([v], p, 0);
    }
  }

  /**
   * What `place_tile` leaves of a run covering the placed cell: the
   * placements lacking `v` are dropped (the one after each dropped placement
   * is not examined), the digit union is recomputed, and `v` is then taken out
   * of that union through the alias `new_possible_values`.
   */
  ghost function Commit(c: Constraint, v: int): (r: Constraint)
    ensures r == c.(possibleSets := r.possibleSets, possibleNumbers := r.possibleNumbers)
    ensures v !in r.possibleNumbers && r.possibleNumbers == NumbersOf(r.possibleSets) - {v}
    ensures multiset(r.possibleSets) <= multiset(c.possibleSets)
    ensures forall p :: p in multiset(c.possibleSets) - multiset(r.possibleSets) ==> v !in p
    ensures forall p :: v in p ==> multiset(r.possibleSets)[p] == multiset(c.possibleSets)[p]
  {
    var sets := SkipRemove(c.possibleSets, 0, Lacks([v]));
    SkipRemoveDropsOnly(c.possibleSets, 0, Lacks([v]));
    forall p ensures Missing([v], p) <==> v !in p {
      MissingOne(v, p);
    }
    c.(possibleSets := sets, possibleNumbers := NumbersOf(sets) - {v})
  }

  lemma CommitValid(c: Constraint, v: int)
    requires ConstraintValid(c)
    ensures ConstraintValid(Commit(c, v))
  {
    var r := Commit(c, v);
    SkipRemoveDistinct(c.possibleSets, 0, Lacks([v]));
    forall p | p in r.possibleSets ensures p in c.possibleSets {
      SkipRemoveSubset(c.possibleSets, 0, Lacks([v]), p);
    }
  }

  /** Every run among `ks` that covers `l` can still use digit `x`. */
  ghost predicate KeptBy(cs: seq<Constraint>, ks: set<int>, l: Loc, x: int) {
    forall k :: k in ks && 0 <= k < |cs| && l in cs[k].locations ==> x in cs[k].possibleNumbers
  }

  /** The digits every run among `ks` that covers `l` can still use. */
  ghost function Kept(cs: seq<Constraint>, ks: set<int>, l: Loc): set<int> {
    set x | 1 <= x <= BIGGEST_NUM && KeptBy(cs, ks, l, x)
  }

  /** `t` is `t0` with its candidates cut down to `allowed`, in increasing order. */
  ghost predicate Narrowed(t0: Tile, t: Tile, allowed: set<int>) {
    && t == t0.(possValues := t.possValues)
    && Ascending(t.possValues)
    && forall x :: x in t.possValues <==> x in t0.possValues && x in allowed
  }

  /** Some run covers both `loc` and `l`. */
  ghost predicate Shares(b: Board, loc: Loc, l: Loc) {
    exists k :: 0 <= k < |b.constraints| && loc in b.constraints[k].locations && l in b.constraints[k].locations
  }

  /**
   * The board `place_tile(v, loc)` leaves: the runs covering `loc` are
   * committed to `v`, the tile at `loc` holds `v`, every other unvisited tile
   * is narrowed to the digits the committed runs covering it can still use,
   * and nothing else changes.
   */
  ghost predicate PlacedPost(b: Board, v: int, loc: Loc, r: Board)
    requires loc in b.tiles
  {
    var ks := b.tiles[loc].constraints;
    && r.order == b.order && r.tiles.Keys == b.tiles.Keys
    && |r.constraints| == |b.constraints|
    && (forall k :: 0 <= k < |b.constraints| ==>
          r.constraints[k] == if k in ks then Commit(b.constraints[k], v) else b.constraints[k])
    && r.tiles[loc] == SetValue(b.tiles[loc], v)
    && forall l :: l in b.tiles && l != loc ==>
         if b.tiles[l].visited then r.tiles[l] == b.tiles[l]
         else Narrowed(b.tiles[l], r.tiles[l], Kept(r.constraints, ks, l))
  }

  /** The state after the loop of `place_tile` has handled the runs `done`. */
  ghost predicate PlacedUpTo(b: Board, v: int, loc: Loc, done: set<int>, tiles: map<Loc, Tile>, cs: seq<Constraint>)
  {
    && tiles.Keys == b.tiles.Keys && |cs| == |b.constraints|
    && (forall k :: 0 <= k < |cs| ==> cs[k] == if k in done then Commit(b.constraints[k], v) else b.constraints[k])
    && SiblingsUpTo(b, loc, tiles, cs, done, {}, done)
  }

  /**
   * Every tile but the one at `loc` and the visited ones is narrowed by the
   * runs `inner` if it lies in `cells`, by the runs `outer` otherwise.
   */
  ghost predicate SiblingsUpTo(b: Board, loc: Loc, tiles: map<Loc, Tile>, cs: seq<Constraint>,
                               outer: set<int>, cells: set<Loc>, inner: set<int>)
  {
    forall l :: l in tiles ==> SiblingOk(b, loc, l, tiles[l], Kept(cs, if l in cells then inner else outer, l))
  }

  /** The tile `t` at `l` is the old one if `l` is `loc` or was visited, and narrowed to `allowed` otherwise. */
  ghost predicate SiblingOk(b: Board, loc: Loc, l: Loc, t: Tile, allowed: set<int>) {
    l in b.tiles &&
    if l == loc || b.tiles[l].visited then t == b.tiles[l] else Narrowed(b.tiles[l], t, allowed)
  }

  /** Updating the tile at `l` to one narrowed by `inner` moves `l` into `cells`. */
  lemma SiblingsUpdate(b: Board, loc: Loc, tiles: map<Loc, Tile>, cs: seq<Constraint>,
                       outer: set<int>, cells: set<Loc>, inner: set<int>, l: Loc, t: Tile)
    requires SiblingsUpTo(b, loc, tiles, cs, outer, cells, inner)
    requires SiblingOk(b, loc, l, t, Kept(cs, inner, l))
    ensures SiblingsUpTo(b, loc, tiles[l := t], cs, outer, cells + {l}, inner)
  {
    forall l' | l' in tiles[l := t] && l' != l
      ensures (l' in cells + {l}) == (l' in cells) && tiles[l := t][l'] == tiles[l']
    {
    }
  }

  lemma KeptAdd(cs: seq<Constraint>, ks: set<int>, k: int, l: Loc)
    requires 0 <= k < |cs|
    ensures forall x :: x in Kept(cs, ks + {k}, l) <==>
      x in Kept(cs, ks, l) && (l in cs[k].locations ==> x in cs[k].possibleNumbers)
    ensures l !in cs[k].locations ==> Kept(cs, ks + {k}, l) == Kept(cs, ks, l)
  {
  }

  /** Replacing a run outside `ks` changes nothing `ks` keeps. */
  lemma KeptFrame(cs: seq<Constraint>, ks: set<int>, k: int, c: Constraint, l: Loc)
    requires 0 <= k < |cs| && k !in ks
    ensures Kept(cs[k := c], ks, l) == Kept(cs, ks, l)
  {
    assert forall j :: 0 <= j < |cs| && j != k ==> cs[k := c][j] == cs[j];
  }

  /** Intersecting a narrowed tile with the digits of run `k` narrows it by `k` as well. */
  lemma NarrowStep(t0: Tile, t: Tile, cs: seq<Constraint>, ks: set<int>, k: int, l: Loc, known: seq<int>)
    requires Narrowed(t0, t, Kept(cs, ks, l))
    requires 0 <= k < |cs| && l in cs[k].locations
    requires known == InIterationOrder(cs[k].possibleNumbers)
    ensures Narrowed(t0, Intersected(t, known), Kept(cs, ks + {k}, l))
  {
    IntersectionMembers(known, |known|, t.possValues);
    assert known[..|known|] == known;
    InIterationOrderDigitList(cs[k].possibleNumbers);
    IntersectionAscending(known, |known|, t.possValues);
    KeptAdd(cs, ks, k, l);
  }

  /** The body of the loop of `place_tile` over the cells of a run, at cell `l`. */
  function NarrowCell(tiles: map<Loc, Tile>, loc: Loc, l: Loc, known: seq<int>): (r: map<Loc, Tile>)
    requires l in tiles
    ensures r.Keys == tiles.Keys
  {
    if l == loc || tiles[l].visited then tiles else tiles[l := Intersected(tiles[l], known)]
  }

  /**
   * The body of that loop: skips the placed cell and visited cells, and
   * intersects the others with the run's digits.
   */
  method NarrowCellStep(tiles: map<Loc, Tile>, loc: Loc, l: Loc, known: seq<int>) returns (tiles': map<Loc, Tile>)
    requires l in tiles
    ensures tiles' == NarrowCell(tiles, loc, l, known)
  {
    tiles' := tiles;
    if l != loc {
      var t := tiles[l];
      if !t.visited {
        t := IntersectPossibleValues(t, known);
        tiles' := tiles[l := t];
      }
    }
  }

  /**
   * One turn of the loop of `place_tile` over the cells of run `k` keeps
   * `SiblingsUpTo`. A cell listed twice would only be narrowed again by the
   * same digits.
   */
  lemma SiblingsStep(b: Board, loc: Loc, tiles: map<Loc, Tile>, cs: seq<Constraint>, done: set<int>, k: int,
                     locs: seq<Loc>, m: nat, known: seq<int>)
    requires 0 <= k < |cs| && locs == cs[k].locations && m < |locs| && locs[m] in tiles
    requires known == InIterationOrder(cs[k].possibleNumbers)
    requires SiblingsUpTo(b, loc, tiles, cs, done, Cells(locs, m), done + {k})
    ensures SiblingsUpTo(b, loc, NarrowCell(tiles, loc, locs[m], known), cs, done, Cells(locs, m + 1), done + {k})
  {
    var l := locs[m];
    var cells := Cells(locs, m);
    assert Cells(locs, m + 1) == cells + {l};
    var t := NarrowCell(tiles, loc, l, known)[l];
    if l != loc && !tiles[l].visited {
      var ks := if l in cells then done + {k} else done;
      NarrowStep(b.tiles[l], tiles[l], cs, ks, k, l, known);
      assert ks + {k} == done + {k};
    }
    SiblingsUpdate(b, loc, tiles, cs, done, cells, done + {k}, l, t);
    assert tiles[l := t] == NarrowCell(tiles, loc, l, known);
  }

  /** Committing run `k`, not yet handled, leaves the tiles narrowed as before. */
  lemma SiblingsFrame(b: Board, loc: Loc, tiles: map<Loc, Tile>, cs: seq<Constraint>, done: set<int>, k: int,
                      c: Constraint)
    requires 0 <= k < |cs| && k !in done
    requires SiblingsUpTo(b, loc, tiles, cs, done, {}, done)
    ensures SiblingsUpTo(b, loc, tiles, cs[k := c], done, {}, done)
  {
    forall l | l in tiles {
      KeptFrame(cs, done, k, c, l);
    }
  }

  /** Once every cell of run `k` is handled, every tile is narrowed by `done + {k}`. */
  lemma SiblingsClose(b: Board, loc: Loc, tiles: map<Loc, Tile>, cs: seq<Constraint>, done: set<int>, k: int)
    requires 0 <= k < |cs|
    requires SiblingsUpTo(b, loc, tiles, cs, done, Cells(cs[k].locations, |cs[k].locations|), done + {k})
    ensures SiblingsUpTo(b, loc, tiles, cs, done + {k}, {}, done + {k})
  {
    CellsAll(cs[k].locations);
    forall l | l in tiles {
      KeptAdd(cs, done, k, l);
    }
  }

  /** The loop of `place_tile` over the cells of run `k`, already committed in `cs`. */
  method NarrowRun(b: Board, loc: Loc, tiles: map<Loc, Tile>, cs: seq<Constraint>, ghost done: set<int>, k: int)
    returns (tiles': map<Loc, Tile>)
    requires tiles.Keys == b.tiles.Keys && 0 <= k < |cs|
    requires forall i :: 0 <= i < |cs[k].locations| ==> cs[k].locations[i] in tiles
    requires SiblingsUpTo(b, loc, tiles, cs, done, {}, done)
    ensures tiles'.Keys == b.tiles.Keys
    ensures SiblingsUpTo(b, loc, tiles', cs, done + {k}, {}, done + {k})
  {
    var known := InIterationOrder(cs[k].possibleNumbers);
    var locs := cs[k].locations;
    tiles' := tiles;
    for m := 0 to |locs|
      invariant tiles'.Keys == b.tiles.Keys
      invariant SiblingsUpTo(b, loc, tiles', cs, done, Cells(locs, m), done + {k})
    {
      SiblingsStep(b, loc, tiles', cs, done, k, locs, m, known);
      tiles' := NarrowCellStep(tiles', loc, locs[m], known);
    }
    SiblingsClose(b, loc, tiles', cs, done, k);
  }

  /**
   * What `place_tile` needs of the board: the tile at `loc` exists, every run
   * it lists exists and each of that run's cells has a tile. (That candidate
   * lists are increasing digits is not needed by the source, but the model's
   * statement of the narrowing relies on it.)
   */
  ghost predicate Placeable(b: Board, loc: Loc) {
    && loc in b.tiles
    && (forall l :: l in b.tiles ==> DigitList(b.tiles[l].possValues))
    && forall k :: k in b.tiles[loc].constraints ==>
         0 <= k < |b.constraints| && forall l :: l in b.constraints[k].locations ==> l in b.tiles
  }

  lemma ValidPlaceable(b: Board, loc: Loc)
    requires Valid(b) && loc in b.tiles
    ensures Placeable(b, loc)
  {
  }

  /** One turn of the loop of `place_tile`: commits run `k` and narrows its other cells. */
  method CommitRun(b: Board, v: int, loc: Loc, tiles: map<Loc, Tile>, cs: seq<Constraint>,
                   ghost done: set<int>, k: int) returns (tiles': map<Loc, Tile>, cs': seq<Constraint>)
    requires PlacedUpTo(b, v, loc, done, tiles, cs)
    requires 0 <= k < |cs| && k !in done && forall l :: l in b.constraints[k].locations ==> l in b.tiles
    ensures PlacedUpTo(b, v, loc, done + {k}, tiles', cs')
  {
    var c := cs[k];
    var c1 := RemovePlacementsWithoutNumbers(c, [v]);
    var numbers := c1.possibleNumbers;
    if v in numbers {
      numbers := numbers - {v};
    }
    var c2 := c1.(possibleNumbers := numbers);
    assert c2 == Commit(b.constraints[k], v);
    SiblingsFrame(b, loc, tiles, cs, done, k, c2);
    cs' := cs[k := c2];
    tiles' := NarrowRun(b, loc, tiles, cs', done, k);
  }

  /**
   * `Board.place_tile`: for each run covering `loc`, drops the placements
   * without `v`, takes `v` out of the run's digits and narrows the run's other
   * unvisited cells to those digits; then commits `v` at `loc`. The runs are
   * taken in increasing index order, the order the model fixes for iterating
   * a set. Each run is committed on its own placements, and narrowing only
   * intersects, so the candidates that remain are the same in any order.
   */
  method PlaceTile(b: Board, v: int, loc: Loc) returns (r: Board)
    requires Placeable(b, loc)
    ensures PlacedPost(b, v, loc, r)
    ensures r.tiles[loc].visited && r.tiles[loc].value == Some(v) && r.tiles[loc].possValues == [v]
    ensures forall l, x :: l in b.tiles && l != loc && x in r.tiles[l].possValues ==> x in b.tiles[l].possValues
  {
    var tile := b.tiles[loc];
    var tiles := b.tiles;
    var cs := b.constraints;
    ghost var done: set<int> := {};
    for k := 0 to |b.constraints|
      invariant forall j :: j in done <==> j in tile.constraints && j < k
      invariant PlacedUpTo(b, v, loc, done, tiles, cs)
    {
      if k in tile.constraints {
        tiles, cs := CommitRun(b, v, loc, tiles, cs, done, k);
        done := done + {k};
      }
    }
    assert done == tile.constraints by {
      forall j | j in tile.constraints ensures j in done {
        assert j < |b.constraints|;
      }
      assert forall j :: j in done ==> j in tile.constraints;
    }
    tiles := tiles[loc := SetValue(tile, v)];
    r := Board(tiles, b.order, cs);
  }

  /** Placing a digit keeps the board invariant. */
  lemma PlaceTileValid(b: Board, v: int, loc: Loc, r: Board)
    requires Valid(b) && loc in b.tiles && IsDigit(v) && PlacedPost(b, v, loc, r)
    ensures Valid(r)
  {
    var ks := b.tiles[loc].constraints;
    forall k | 0 <= k < |r.constraints|
      ensures r.constraints[k].locations == b.constraints[k].locations
      ensures r.constraints[k].index == k && ConstraintValid(r.constraints[k])
    {
      if k in ks {
        CommitValid(b.constraints[k], v);
      }
    }
    forall l | l in r.tiles
      ensures r.tiles[l].constraints == CoveringRuns(r.constraints, l)
      ensures TileValid(r.tiles[l]) && (r.tiles[l].row, r.tiles[l].col) == l
    {
      CoveringRunsSame(b.constraints, r.constraints, l);
      if l != loc && !b.tiles[l].visited {
        var t := r.tiles[l];
        forall x | x in t.possValues ensures IsDigit(x) {
          assert x in b.tiles[l].possValues;
        }
      }
    }
  }

  /** Placing a digit changes no run's clue or cells. */
  lemma PlaceTileKeepsClues(b: Board, v: int, loc: Loc, r: Board)
    requires loc in b.tiles && PlacedPost(b, v, loc, r)
    ensures SameClues(b, r)
  {
    forall k | 0 <= k < |b.constraints| ensures Clue(r.constraints[k]) == Clue(b.constraints[k]) {
      if k in b.tiles[loc].constraints {
        assert r.constraints[k] == Commit(b.constraints[k], v);
      }
    }
  }

  /** A tile that shares no run with `loc` is left exactly as it was. */
  lemma PlaceTileUnrelated(b: Board, v: int, loc: Loc, r: Board, l: Loc)
    requires Valid(b) && loc in b.tiles && PlacedPost(b, v, loc, r)
    requires l in b.tiles && l != loc && !Shares(b, loc, l)
    ensures r.tiles[l] == b.tiles[l]
  {
    var t0 := b.tiles[l];
    if !t0.visited {
      var ks := b.tiles[loc].constraints;
      var t := r.tiles[l];
      forall k | k in ks && 0 <= k < |r.constraints| ensures l !in r.constraints[k].locations {
        assert k in CoveringRuns(b.constraints, loc);
        assert r.constraints[k].locations == b.constraints[k].locations;
      }
      forall x | x in t0.possValues ensures x in Kept(r.constraints, ks, l) {
        assert IsDigit(x);
      }
      AscendingSameMembers(t.possValues, t0.possValues);
    }
  }

  /** No unvisited tile that shares a run with `loc` keeps `v` as a candidate. */
  lemma PlaceTileClearsRuns(b: Board, v: int, loc: Loc, r: Board, l: Loc)
    requires Valid(b) && loc in b.tiles && PlacedPost(b, v, loc, r)
    requires l in b.tiles && l != loc && !b.tiles[l].visited && Shares(b, loc, l)
    ensures v !in r.tiles[l].possValues
  {
    var k :| 0 <= k < |b.constraints| && loc in b.constraints[k].locations && l in b.constraints[k].locations;
    assert k in CoveringRuns(b.constraints, loc);
    assert v !in r.constraints[k].possibleNumbers;
    assert !KeptBy(r.constraints, b.tiles[loc].constraints, l, v);
  }

  /**
   * `Board.one_move_board_copy` without the serial string: `None` for a value
   * outside 1..9, and otherwise a copy of the board with the value placed.
   * The board itself is a value and is never changed.
   */
  method OneMoveBoardCopy(b: Board, value: int, row: int, col: int) returns (r: Option<Board>)
    requires Valid(b) && (IsDigit(value) ==> (row, col) in b.tiles)
    ensures r.None? <==> !IsDigit(value)
    ensures r.Some? ==> PlacedPost(b, value, (row, col), r.value) && Valid(r.value)
  {
    if !IsDigit(value) {
      return None;
    }
    ValidPlaceable(b, (row, col));
    var copy := PlaceTile(b, value, (row, col));
    PlaceTileValid(b, value, (row, col), copy);
    r := Some(copy);
  }
}
