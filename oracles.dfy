/**
 * `Board.is_legal` (board.py:478-501) and `Board.is_complete`
 * (board.py:503-520): read-only scans over the tiles and the runs of a board.
 */
module Oracles {
  import opened Lists
  import opened Digits
  import opened Options
  import opened Tiles
  import opened Constraints
  import opened Boards

  /**
   * What the scans need of a board: the tile dict is iterated through
   * `order`, every cell of a run has a tile (`get_tile` would return `None`
   * otherwise), and a visited tile holds a value (`int("#")` would fail).
   */
  ghost predicate Scannable(b: Board) {
    && KeysOrdered(b)
    && LocationsPresent(b)
    && forall loc :: loc in b.tiles && b.tiles[loc].visited ==> b.tiles[loc].value.Some?
  }

  lemma ValidScannable(b: Board)
    requires Valid(b)
    ensures Scannable(b)
  {
  }

  /** The value a tile holds; only read for visited tiles, which always hold one. */
  function ValueOf(t: Tile): int {
    if t.value.Some? then t.value.value else 0
  }

  /** The values of the visited tiles among the first `m` cells of `locs`, in cell order. */
  function VisitedValues(tiles: map<Loc, Tile>, locs: seq<Loc>, m: nat): seq<int>
    requires m <= |locs|
  {
    if m == 0 then []
    else
      var loc := locs[m - 1];
      VisitedValues(tiles, locs, m - 1) + if loc in tiles && tiles[loc].visited then [ValueOf(tiles[loc])] else []
  }

  /** The sum of the values already placed in run `k`. */
  function PlacedSum(b: Board, k: int): int
    requires 0 <= k < |b.constraints|
  {
    var locs := b.constraints[k].locations;
    Sum(VisitedValues(b.tiles, locs, |locs|))
  }

  /**
   * No tile has run out of candidates and no run's placed values exceed its
   * total. Repeated digits in a run are not rejected.
   */
  ghost predicate Legal(b: Board) {
    && (forall loc :: loc in b.tiles ==> |b.tiles[loc].possValues| > 0)
    && forall k :: 0 <= k < |b.constraints| ==> PlacedSum(b, k) <= b.constraints[k].totalSum
  }

  /** Every tile is visited and every run's values add up to its total. */
  ghost predicate Complete(b: Board) {
    && (forall loc :: loc in b.tiles ==> b.tiles[loc].visited)
    && forall k :: 0 <= k < |b.constraints| ==> PlacedSum(b, k) == b.constraints[k].totalSum
  }

  /** A property of every tile follows from that property of every entry of `order`. */
  lemma OrderCovers(b: Board, loc: Loc)
    requires KeysOrdered(b) && loc in b.tiles
    ensures loc in b.order
  {
    assert loc in Elements(b.order);
  }

  /** The inner loop of both scans: `cur_values` of run `c`. */
  method CollectVisitedValues(b: Board, c: Constraint) returns (values: seq<int>)
    requires Scannable(b) && forall loc :: loc in c.locations ==> loc in b.tiles
    ensures values == VisitedValues(b.tiles, c.locations, |c.locations|)
  {
    values := [];
    for m := 0 to |c.locations|
      invariant values == VisitedValues(b.tiles, c.locations, m)
    {
      var tile := b.tiles[c.locations[m]];
      if tile.visited {
        values := values + [tile.value.value];
      }
    }
  }

  /**
   * `Board.is_legal`: false as soon as a tile has no candidate left or a
   * run's placed values sum above its total.
   */
  method IsLegal(b: Board) returns (r: bool)
    requires Scannable(b)
    ensures r == Legal(b)
  {
    for i := 0 to |b.order|
      invariant forall loc :: loc in b.order[..i] ==> |b.tiles[loc].possValues| > 0
    {
      assert b.order[..i + 1] == b.order[..i] + [b.order[i]];
      assert b.order[i] in Elements(b.order);
      if |b.tiles[b.order[i]].possValues| == 0 {
        return false;
      }
    }
    assert b.order[..|b.order|] == b.order;
    forall loc | loc in b.tiles ensures |b.tiles[loc].possValues| > 0 {
      OrderCovers(b, loc);
    }
    for k := 0 to |b.constraints|
      invariant forall j :: 0 <= j < k ==> PlacedSum(b, j) <= b.constraints[j].totalSum
    {
      var c := b.constraints[k];
      var curValues := CollectVisitedValues(b, c);
      if Sum(curValues) > c.totalSum {
        return false;
      }
      // The repeated-digit test: a list never has more distinct elements than entries.
      ElementsAtMostLength(curValues);
      if |curValues| < |Elements(curValues)| {
        assert false;
        return false;
      }
    }
    return true;
  }

  /**
   * `Board.is_complete`: false as soon as a tile is unvisited or a run's
   * values do not add up to its total.
   */
  method IsComplete(b: Board) returns (r: bool)
    requires Scannable(b)
    ensures r == Complete(b)
  {
    for i := 0 to |b.order|
      invariant forall loc :: loc in b.order[..i] ==> b.tiles[loc].visited
    {
      assert b.order[..i + 1] == b.order[..i] + [b.order[i]];
      assert b.order[i] in Elements(b.order);
      if !b.tiles[b.order[i]].visited {
        return false;
      }
    }
    assert b.order[..|b.order|] == b.order;
    forall loc | loc in b.tiles ensures b.tiles[loc].visited {
      OrderCovers(b, loc);
    }
    for k := 0 to |b.constraints|
      invariant forall j :: 0 <= j < k ==> PlacedSum(b, j) == b.constraints[j].totalSum
    {
      var c := b.constraints[k];
      var curSum := 0;
      for m := 0 to |c.locations|
        invariant curSum == Sum(VisitedValues(b.tiles, c.locations, m))
      {
        var tile := b.tiles[c.locations[m]];
        SumAppend(VisitedValues(b.tiles, c.locations, m), tile.value.value);
        curSum := curSum + tile.value.value;
      }
      if curSum != c.totalSum {
        return false;
      }
    }
    return true;
  }

  /** A complete board is legal when every visited tile keeps its value as its candidate. */
  lemma CompleteImpliesLegal(b: Board)
    requires Complete(b)
    requires forall loc :: loc in b.tiles && b.tiles[loc].visited ==> |b.tiles[loc].possValues| == 1
    ensures Legal(b)
  {
  }

  /**
   * The repeated-digit test never fires: a horizontal run of two cells that
   * both hold 1, with total 2, is legal.
   */
  lemma LegalIgnoresRepeats()
    ensures
      var c := Constraint(2, 2, HORIZONTAL, 0, 0, 0, [(0, 1), (0, 2)], [], {});
      var t1 := Tile(0, 1, true, Some(1), [1], {0});
      var t2 := Tile(0, 2, true, Some(1), [1], {0});
      var b := Board(map[(0, 1) := t1, (0, 2) := t2], [(0, 1), (0, 2)], [c]);
      Legal(b) && Complete(b) && VisitedValues(b.tiles, c.locations, 2) == [1, 1]
  {
    var c := Constraint(2, 2, HORIZONTAL, 0, 0, 0, [(0, 1), (0, 2)], [], {});
    var t1 := Tile(0, 1, true, Some(1), [1], {0});
    var t2 := Tile(0, 2, true, Some(1), [1], {0});
    var b := Board(map[(0, 1) := t1, (0, 2) := t2], [(0, 1), (0, 2)], [c]);
    assert VisitedValues(b.tiles, c.locations, 1) == [1];
    assert VisitedValues(b.tiles, c.locations, 2) == [1, 1];
    assert [1, 1][1..] == [1] && [1][1..] == [];
    assert Sum([1, 1]) == 2;
    assert PlacedSum(b, 0) == 2;
    assert b.tiles.Keys == {(0, 1), (0, 2)};
  }
}
