/**
 * `Tile` (board.py:28-129): one white cell of the puzzle. The source object is
 * updated in place; here each update returns the new tile value.
 */
module Tiles {
  import opened Lists
  import opened Digits
  import opened Options

  /** A board position `(row, col)`. */
  type Loc = (int, int)

  /**
   * `value` is `None` while the source holds the placeholder `"#"`;
   * `constraints` holds the indices of the runs covering the tile.
   */
  datatype Tile = Tile(
    row: int,
    col: int,
    visited: bool,
    value: Option<int>,
    possValues: seq<int>,
    constraints: set<int>)

  /**
   * What every tile of a board keeps: it is visited exactly when it holds a
   * value, a visited tile has that value as its only candidate, and the
   * candidates are strictly increasing digits.
   */
  ghost predicate TileValid(t: Tile) {
    && (t.visited <==> t.value.Some?)
    && (t.visited ==> t.possValues == [t.value.value])
    && DigitList(t.possValues)
  }

  /** `Tile.__init__`: an unset tile with every digit as a candidate and no runs yet. */
  function NewTile(row: int, col: int): (t: Tile)
    ensures t.row == row && t.col == col
    ensures !t.visited && t.constraints == {}
    ensures forall x :: x in t.possValues <==> IsDigit(x)
  {
    Tile(row, col, false, None, ALL_NUMBERS, {})
  }

  lemma NewTileValid(row: int, col: int)
    ensures TileValid(NewTile(row, col))
  {
    AllNumbersIsDigitList();
  }

  /** `Tile.set_value`: commits `v`, which becomes the only candidate. */
  function SetValue(t: Tile, v: int): (r: Tile)
    ensures r.visited && r.value == Some(v) && r.possValues == [v]
    ensures r.row == t.row && r.col == t.col && r.constraints == t.constraints
    ensures IsDigit(v) ==> TileValid(r)
  {
    t.(value := Some(v), possValues := [v], visited := true)
  }

  /** `Tile.add_constraint`: records that run `index` covers the tile. */
  function AddConstraint(t: Tile, index: int): (r: Tile)
    ensures r.constraints == t.constraints + {index}
    ensures r == t.(constraints := r.constraints)
    ensures TileValid(t) ==> TileValid(r)
  {
    t.(constraints := t.constraints + {index})
  }

  /** The first `n` entries of `known` that occur in `current`, in the order of `known`. */
  function Intersection(known: seq<int>, n: nat, current: seq<int>): seq<int>
    requires n <= |known|
  {
    if n == 0 then []
    else Intersection(known, n - 1, current) + (if known[n - 1] in current then [known[n - 1]] else [])
  }

  lemma {:induction false} IntersectionMembers(known: seq<int>, n: nat, current: seq<int>)
    requires n <= |known|
    ensures forall x :: x in Intersection(known, n, current) <==> x in known[..n] && x in current
  {
    if n > 0 {
      IntersectionMembers(known, n - 1, current);
      assert known[..n] == known[..n - 1] + [known[n - 1]];
    }
  }

  /** The result is a subsequence of `known`, so it inherits its ascending order. */
  lemma {:induction false} IntersectionAscending(known: seq<int>, n: nat, current: seq<int>)
    requires n <= |known| && Ascending(known)
    ensures Ascending(Intersection(known, n, current))
  {
    if n > 0 {
      IntersectionAscending(known, n - 1, current);
      IntersectionMembers(known, n - 1, current);
      var r := Intersection(known, n - 1, current);
      var last := known[n - 1];
      forall y | y in r ensures y < last {
        var j :| 0 <= j < n - 1 && known[..n - 1][j] == y;
        AscendingAt(known, j, n - 1);
      }
      if last in current {
        AscendingAppend(r, last);
      } else {
        assert Intersection(known, n, current) == r;
      }
    }
  }

  /** The tile `intersect_possible_values(known)` leaves. */
  function Intersected(t: Tile, known: seq<int>): Tile {
    t.(possValues := Intersection(known, |known|, t.possValues))
  }

  /**
   * `Tile.intersect_possible_values`: keeps exactly the entries of `known`
   * that were candidates, in the order of `known`.
   */
  method IntersectPossibleValues(t: Tile, known: seq<int>) returns (r: Tile)
    ensures r == Intersected(t, known)
    ensures forall x :: x in r.possValues <==> x in known && x in t.possValues
  {
    var oldValues := t.possValues;
    var poss: seq<int> := [];
    for i := 0 to |known|
      invariant poss == Intersection(known, i, oldValues)
    {
      if known[i] in oldValues {
        poss := poss + [known[i]];
      }
    }
    r := t.(possValues := poss);
    IntersectionMembers(known, |known|, oldValues);
    assert known[..|known|] == known;
  }

  /**
   * `Tile.remove_value_from_possible`: reports whether `v` was a candidate and,
   * if so, drops it; otherwise the tile is unchanged.
   */
  function RemoveValueFromPossible(t: Tile, v: int): (res: (Tile, bool))
    ensures res.1 <==> v in t.possValues
    ensures !res.1 ==> res.0 == t
    ensures res.0 == t.(possValues := res.0.possValues)
    ensures res.1 ==> multiset(res.0.possValues) == multiset(t.possValues) - multiset{v}
    ensures Ascending(t.possValues) ==> Ascending(res.0.possValues)
  {
    if v !in t.possValues then (t, false)
    else
      RemoveFirstAscending(t.possValues, v);
      (t.(possValues := RemoveFirst(t.possValues, v)), true)
  }
}
