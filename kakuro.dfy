/**
 * The search driver of kakuro.py: forced moves, propagation, pruning and
 * branching on a cell with the fewest candidates (`single_turn`), run over a
 * last-in first-out stack of boards (`solve_kakuro_new`).
 */
module Kakuro {
  import opened Lists
  import opened Digits
  import opened Options
  import opened Tiles
  import opened Constraints
  import opened Boards
  import opened Placement
  import opened Propagation
  import opened Oracles

  /** The location `minimal_remaining_values` returns when every tile is visited. */
  const FLAG: Loc := (-1, -1)

  /** Every entry of the key order has a tile. */
  ghost predicate OrderInTiles(b: Board) {
    forall i :: 0 <= i < |b.order| ==> b.order[i] in b.tiles
  }

  lemma ValidOrderInTiles(b: Board)
    requires KeysOrdered(b)
    ensures OrderInTiles(b)
  {
    forall i | 0 <= i < |b.order| ensures b.order[i] in b.tiles {
      assert b.order[i] in Elements(b.order);
    }
  }

  /** The tile at `loc` is unvisited. */
  ghost predicate Open(b: Board, loc: Loc) {
    loc in b.tiles && !b.tiles[loc].visited
  }

  /** The number of candidates of the tile at `loc`. */
  ghost function Count(b: Board, loc: Loc): int
    requires loc in b.tiles
  {
    |b.tiles[loc].possValues|
  }

  /**
   * `best` is an unvisited tile with the fewest candidates among the
   * unvisited tiles, and the first such tile in key order.
   */
  ghost predicate IsMrv(b: Board, best: Loc) {
    && Open(b, best)
    && (forall j :: 0 <= j < |b.order| && Open(b, b.order[j]) ==> Count(b, best) <= Count(b, b.order[j]))
    && (forall j :: 0 <= j < |b.order| && Open(b, b.order[j]) && Count(b, b.order[j]) == Count(b, best) ==>
          best in b.order[..j + 1])
  }

  /** Every tile in key order is visited. */
  ghost predicate AllVisited(b: Board) {
    forall j :: 0 <= j < |b.order| ==> !Open(b, b.order[j])
  }

  /**
   * `minimal_remaining_values`: the first unvisited tile with the fewest
   * candidates, found by a strict `<` against a running minimum that starts
   * above every count (`float('inf')`, here `None`); `FLAG` when every tile is
   * visited.
   */
  method MinimalRemainingValues(b: Board) returns (best: Loc)
    requires OrderInTiles(b)
    ensures AllVisited(b) ==> best == FLAG
    ensures !AllVisited(b) ==> IsMrv(b, best)
  {
    var minValues: Option<int> := None;
    best := FLAG;
    ghost var at := 0;
    for i := 0 to |b.order|
      invariant minValues.None? ==> best == FLAG && forall j :: 0 <= j < i ==> !Open(b, b.order[j])
      invariant minValues.Some? ==>
        && 0 <= at < i && b.order[at] == best && Open(b, best) && minValues.value == Count(b, best)
        && (forall j :: 0 <= j < i && Open(b, b.order[j]) ==> Count(b, best) <= Count(b, b.order[j]))
        && (forall j :: 0 <= j < i && Open(b, b.order[j]) && Count(b, b.order[j]) == Count(b, best) ==> at <= j)
    {
      var location := b.order[i];
      var curTile := b.tiles[location];
      if curTile.visited {
        continue;
      }
      var tileNumPos := |curTile.possValues|;
      if minValues.None? || tileNumPos < minValues.value {
        minValues := Some(tileNumPos);
        best := location;
        at := i;
      }
    }
    if minValues.Some? {
      forall j | 0 <= j < |b.order| && Open(b, b.order[j]) && Count(b, b.order[j]) == Count(b, best)
        ensures best in b.order[..j + 1]
      {
        assert b.order[..j + 1][at] == best;
      }
    }
  }

  /** The tile at `loc` is unvisited with exactly one candidate left. */
  ghost predicate Forced(b: Board, loc: Loc) {
    Open(b, loc) && |b.tiles[loc].possValues| == 1
  }

  /** `loc` is forced, and no forced tile comes before it in key order. */
  ghost predicate FirstForced(b: Board, loc: Loc) {
    && Forced(b, loc) && loc in b.order
    && forall j :: 0 <= j < |b.order| && Forced(b, b.order[j]) ==> loc in b.order[..j + 1]
  }

  /**
   * `get_single_value_tiles`: the first tile in key order that is unvisited
   * and has exactly one candidate, or `None`.
   */
  method GetSingleValueTiles(b: Board) returns (r: Option<Loc>)
    requires OrderInTiles(b)
    ensures r.None? <==> forall j :: 0 <= j < |b.order| ==> !Forced(b, b.order[j])
    ensures r.Some? ==> FirstForced(b, r.value)
  {
    for i := 0 to |b.order|
      invariant forall j :: 0 <= j < i ==> !Forced(b, b.order[j])
    {
      var tile := b.tiles[b.order[i]];
      if |tile.possValues| == 1 && !tile.visited {
        forall j | 0 <= j < |b.order| && Forced(b, b.order[j]) ensures b.order[i] in b.order[..j + 1] {
          assert b.order[..j + 1][i] == b.order[i];
        }
        return Some(b.order[i]);
      }
    }
    return None;
  }

  /** The number of unvisited tiles among the locations `order`. */
  ghost function CountOpen(tiles: map<Loc, Tile>, order: seq<Loc>): nat {
    if order == [] then 0
    else (if order[0] in tiles && !tiles[order[0]].visited then 1 else 0) + CountOpen(tiles, order[1..])
  }

  /** The number of unvisited tiles of a board: what the search's turns bring down. */
  ghost function Unvisited(b: Board): nat {
    CountOpen(b.tiles, b.order)
  }

  /** Every tile that was visited is still visited. */
  ghost predicate VisitedKept(tiles: map<Loc, Tile>, tiles': map<Loc, Tile>) {
    tiles'.Keys == tiles.Keys && forall l :: l in tiles && tiles[l].visited ==> tiles'[l].visited
  }

  lemma {:induction false} CountOpenMono(tiles: map<Loc, Tile>, tiles': map<Loc, Tile>, order: seq<Loc>)
    requires VisitedKept(tiles, tiles')
    ensures CountOpen(tiles', order) <= CountOpen(tiles, order)
  {
    if order != [] {
      CountOpenMono(tiles, tiles', order[1..]);
    }
  }

  /** Visiting one more tile of `order` lowers the count. */
  lemma {:induction false} CountOpenDrops(tiles: map<Loc, Tile>, tiles': map<Loc, Tile>, order: seq<Loc>, loc: Loc)
    requires VisitedKept(tiles, tiles') && loc in order
    requires loc in tiles && !tiles[loc].visited && tiles'[loc].visited
    ensures CountOpen(tiles', order) < CountOpen(tiles, order)
  {
    if order[0] == loc {
      CountOpenMono(tiles, tiles', order[1..]);
    } else {
      CountOpenDrops(tiles, tiles', order[1..], loc);
    }
  }

  /** Placing a digit at an unvisited tile visits it and no tile is unvisited by it. */
  lemma PlaceTileVisits(b: Board, v: int, loc: Loc, r: Board)
    requires loc in b.tiles && PlacedPost(b, v, loc, r)
    ensures VisitedKept(b.tiles, r.tiles) && r.tiles[loc].visited
    ensures !b.tiles[loc].visited && loc in b.order ==> Unvisited(r) < Unvisited(b)
  {
    if !b.tiles[loc].visited && loc in b.order {
      CountOpenDrops(b.tiles, r.tiles, b.order, loc);
    }
  }

  /** One turn of the forced-move loop: `s'` is `s` with the first forced tile's only candidate placed there. */
  ghost predicate ForcedMove(s: Board, loc: Loc, s': Board) {
    FirstForced(s, loc) && PlacedPost(s, s.tiles[loc].possValues[0], loc, s')
  }

  /** `boards` are the boards the forced-move loop passes through from `b` to `r`, placing at `locs` in turn. */
  ghost predicate ForcedTrace(b: Board, locs: seq<Loc>, boards: seq<Board>, r: Board) {
    && |boards| == |locs| + 1 && boards[0] == b && boards[|locs|] == r
    && forall i :: 0 <= i < |locs| ==> ForcedMove(boards[i], locs[i], boards[i + 1])
  }

  lemma TraceExtend(b: Board, locs: seq<Loc>, boards: seq<Board>, r: Board, loc: Loc, r': Board)
    requires ForcedTrace(b, locs, boards, r) && ForcedMove(r, loc, r')
    ensures ForcedTrace(b, locs + [loc], boards + [r'], r')
  {
    var locs', boards' := locs + [loc], boards + [r'];
    forall i | 0 <= i < |locs'| ensures ForcedMove(boards'[i], locs'[i], boards'[i + 1]) {
      if i < |locs| {
        assert boards'[i] == boards[i] && boards'[i + 1] == boards[i + 1] && locs'[i] == locs[i];
      }
    }
  }

  /**
   * The forced-move loop of `single_turn`: while some unvisited tile has a
   * single candidate, the first such tile gets it. Each turn visits one more
   * tile, so the loop ends, and then no forced move is left.
   */
  method PlaceForced(b: Board) returns (r: Board, ghost locs: seq<Loc>, ghost boards: seq<Board>)
    requires Valid(b)
    ensures ForcedTrace(b, locs, boards, r)
    ensures forall j :: 0 <= j < |r.order| ==> !Forced(r, r.order[j])
    ensures Valid(r) && r.tiles.Keys == b.tiles.Keys && r.order == b.order && SameClues(b, r)
    ensures Unvisited(r) <= Unvisited(b)
  {
    r := b;
    locs, boards := [], [b];
    ValidOrderInTiles(r);
    var single := GetSingleValueTiles(r);
    while single.Some?
      invariant ForcedTrace(b, locs, boards, r)
      invariant Valid(r) && r.tiles.Keys == b.tiles.Keys && r.order == b.order && SameClues(b, r)
      invariant Unvisited(r) <= Unvisited(b)
      invariant single.None? <==> forall j :: 0 <= j < |r.order| ==> !Forced(r, r.order[j])
      invariant single.Some? ==> FirstForced(r, single.value)
      decreases Unvisited(r)
    {
      var loc := single.value;
      var curTile := r.tiles[loc];
      var value := curTile.possValues[0];
      assert value in curTile.possValues;
      ValidPlaceable(r, loc);
      var next := PlaceTile(r, value, loc);
      PlaceTileValid(r, value, loc, next);
      PlaceTileVisits(r, value, loc, next);
      PlaceTileKeepsClues(r, value, loc, next);
      TraceExtend(b, locs, boards, r, loc, next);
      locs, boards := locs + [loc], boards + [next];
      r := next;
      ValidOrderInTiles(r);
      single := GetSingleValueTiles(r);
    }
  }

  /** `children` are copies of `b`, one per candidate of the tile at `best`, in order, each with that candidate placed there. */
  ghost predicate BranchesOf(b: Board, best: Loc, children: seq<Board>)
    requires best in b.tiles
  {
    && |children| == |b.tiles[best].possValues|
    && forall i :: 0 <= i < |children| ==>
         PlacedPost(b, b.tiles[best].possValues[i], best, children[i]) && Valid(children[i])
  }

  /** `c` is `b` with `v` placed at `best`, on the same cells, and with one tile fewer to fill when `best` was open. */
  ghost predicate ChildOk(b: Board, best: Loc, v: int, c: Board)
    requires best in b.tiles
  {
    && PlacedPost(b, v, best, c) && Valid(c) && SameClues(b, c)
    && c.tiles.Keys == b.tiles.Keys && (Open(b, best) ==> Unvisited(c) < Unvisited(b))
  }

  lemma ChildrenExtend(b: Board, best: Loc, vs: seq<int>, cs: seq<Board>, c: Board)
    requires best in b.tiles && |cs| < |vs|
    requires forall j :: 0 <= j < |cs| ==> ChildOk(b, best, vs[j], cs[j])
    requires ChildOk(b, best, vs[|cs|], c)
    ensures forall j :: 0 <= j < |cs| + 1 ==> ChildOk(b, best, vs[j], (cs + [c])[j])
  {
    forall j | 0 <= j < |cs| + 1 ensures ChildOk(b, best, vs[j], (cs + [c])[j]) {
      if j < |cs| {
        assert (cs + [c])[j] == cs[j];
      }
    }
  }

  /** The branching loop of `single_turn`, counting each child in `num_used_boards`. */
  method Branch(b: Board, best: Loc, used: int) returns (children: seq<Board>, used': int)
    requires Valid(b) && best in b.tiles
    ensures BranchesOf(b, best, children) && |children| <= BIGGEST_NUM
    ensures used' == used + |children|
    ensures forall i :: 0 <= i < |children| ==> children[i].tiles.Keys == b.tiles.Keys && SameClues(b, children[i])
    ensures forall i :: 0 <= i < |children| ==> (Open(b, best) ==> Unvisited(children[i]) < Unvisited(b))
  {
    var possibleValues := b.tiles[best].possValues;
    DigitListLength(possibleValues);
    OrderCovers(b, best);
    used' := used;
    children := [];
    for i := 0 to |possibleValues|
      invariant used' == used + |children| && |children| == i
      invariant forall j :: 0 <= j < i ==> ChildOk(b, best, possibleValues[j], children[j])
    {
      used' := used' + 1;
      assert possibleValues[i] in possibleValues;
      var nBoard := OneMoveBoardCopy(b, possibleValues[i], best.0, best.1);
      PlaceTileVisits(b, possibleValues[i], best, nBoard.value);
      PlaceTileKeepsClues(b, possibleValues[i], best, nBoard.value);
      ChildrenExtend(b, best, possibleValues, children, nBoard.value);
      children := children + [nBoard.value];
    }
  }

  /**
   * `single_turn` on board `b`, which it updates in place: the board it
   * leaves is `r`, and the children it appends to the stack are `children`,
   * in order. `crashed` is the call of the missing `Board.print_board`.
   * `settled` is the board once no forced move is left, reached through the
   * boards `trace` by placing at `forced` in turn, and `best` is the cell
   * branched on.
   */
  method SingleTurn(b: Board, used: int)
    returns (r: Board, children: seq<Board>, used': int, crashed: bool,
             ghost settled: Board, ghost best: Loc, ghost forced: seq<Loc>, ghost trace: seq<Board>)
    requires Valid(b)
    ensures ForcedTrace(b, forced, trace, settled)
    ensures Valid(settled) && settled.tiles.Keys == b.tiles.Keys && settled.order == b.order
    ensures Unvisited(settled) <= Unvisited(b)
    ensures forall j :: 0 <= j < |settled.order| ==> !Forced(settled, settled.order[j])
    ensures PropagatedPost(settled, r) && Valid(r) && Unvisited(r) == Unvisited(settled)
    ensures r.tiles.Keys == b.tiles.Keys && SameClues(b, r)
    ensures used' == used + |children|
    ensures !Legal(r) || Complete(r) ==> children == [] && !crashed
    ensures crashed <==> Legal(r) && !Complete(r) && best !in r.tiles
    ensures crashed ==> AllVisited(r) && children == []
    ensures Legal(r) && !Complete(r) && !AllVisited(r) ==> IsMrv(r, best)
    ensures Legal(r) && !Complete(r) && AllVisited(r) ==> best == FLAG
    ensures Legal(r) && !Complete(r) && !crashed ==>
      best in r.tiles && BranchesOf(r, best, children) && |children| <= BIGGEST_NUM
    ensures forall i :: 0 <= i < |children| ==>
      && Valid(children[i]) && children[i].tiles.Keys == b.tiles.Keys && SameClues(b, children[i])
      && (Open(r, best) ==> Unvisited(children[i]) < Unvisited(b))
  {
    used' := used;
    children := [];
    crashed := false;
    best := FLAG;
    var s;
    s, forced, trace := PlaceForced(b);
    settled := s;
    r := UpdateConstraints(s);
    UpdateConstraintsValid(s, r);
    UpdateConstraintsShrinks(s, r);
    UpdateConstraintsKeepsClues(s, r);
    CountOpenSame(s.tiles, r.tiles, s.order);
    ValidScannable(r);
    ValidOrderInTiles(r);
    var legal := IsLegal(r);
    if !legal {
      return;
    }
    var complete := IsComplete(r);
    if complete {
      return;
    }
    var bestTile := MinimalRemainingValues(r);
    best := bestTile;
    var tile := GetTile(r, bestTile.0, bestTile.1);
    if tile.None? {
      crashed := true;
      return;
    }
    children, used' := Branch(r, bestTile, used);
  }

  /** Propagation leaves the visited flags, and so the count, as they were. */
  lemma {:induction false} CountOpenSame(tiles: map<Loc, Tile>, tiles': map<Loc, Tile>, order: seq<Loc>)
    requires tiles'.Keys == tiles.Keys && forall l :: l in tiles ==> tiles'[l].visited == tiles[l].visited
    ensures CountOpen(tiles', order) == CountOpen(tiles, order)
  {
    if order != [] {
      CountOpenSame(tiles, tiles', order[1..]);
    }
  }

  /** `10^n`: a board with `u` unvisited tiles outweighs any nine boards with fewer. */
  function Pow10(n: nat): (r: nat)
    ensures r >= 1
  {
    if n == 0 then 1 else 10 * Pow10(n - 1)
  }

  /** The termination measure of the search: each board on the stack weighs `10^` its unvisited tiles. */
  ghost function Weight(stack: seq<Board>): nat {
    if stack == [] then 0 else Weight(stack[..|stack| - 1]) + Pow10(Unvisited(stack[|stack| - 1]))
  }

  lemma {:induction false} WeightAppend(s: seq<Board>, t: seq<Board>)
    ensures Weight(s + t) == Weight(s) + Weight(t)
  {
    if t == [] {
      assert s + t == s;
    } else {
      var st := s + t;
      assert st[..|st| - 1] == s + t[..|t| - 1];
      assert st[|st| - 1] == t[|t| - 1];
      WeightAppend(s, t[..|t| - 1]);
    }
  }

  /** Boards that each have fewer than `u` unvisited tiles weigh at most `|cs|` times `10^(u-1)`. */
  lemma {:induction false} WeightBelow(cs: seq<Board>, u: nat)
    requires u >= 1 && forall i :: 0 <= i < |cs| ==> Unvisited(cs[i]) < u
    ensures Weight(cs) <= |cs| * Pow10(u - 1)
  {
    if cs != [] {
      var init := cs[..|cs| - 1];
      assert forall i :: 0 <= i < |init| ==> init[i] == cs[i];
      WeightBelow(init, u);
      Pow10Mono(Unvisited(cs[|cs| - 1]), u - 1);
      OneMore(Weight(init), Pow10(Unvisited(cs[|cs| - 1])), |cs|, Pow10(u - 1));
    }
  }

  lemma OneMore(a: nat, b: nat, n: nat, p: nat)
    requires n >= 1 && a <= (n - 1) * p && b <= p
    ensures a + b <= n * p
  {
    assert (n - 1) * p + p == n * p;
  }

  lemma {:induction false} Pow10Mono(m: nat, n: nat)
    requires m <= n
    ensures Pow10(m) <= Pow10(n)
  {
    if m < n {
      Pow10Mono(m, n - 1);
    }
  }

  lemma {:induction false} MulMono(a: nat, b: nat, p: nat)
    requires a <= b
    ensures a * p <= b * p
  {
    if a < b {
      MulMono(a, b - 1, p);
      assert b * p == (b - 1) * p + p;
    }
  }

  lemma NineBelowTen(w: nat, n: nat, p: nat)
    requires n <= 9 && w <= n * p && p >= 1
    ensures w < 10 * p
  {
    MulMono(n, 9, p);
  }

  /** At most nine boards with fewer than `u` unvisited tiles weigh less than one board with `u`. */
  lemma ChildrenLighter(children: seq<Board>, u: nat)
    requires |children| <= BIGGEST_NUM
    requires forall i :: 0 <= i < |children| ==> Unvisited(children[i]) < u
    ensures Weight(children) < Pow10(u)
  {
    if children != [] {
      assert Unvisited(children[0]) < u;
      WeightBelow(children, u);
      NineBelowTen(Weight(children), |children|, Pow10(u - 1));
    }
  }

  /** Replacing the top board by at most nine boards with fewer unvisited tiles lowers the weight. */
  lemma PopPushLighter(stack: seq<Board>, children: seq<Board>)
    requires stack != [] && |children| <= BIGGEST_NUM
    requires forall i :: 0 <= i < |children| ==> Unvisited(children[i]) < Unvisited(stack[|stack| - 1])
    ensures Weight(stack[..|stack| - 1] + children) < Weight(stack)
  {
    WeightAppend(stack[..|stack| - 1], children);
    ChildrenLighter(children, Unvisited(stack[|stack| - 1]));
  }

  /** What `solve_kakuro_new` ends with, and the count in `num_used_boards`. */
  datatype Outcome =
    | Solved(board: Board, used: int)
    | NoSolution(used: int)
    | Crashed(used: int)

  /** Every board on the stack is a valid board over the cells and the clues of `b`. */
  ghost predicate StackOk(b: Board, stack: seq<Board>) {
    forall i :: 0 <= i < |stack| ==> Valid(stack[i]) && stack[i].tiles.Keys == b.tiles.Keys && SameClues(b, stack[i])
  }

  /**
   * Popping the top board and pushing boards over its cells and clues keeps
   * the stack over the cells and clues of `b`.
   */
  lemma StackPush(b: Board, stack: seq<Board>, children: seq<Board>)
    requires stack != [] && StackOk(b, stack)
    requires forall i :: 0 <= i < |children| ==>
      Valid(children[i]) && children[i].tiles.Keys == stack[|stack| - 1].tiles.Keys
      && SameClues(stack[|stack| - 1], children[i])
    ensures StackOk(b, stack[..|stack| - 1] + children)
  {
    var rest := stack[..|stack| - 1];
    forall i | 0 <= i < |rest + children|
      ensures Valid((rest + children)[i]) && (rest + children)[i].tiles.Keys == b.tiles.Keys
      ensures SameClues(b, (rest + children)[i])
    {
      if i < |rest| {
        assert (rest + children)[i] == stack[i];
      } else {
        assert (rest + children)[i] == children[i - |rest|];
      }
    }
  }

  /**
   * `s` solves the puzzle `b`: every cell of `b` holds a digit, and the
   * digits in each run of `b` add up to its clue.
   */
  ghost predicate Solves(b: Board, s: Board) {
    && s.tiles.Keys == b.tiles.Keys
    && (forall loc :: loc in b.tiles ==> s.tiles[loc].visited && s.tiles[loc].value.Some? && IsDigit(s.tiles[loc].value.value))
    && forall k :: 0 <= k < |b.constraints| ==>
         var locs := b.constraints[k].locations;
         Sum(VisitedValues(s.tiles, locs, |locs|)) == b.constraints[k].totalSum
  }

  /** A complete valid board over the cells and clues of `b` solves `b`. */
  lemma CompleteSolves(b: Board, s: Board)
    requires Valid(s) && Complete(s) && s.tiles.Keys == b.tiles.Keys && SameClues(b, s)
    ensures Solves(b, s)
  {
    forall loc | loc in b.tiles
      ensures s.tiles[loc].visited && s.tiles[loc].value.Some? && IsDigit(s.tiles[loc].value.value)
    {
      assert TileValid(s.tiles[loc]);
      assert s.tiles[loc].value.value in s.tiles[loc].possValues;
    }
    forall k | 0 <= k < |b.constraints|
      ensures Sum(VisitedValues(s.tiles, b.constraints[k].locations, |b.constraints[k].locations|)) == b.constraints[k].totalSum
    {
      assert Clue(s.constraints[k]) == Clue(b.constraints[k]);
      assert PlacedSum(s, k) == s.constraints[k].totalSum;
    }
  }

  /**
   * `solve_kakuro_new`: depth-first search over a stack of boards, popping
   * the newest, running one turn on it and stopping at the first complete
   * board. The search needs the cell `FLAG` to be absent, or a board with
   * every tile visited would be pushed again for ever.
   */
  method SolveKakuro(b: Board) returns (out: Outcome)
    requires Valid(b) && FLAG !in b.tiles
    ensures out.Solved? ==> Solves(b, out.board) && Complete(out.board) && Valid(out.board) && SameClues(b, out.board)
    ensures out.used >= 1
  {
    var used := 1;
    var stack := [b];
    while |stack| > 0
      invariant StackOk(b, stack) && used >= 1
      decreases Weight(stack)
    {
      var cur := stack[|stack| - 1];
      var rest := stack[..|stack| - 1];
      var r, children, used', crashed, settled, best, forced, trace := SingleTurn(cur, used);
      used := used';
      if crashed {
        return Crashed(used);
      }
      if children != [] {
        assert Legal(r) && !Complete(r) && best in r.tiles;
        assert !AllVisited(r);
        assert Open(r, best);
      }
      PopPushLighter(stack, children);
      StackPush(b, stack, children);
      stack := rest + children;
      ValidScannable(r);
      var complete := IsComplete(r);
      if complete {
        CompleteSolves(b, r);
        return Solved(r, used);
      }
    }
    return NoSolution(used);
  }
}
