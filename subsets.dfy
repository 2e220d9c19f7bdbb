/**
 * `Constraint.calculate_possible_subsets`: the ways to fill a run of `n` tiles
 * with distinct digits summing to `total`, each written as an ascending list.
 */
module Subsets {
  import opened Lists
  import opened Digits

  /** One way to fill `n` tiles: strictly increasing digits summing to `total`. */
  ghost predicate IsPlacement(p: seq<int>, total: int, n: int) {
    |p| == n && DigitList(p) && Sum(p) == total
  }

  function PrependAll(d: int, ps: seq<seq<int>>): (r: seq<seq<int>>)
    ensures |r| == |ps|
  {
    if ps == [] then [] else [[d] + ps[0]] + PrependAll(d, ps[1..])
  }

  lemma {:induction false} PrependAllAt(d: int, ps: seq<seq<int>>, k: int)
    requires 0 <= k < |ps|
    ensures PrependAll(d, ps)[k] == [d] + ps[k]
  {
    if k > 0 {
      PrependAllAt(d, ps[1..], k - 1);
    }
  }

  /**
   * The strictly increasing lists of `n` digits drawn from lo..9 that sum to
   * `total`, in lexicographic order.
   */
  function Combinations(total: int, n: nat, lo: int): seq<seq<int>>
    decreases n, BIGGEST_NUM + 1 - lo
  {
    if n == 0 then (if total == 0 then [[]] else [])
    else if lo > BIGGEST_NUM then []
    else PrependAll(lo, Combinations(total - lo, n - 1, lo + 1)) + Combinations(total, n, lo + 1)
  }

  /**
   * The list `calculate_possible_subsets(total, n)` returns, with its guards.
   * The source builds the general case as a Python set of tuples and lists it
   * in hash order; the model lists it in lexicographic order. `AsWritten`
   * below follows the source's recursion and has the same elements.
   */
  function PossibleSubsets(total: int, n: int): seq<seq<int>> {
    if total < n || total <= 0 || n <= 0 then []
    else if n == 1 then (if total > BIGGEST_NUM then [] else [[total]])
    else Combinations(total, n, 1)
  }

  /** Python's `sorted` on a list of integers, as an insertion sort. */
  function Sorted(s: seq<int>): seq<int> {
    if s == [] then [] else Insert(s[0], Sorted(s[1..]))
  }

  function Insert(x: int, s: seq<int>): seq<int> {
    if s == [] then [x]
    else if x <= s[0] then [x] + s
    else [s[0]] + Insert(x, s[1..])
  }

  lemma {:induction false} InsertElements(x: int, s: seq<int>)
    ensures |Insert(x, s)| == |s| + 1
    ensures multiset(Insert(x, s)) == multiset(s) + multiset{x}
  {
    if s != [] && x > s[0] {
      assert s == [s[0]] + s[1..];
      InsertElements(x, s[1..]);
    }
  }

  /**
   * The recursion of `calculate_possible_subsets` read literally: for every
   * digit `i` and every combination of the remaining `n - 1` tiles that does
   * not use `i`, the sorted list `[i] + option`, collected in a set.
   */
  ghost function AsWritten(total: int, n: int): set<seq<int>>
    decreases n, 1
  {
    if total < n || total <= 0 || n <= 0 then {}
    else if n == 1 then (if total > BIGGEST_NUM then {} else {[total]})
    else Collect(total, n, 1)
  }

  /** The source's loop over the digits `i`..9 for a run of `n >= 2` tiles. */
  ghost function Collect(total: int, n: int, i: int): set<seq<int>>
    requires n >= 2
    decreases n, 0, BIGGEST_NUM + 1 - i
  {
    if i > BIGGEST_NUM then {}
    else Extend(i, AsWritten(total - i, n - 1)) + Collect(total, n, i + 1)
  }

  /** The options that do not use `i`, each with `i` added and sorted. */
  ghost function Extend(i: int, options: set<seq<int>>): set<seq<int>> {
    set o | o in options && i !in o :: Sorted([i] + o)
  }

  // ---------------------------------------------------------------------
  // Lemmas

  lemma PrependAllMembers(d: int, ps: seq<seq<int>>, p: seq<int>)
    ensures p in PrependAll(d, ps) <==> |p| >= 1 && p[0] == d && p[1..] in ps
  {
    var r := PrependAll(d, ps);
    if p in r {
      var k :| 0 <= k < |r| && r[k] == p;
      PrependAllAt(d, ps, k);
      assert p[1..] == ps[k];
    }
    if |p| >= 1 && p[0] == d && p[1..] in ps {
      var k :| 0 <= k < |ps| && ps[k] == p[1..];
      PrependAllAt(d, ps, k);
      assert r[k] == p;
    }
  }

  /** Digits at least one each: a list's sum is at least its length. */
  lemma {:induction false} SumAtLeastLength(p: seq<int>)
    requires forall x :: x in p ==> x >= 1
    ensures Sum(p) >= |p|
  {
    if p != [] {
      assert p[0] in p;
      assert forall x :: x in p[1..] ==> x in p;
      SumAtLeastLength(p[1..]);
    }
  }

  /** `p` is one of the lists `Combinations(total, n, lo)` is meant to hold. */
  ghost predicate IsCombination(p: seq<int>, total: int, n: int, lo: int)
    decreases |p|
  {
    if |p| == 0 then n == 0 && total == 0
    else lo <= p[0] <= BIGGEST_NUM && IsCombination(p[1..], total - p[0], n - 1, p[0] + 1)
  }

  /** Such a list has `n` strictly increasing entries from lo..9 summing to `total`. */
  lemma {:induction false} CombinationMeaning(p: seq<int>, total: int, n: int, lo: int)
    ensures IsCombination(p, total, n, lo) <==>
      |p| == n && Ascending(p) && (forall x :: x in p ==> lo <= x <= BIGGEST_NUM) && Sum(p) == total
    decreases |p|
  {
    if |p| > 0 {
      var tail := p[1..];
      CombinationMeaning(tail, total - p[0], n - 1, p[0] + 1);
      assert p == [p[0]] + tail;
      assert p[0] in p;
      assert forall x :: x in p <==> x == p[0] || x in tail;
      AscendingTail(p);
    }
  }

  /**
   * A combination drawn from lo..9 either starts with `lo`, followed by a
   * combination drawn from lo+1..9, or draws nothing but lo+1..9.
   */
  lemma CombinationSplit(p: seq<int>, total: int, n: int, lo: int)
    requires |p| >= 1 && lo <= BIGGEST_NUM
    ensures IsCombination(p, total, n, lo) <==>
      (p[0] == lo && IsCombination(p[1..], total - lo, n - 1, lo + 1)) || IsCombination(p, total, n, lo + 1)
  {
  }

  /** `Combinations(total, n, lo)` lists exactly the combinations it describes. */
  lemma {:induction false} CombinationsMembers(total: int, n: nat, lo: int, p: seq<int>)
    ensures p in Combinations(total, n, lo) <==> IsCombination(p, total, n, lo)
    decreases n, BIGGEST_NUM + 1 - lo, 1
  {
    if n == 0 {
      if |p| == 0 {
        assert p == [];
      } else {
        CombinationMeaning(p, total, n, lo);
      }
    } else if lo > BIGGEST_NUM {
      if |p| >= 1 {
        assert !IsCombination(p, total, n, lo);
      }
    } else if |p| == 0 {
      if p in Combinations(total, n, lo) {
        CombinationsLength(total, n, lo, p);
      }
    } else {
      CombinationsStep(total, n, lo, p);
    }
  }

  /** The inductive step of `CombinationsMembers`. */
  lemma {:induction false} CombinationsStep(total: int, n: nat, lo: int, p: seq<int>)
    requires n > 0 && lo <= BIGGEST_NUM && |p| >= 1
    ensures p in Combinations(total, n, lo) <==> IsCombination(p, total, n, lo)
    decreases n, BIGGEST_NUM + 1 - lo, 0
  {
    var tail := p[1..];
    CombinationsMembers(total, n, lo + 1, p);
    CombinationsMembers(total - lo, n - 1, lo + 1, tail);
    CombinationSplit(p, total, n, lo);
    CombinationsUnfold(total, n, lo, p);
    var inTail := tail in Combinations(total - lo, n - 1, lo + 1);
    var inRest := p in Combinations(total, n, lo + 1);
    assert inTail == IsCombination(tail, total - lo, n - 1, lo + 1);
    assert inRest == IsCombination(p, total, n, lo + 1);
    assert p in Combinations(total, n, lo) <==> (p[0] == lo && inTail) || inRest;
  }

  /** A list in `Combinations(total, n, lo)` starts with `lo` or is listed for lo+1..9. */
  lemma CombinationsUnfold(total: int, n: nat, lo: int, p: seq<int>)
    requires n >= 1 && lo <= BIGGEST_NUM
    ensures p in Combinations(total, n, lo) <==>
      (|p| >= 1 && p[0] == lo && p[1..] in Combinations(total - lo, n - 1, lo + 1)) || p in Combinations(total, n, lo + 1)
  {
    PrependAllMembers(lo, Combinations(total - lo, n - 1, lo + 1), p);
  }

  /** Every combination listed has `n` entries, the first at least `lo`. */
  lemma {:induction false} CombinationsHead(total: int, n: nat, lo: int, p: seq<int>)
    requires n >= 1 && p in Combinations(total, n, lo)
    ensures |p| == n && p[0] >= lo
    decreases BIGGEST_NUM + 1 - lo
  {
    var first := Combinations(total - lo, n - 1, lo + 1);
    PrependAllMembers(lo, first, p);
    if p !in PrependAll(lo, first) {
      CombinationsHead(total, n, lo + 1, p);
    } else {
      var k :| 0 <= k < |first| && PrependAll(lo, first)[k] == p;
      PrependAllAt(lo, first, k);
      CombinationsLength(total - lo, n - 1, lo + 1, first[k]);
    }
  }

  lemma {:induction false} CombinationsLength(total: int, n: nat, lo: int, p: seq<int>)
    requires p in Combinations(total, n, lo)
    ensures |p| == n
    decreases n, BIGGEST_NUM + 1 - lo
  {
    if n > 0 {
      var first := Combinations(total - lo, n - 1, lo + 1);
      PrependAllMembers(lo, first, p);
      if p in PrependAll(lo, first) {
        CombinationsLength(total - lo, n - 1, lo + 1, p[1..]);
      } else {
        CombinationsLength(total, n, lo + 1, p);
      }
    }
  }

  lemma {:induction false} PrependAllDistinct(d: int, ps: seq<seq<int>>)
    requires Distinct(ps)
    ensures Distinct(PrependAll(d, ps))
  {
    var r := PrependAll(d, ps);
    forall i, j | 0 <= i < j < |r| ensures r[i] != r[j] {
      PrependAllAt(d, ps, i);
      PrependAllAt(d, ps, j);
      assert r[i][1..] == ps[i] && r[j][1..] == ps[j];
    }
  }

  /** Every combination is listed once. */
  lemma {:induction false} CombinationsDistinct(total: int, n: nat, lo: int)
    ensures Distinct(Combinations(total, n, lo))
    decreases n, BIGGEST_NUM + 1 - lo
  {
    if n > 0 && lo <= BIGGEST_NUM {
      var tails := Combinations(total - lo, n - 1, lo + 1);
      var rest := Combinations(total, n, lo + 1);
      CombinationsDistinct(total - lo, n - 1, lo + 1);
      CombinationsDistinct(total, n, lo + 1);
      PrependAllDistinct(lo, tails);
      forall p | p in PrependAll(lo, tails) ensures p !in rest {
        PrependAllMembers(lo, tails, p);
        if p in rest {
          CombinationsHead(total, n, lo + 1, p);
        }
      }
      DistinctConcat(PrependAll(lo, tails), rest);
    }
  }

  /**
   * `calculate_possible_subsets(total, n)` returns nothing unless `n` is
   * positive, and then every strictly increasing list of `n` digits summing to
   * `total`, each exactly once ([5, 5] is not one, nor is [10]).
   */
  lemma PossibleSubsetsExact(total: int, n: int)
    ensures n <= 0 ==> PossibleSubsets(total, n) == []
    ensures n >= 1 ==> forall p :: p in PossibleSubsets(total, n) <==> IsPlacement(p, total, n)
    ensures Distinct(PossibleSubsets(total, n))
  {
    if n >= 1 {
      forall p ensures p in PossibleSubsets(total, n) <==> IsPlacement(p, total, n) {
        CombinationsMembers(total, n, 1, p);
        CombinationMeaning(p, total, n, 1);
        if IsPlacement(p, total, n) {
          SumAtLeastLength(p);
        }
        if n == 1 && |p| == 1 {
          assert p == [p[0]];
          assert p[0] in p;
        }
      }
      CombinationsDistinct(total, n, 1);
    }
  }

  // The source's recursion

  lemma {:induction false} InsertAscending(x: int, s: seq<int>)
    requires Ascending(s) && x !in s
    ensures Ascending(Insert(x, s))
  {
    if s != [] && x > s[0] {
      assert s == [s[0]] + s[1..];
      AscendingTail(s);
      InsertAscending(x, s[1..]);
      InsertElements(x, s[1..]);
      var t := Insert(x, s[1..]);
      forall y | y in t ensures s[0] < y {
        assert y in multiset(t);
        if y != x {
          assert y in multiset(s[1..]);
          assert y in s[1..];
        }
      }
      assert ([s[0]] + t)[1..] == t;
      AscendingTail([s[0]] + t);
    } else if s != [] {
      forall y | y in s ensures x < y {
        if y != s[0] {
          assert y in s[1..];
        }
      }
      assert ([x] + s)[1..] == s;
      AscendingTail([x] + s);
    }
  }

  lemma {:induction false} SumInsert(x: int, s: seq<int>)
    ensures Sum(Insert(x, s)) == x + Sum(s)
  {
    if s != [] && x > s[0] {
      SumInsert(x, s[1..]);
    }
  }

  /** Adding an unused digit to a placement of `n - 1` tiles gives one of `n` tiles. */
  lemma InsertPlacement(i: int, o: seq<int>, total: int, n: int)
    requires IsDigit(i) && i !in o && IsPlacement(o, total - i, n - 1)
    ensures IsPlacement(Insert(i, o), total, n)
  {
    InsertAscending(i, o);
    InsertElements(i, o);
    SumInsert(i, o);
    forall x | x in Insert(i, o) ensures IsDigit(x) {
      assert x in multiset(Insert(i, o));
    }
  }

  lemma SortedAscending(s: seq<int>)
    requires Ascending(s)
    ensures Sorted(s) == s
  {
    if s != [] {
      AscendingTail(s);
      SortedAscending(s[1..]);
      if |s| > 1 {
        assert s[1..][0] in s[1..];
      }
      assert [s[0]] + s[1..] == s;
    }
  }

  lemma SortedCons(i: int, o: seq<int>)
    requires Ascending(o)
    ensures Sorted([i] + o) == Insert(i, o)
  {
    assert ([i] + o)[1..] == o;
    SortedAscending(o);
  }

  /** `p` is collected at digit `j` of the source's loop. */
  ghost predicate CollectedAt(total: int, n: int, j: int, p: seq<int>) {
    p in Extend(j, AsWritten(total - j, n - 1))
  }

  lemma {:induction false} CollectMembers(total: int, n: int, i: int, p: seq<int>)
    requires n >= 2
    ensures p in Collect(total, n, i) <==> exists j :: i <= j <= BIGGEST_NUM && CollectedAt(total, n, j, p)
    decreases BIGGEST_NUM + 1 - i
  {
    if i <= BIGGEST_NUM {
      var here := Extend(i, AsWritten(total - i, n - 1));
      assert Collect(total, n, i) == here + Collect(total, n, i + 1);
      CollectMembers(total, n, i + 1, p);
      if p in here {
        assert CollectedAt(total, n, i, p);
      } else if p in Collect(total, n, i + 1) {
        var j :| i + 1 <= j <= BIGGEST_NUM && CollectedAt(total, n, j, p);
        assert i <= j;
      }
      if exists j :: i <= j <= BIGGEST_NUM && CollectedAt(total, n, j, p) {
        var j :| i <= j <= BIGGEST_NUM && CollectedAt(total, n, j, p);
        if j == i {
          assert p in here;
        } else {
          assert i + 1 <= j;
        }
      }
    }
  }

  /** Whatever the source's recursion collects is a placement. */
  lemma {:induction false} AsWrittenSound(total: int, n: int, p: seq<int>)
    requires n >= 1 && p in AsWritten(total, n)
    ensures IsPlacement(p, total, n)
    decreases n
  {
    if n == 1 {
      assert p == [total];
    } else {
      CollectMembers(total, n, 1, p);
      var i :| 1 <= i <= BIGGEST_NUM && CollectedAt(total, n, i, p);
      var o :| o in AsWritten(total - i, n - 1) && i !in o && p == Sorted([i] + o);
      AsWrittenSound(total - i, n - 1, o);
      SortedCons(i, o);
      InsertPlacement(i, o, total, n);
    }
  }

  /** The source's recursion collects every placement. */
  lemma {:induction false} AsWrittenComplete(total: int, n: int, p: seq<int>)
    requires n >= 1 && IsPlacement(p, total, n)
    ensures p in AsWritten(total, n)
    decreases n
  {
    SumAtLeastLength(p);
    if n == 1 {
      assert p == [p[0]];
      assert p[0] in p;
    } else {
      var i, o := p[0], p[1..];
      assert p == [i] + o;
      assert i in p;
      AscendingTail(p);
      assert forall x :: x in o ==> x in p;
      assert IsPlacement(o, total - i, n - 1);
      AsWrittenComplete(total - i, n - 1, o);
      SortedCons(i, o);
      if o != [] {
        assert o[0] in o;
      }
      assert Insert(i, o) == p;
      assert CollectedAt(total, n, i, p);
      CollectMembers(total, n, 1, p);
    }
  }

  /**
   * The source's recursion produces exactly the placements: the
   * deduplicating set loses nothing and admits nothing else.
   */
  lemma AsWrittenIsPlacements(total: int, n: int, p: seq<int>)
    requires n >= 1
    ensures p in AsWritten(total, n) <==> IsPlacement(p, total, n)
  {
    if p in AsWritten(total, n) {
      AsWrittenSound(total, n, p);
    }
    if IsPlacement(p, total, n) {
      AsWrittenComplete(total, n, p);
    }
  }

  /** The modelled list and the source's recursion hold the same combinations. */
  lemma PossibleSubsetsMatchesSource(total: int, n: int)
    ensures forall p :: p in PossibleSubsets(total, n) <==> p in AsWritten(total, n)
  {
    PossibleSubsetsExact(total, n);
    if n >= 1 {
      forall p ensures p in AsWritten(total, n) <==> IsPlacement(p, total, n) {
        AsWrittenIsPlacements(total, n, p);
      }
    }
  }
}
