/** Sequence operations standing for the Python list behaviour the solver relies on. */
module Lists {

  /** No element occurs twice. */
  ghost predicate Distinct<T>(s: seq<T>) {
    forall i, j :: 0 <= i < j < |s| ==> s[i] != s[j]
  }

  /** Strictly increasing: every entry is below all the entries after it. */
  ghost predicate Ascending(s: seq<int>) {
    |s| <= 1 || ((forall x :: x in s[1..] ==> s[0] < x) && Ascending(s[1..]))
  }

  lemma AscendingTail(p: seq<int>)
    requires |p| >= 1
    ensures Ascending(p) <==> Ascending(p[1..]) && forall x :: x in p[1..] ==> p[0] < x
  {
  }

  /** The pairwise reading of `Ascending`. */
  lemma {:induction false} AscendingAt(s: seq<int>, i: int, j: int)
    requires Ascending(s) && 0 <= i < j < |s|
    ensures s[i] < s[j]
  {
    if i == 0 {
      assert s[j] == s[1..][j - 1] && s[1..][j - 1] in s[1..];
    } else {
      AscendingAt(s[1..], i - 1, j - 1);
    }
  }

  lemma AscendingPrepend(x: int, s: seq<int>)
    requires Ascending(s) && forall y :: y in s ==> x < y
    ensures Ascending([x] + s)
  {
    assert ([x] + s)[1..] == s;
    AscendingTail([x] + s);
  }

  /** The pairwise reading implies `Ascending`. */
  lemma {:induction false} AscendingFromPairs(s: seq<int>)
    requires forall i, j :: 0 <= i < j < |s| ==> s[i] < s[j]
    ensures Ascending(s)
  {
    if |s| > 1 {
      forall x | x in s[1..] ensures s[0] < x {
        var j :| 0 <= j < |s[1..]| && s[1..][j] == x;
        assert s[j + 1] == x;
      }
      AscendingFromPairs(s[1..]);
    }
  }

  lemma {:induction false} AscendingAppend(s: seq<int>, x: int)
    requires Ascending(s) && forall y :: y in s ==> y < x
    ensures Ascending(s + [x])
  {
    if |s| > 0 {
      assert (s + [x])[1..] == s[1..] + [x];
      assert s[0] in s;
      assert forall y :: y in s[1..] ==> y in s;
      AscendingAppend(s[1..], x);
    }
  }

  /** Two strictly increasing lists with the same elements are the same list. */
  lemma {:induction false} AscendingSameMembers(s: seq<int>, t: seq<int>)
    requires Ascending(s) && Ascending(t)
    requires forall x :: x in s <==> x in t
    ensures s == t
  {
    if s != [] {
      var a := s[0];
      assert a in s;
    }
    if t != [] {
      var a := t[0];
      assert a in t;
    }
    if s != [] && t != [] {
      AscendingTail(s);
      AscendingTail(t);
      var a, b, s1, t1 := s[0], t[0], s[1..], t[1..];
      assert a in t && b in s;
      assert b == a || b in s1;
      assert a == b || a in t1;
      forall x ensures x in s[1..] <==> x in t[1..] {
        assert x in s <==> x == s[0] || x in s[1..];
        assert x in t <==> x == t[0] || x in t[1..];
      }
      AscendingSameMembers(s[1..], t[1..]);
      assert s == [s[0]] + s[1..] && t == [t[0]] + t[1..];
    }
  }

  lemma DistinctConcat<T>(s: seq<T>, t: seq<T>)
    requires Distinct(s) && Distinct(t) && forall x :: x in s ==> x !in t
    ensures Distinct(s + t)
  {
    forall i, j | 0 <= i < j < |s + t| ensures (s + t)[i] != (s + t)[j] {
      if i < |s| <= j {
        assert (s + t)[i] == s[i] && s[i] in s;
        assert (s + t)[j] == t[j - |s|];
      }
    }
  }

  /** Python's built-in `sum` over a list of integers. */
  function Sum(s: seq<int>): int {
    if s == [] then 0 else s[0] + Sum(s[1..])
  }

  lemma {:induction false} SumAppend(s: seq<int>, x: int)
    ensures Sum(s + [x]) == Sum(s) + x
  {
    if s != [] {
      assert (s + [x])[1..] == s[1..] + [x];
      SumAppend(s[1..], x);
    }
  }

  /** The set of the elements of `s` (Python's `set(list)`). */
  function Elements<T>(s: seq<T>): set<T> {
    set x | x in s
  }

  lemma ElementsAppend<T>(s: seq<T>, t: seq<T>)
    ensures Elements(s + t) == Elements(s) + Elements(t)
  {
  }

  /** Python's `list.remove(x)`: drops the first element equal to `x`. */
  function RemoveFirst<T(==)>(s: seq<T>, x: T): (r: seq<T>)
    requires x in s
    ensures |r| == |s| - 1
    ensures multiset(r) == multiset(s) - multiset{x}
  {
    assert s == [s[0]] + s[1..];
    if s[0] == x then s[1..]
    else [s[0]] + RemoveFirst(s[1..], x)
  }

  /**
   * A Python `for` loop over the list `s` that removes the current element
   * whenever `drop` holds of it, started at index `i`. The loop's index still
   * advances after a removal, so the element that slides into the removed
   * element's place is never examined.
   */
  function SkipRemove<T(==)>(s: seq<T>, i: nat, drop: T -> bool): seq<T>
    decreases |s| - i
  {
    if i >= |s| then s
    else if drop(s[i]) then SkipRemove(RemoveFirst(s, s[i]), i + 1, drop)
    else SkipRemove(s, i + 1, drop)
  }

  lemma {:induction false} RemoveFirstElements<T>(s: seq<T>, x: T, y: T)
    requires x in s
    ensures y in RemoveFirst(s, x) ==> y in s
    ensures y in s && y != x ==> y in RemoveFirst(s, x)
  {
    var r := RemoveFirst(s, x);
    assert multiset(r) == multiset(s) - multiset{x};
    assert y in r <==> y in multiset(r);
    assert y in s <==> y in multiset(s);
  }

  lemma {:induction false} RemoveFirstAscending(s: seq<int>, x: int)
    requires x in s
    ensures Ascending(s) ==> Ascending(RemoveFirst(s, x))
  {
    if Ascending(s) && s[0] != x {
      var t := RemoveFirst(s[1..], x);
      RemoveFirstAscending(s[1..], x);
      forall j | 0 <= j < |t| ensures s[0] < t[j] {
        RemoveFirstElements(s[1..], x, t[j]);
      }
    }
  }

  lemma {:induction false} RemoveFirstDistinct<T>(s: seq<T>, x: T)
    requires x in s
    ensures Distinct(s) ==> Distinct(RemoveFirst(s, x)) && x !in RemoveFirst(s, x)
  {
    if Distinct(s) && s[0] != x {
      var t := RemoveFirst(s[1..], x);
      RemoveFirstDistinct(s[1..], x);
      forall j | 0 <= j < |t| ensures s[0] != t[j] {
        RemoveFirstElements(s[1..], x, t[j]);
      }
    }
  }

  /**
   * The skipping loop removes nothing but elements `drop` holds of, and keeps
   * every copy of every element it does not hold of.
   */
  lemma {:induction false} SkipRemoveDropsOnly<T>(s: seq<T>, i: nat, drop: T -> bool)
    ensures multiset(SkipRemove(s, i, drop)) <= multiset(s)
    ensures forall x :: !drop(x) ==> multiset(SkipRemove(s, i, drop))[x] == multiset(s)[x]
    ensures forall x :: x in multiset(s) - multiset(SkipRemove(s, i, drop)) ==> drop(x)
    decreases |s| - i
  {
    if i < |s| {
      if drop(s[i]) {
        SkipRemoveDropsOnly(RemoveFirst(s, s[i]), i + 1, drop);
      } else {
        SkipRemoveDropsOnly(s, i + 1, drop);
      }
    }
  }

  lemma {:induction false} SkipRemoveAscending(s: seq<int>, i: nat, drop: int -> bool)
    requires Ascending(s)
    ensures Ascending(SkipRemove(s, i, drop))
    decreases |s| - i
  {
    if i < |s| {
      if drop(s[i]) {
        RemoveFirstAscending(s, s[i]);
        SkipRemoveAscending(RemoveFirst(s, s[i]), i + 1, drop);
      } else {
        SkipRemoveAscending(s, i + 1, drop);
      }
    }
  }

  lemma {:induction false} SkipRemoveDistinct<T>(s: seq<T>, i: nat, drop: T -> bool)
    requires Distinct(s)
    ensures Distinct(SkipRemove(s, i, drop))
    decreases |s| - i
  {
    if i < |s| {
      if drop(s[i]) {
        RemoveFirstDistinct(s, s[i]);
        SkipRemoveDistinct(RemoveFirst(s, s[i]), i + 1, drop);
      } else {
        SkipRemoveDistinct(s, i + 1, drop);
      }
    }
  }

  /** Every element of the result was an element of the input. */
  lemma SkipRemoveSubset<T>(s: seq<T>, i: nat, drop: T -> bool, x: T)
    ensures x in SkipRemove(s, i, drop) ==> x in s
    ensures x in s && !drop(x) ==> x in SkipRemove(s, i, drop)
  {
    SkipRemoveDropsOnly(s, i, drop);
    assert x in SkipRemove(s, i, drop) <==> x in multiset(SkipRemove(s, i, drop));
    assert x in s <==> x in multiset(s);
  }

  /** A list may have fewer distinct elements than entries, never more. */
  lemma {:induction false} ElementsAtMostLength<T>(s: seq<T>)
    ensures |Elements(s)| <= |s|
  {
    if s != [] {
      ElementsAtMostLength(s[1..]);
      assert Elements(s) == {s[0]} + Elements(s[1..]);
    }
  }

  /** `list.remove` takes out the first occurrence, wherever it is. */
  lemma {:induction false} RemoveFirstAt<T>(s: seq<T>, i: nat)
    requires i < |s| && s[i] !in s[..i]
    ensures RemoveFirst(s, s[i]) == s[..i] + s[i + 1..]
  {
    if i > 0 {
      var t, x := s[1..], s[i];
      assert s[..i] == [s[0]] + t[..i - 1];
      assert s[..i][0] == s[0];
      assert t[i - 1] == x && s[0] != x;
      assert t[..i - 1] == s[..i][1..];
      RemoveFirstAt(t, i - 1);
      assert RemoveFirst(s, x) == [s[0]] + RemoveFirst(t, x);
      assert s[i + 1..] == t[i..];
    }
  }

  lemma DistinctNotBefore<T>(s: seq<T>, i: nat)
    requires Distinct(s) && i < |s|
    ensures s[i] !in s[..i]
  {
    forall k | 0 <= k < i ensures s[..i][k] != s[i] {
      assert s[..i][k] == s[k];
    }
  }

  /** In a list without repeats, the skipping loop never removes an entry it has passed. */
  lemma {:induction false} SkipRemoveKeepsPassed<T>(s: seq<T>, i: nat, drop: T -> bool)
    requires Distinct(s) && i <= |s|
    ensures i <= |SkipRemove(s, i, drop)| && SkipRemove(s, i, drop)[..i] == s[..i]
    decreases |s| - i
  {
    if i < |s| {
      if drop(s[i]) {
        var t := RemoveFirst(s, s[i]);
        DistinctNotBefore(s, i);
        RemoveFirstAt(s, i);
        RemoveFirstDistinct(s, s[i]);
        if i + 1 <= |t| {
          SkipRemoveKeepsPassed(t, i + 1, drop);
          PrefixShorter(SkipRemove(t, i + 1, drop), t, i);
        }
      } else {
        SkipRemoveKeepsPassed(s, i + 1, drop);
        PrefixShorter(SkipRemove(s, i + 1, drop), s, i);
      }
    }
  }

  /** Sequences that agree on their first `i + 1` entries agree on their first `i`. */
  lemma PrefixShorter<T>(a: seq<T>, b: seq<T>, i: nat)
    requires i + 1 <= |a| && i + 1 <= |b| && a[..i + 1] == b[..i + 1]
    ensures a[..i] == b[..i]
  {
    assert a[..i] == a[..i + 1][..i];
    assert b[..i] == b[..i + 1][..i];
  }

  /**
   * The skip itself: when the entry at position `i` is removed, the entry that
   * followed it survives the loop whether or not `drop` holds of it.
   */
  lemma SkipRemoveSkipsNext<T>(s: seq<T>, i: nat, drop: T -> bool)
    requires Distinct(s) && i + 1 < |s| && drop(s[i])
    ensures s[i + 1] in SkipRemove(s, i, drop)
    ensures s[i] !in SkipRemove(s, i, drop)
  {
    var t := RemoveFirst(s, s[i]);
    DistinctNotBefore(s, i);
    RemoveFirstAt(s, i);
    RemoveFirstDistinct(s, s[i]);
    assert t[i] == s[i + 1];
    SkipRemoveKeepsPassed(t, i + 1, drop);
    var r := SkipRemove(t, i + 1, drop);
    assert r[..i + 1][i] == t[..i + 1][i];
    SkipRemoveSubset(t, i + 1, drop, s[i]);
  }
}
