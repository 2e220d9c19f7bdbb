/** The digit domain 1..9 shared by tiles and constraints (`BIGGEST_NUM`, `ALL_NUMBERS`). */
module Digits {
  import opened Lists

  const BIGGEST_NUM := 9

  /** The candidates every new tile starts with. */
  const ALL_NUMBERS: seq<int> := [1, 2, 3, 4, 5, 6, 7, 8, 9]

  predicate IsDigit(x: int) {
    1 <= x <= BIGGEST_NUM
  }

  /** A candidate list as the solver keeps it: strictly increasing digits. */
  ghost predicate DigitList(s: seq<int>) {
    Ascending(s) && forall x :: x in s ==> IsDigit(x)
  }

  /**
   * The digits of `s` from `d` upwards, in ascending order: the order the
   * model fixes for iterating a Python set of digits.
   */
  function DigitsFrom(s: set<int>, d: int): (r: seq<int>)
    ensures forall x :: x in r <==> x in s && d <= x <= BIGGEST_NUM
    decreases BIGGEST_NUM + 1 - d
  {
    if d > BIGGEST_NUM then []
    else
      (if d in s then [d] else []) + DigitsFrom(s, d + 1)
  }

  lemma {:induction false} DigitsFromAscending(s: set<int>, d: int)
    ensures Ascending(DigitsFrom(s, d))
    decreases BIGGEST_NUM + 1 - d
  {
    if d <= BIGGEST_NUM {
      var rest := DigitsFrom(s, d + 1);
      DigitsFromAscending(s, d + 1);
      if d in s {
        AscendingPrepend(d, rest);
      } else {
        assert DigitsFrom(s, d) == rest;
      }
    }
  }

  /** The order in which the model iterates a Python set of digits. */
  function InIterationOrder(s: set<int>): (r: seq<int>)
    ensures forall x :: x in r <==> x in s && IsDigit(x)
  {
    DigitsFrom(s, 1)
  }

  lemma InIterationOrderDigitList(s: set<int>)
    ensures DigitList(InIterationOrder(s))
  {
    DigitsFromAscending(s, 1);
  }

  lemma AllNumbersIsDigitList()
    ensures DigitList(ALL_NUMBERS)
  {
    assert forall i :: 0 <= i < |ALL_NUMBERS| ==> ALL_NUMBERS[i] == i + 1;
    AscendingFromPairs(ALL_NUMBERS);
  }

  /** Strictly increasing values in lo..9 number at most 10 - lo. */
  lemma {:induction false} AscendingWithinLength(s: seq<int>, lo: int)
    requires Ascending(s)
    requires forall x :: x in s ==> lo <= x <= BIGGEST_NUM
    ensures |s| <= if lo <= BIGGEST_NUM + 1 then BIGGEST_NUM + 1 - lo else 0
  {
    if s != [] {
      assert s[0] in s;
      AscendingTail(s);
      assert forall x :: x in s[1..] ==> x in s;
      AscendingWithinLength(s[1..], s[0] + 1);
    }
  }

  /** A candidate list never has more than nine entries. */
  lemma DigitListLength(s: seq<int>)
    requires DigitList(s)
    ensures |s| <= BIGGEST_NUM
  {
    AscendingWithinLength(s, 1);
  }
}
