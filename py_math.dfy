/** The Python numeric built-ins the scripts rely on, over exact numbers:
    `round` (round half to even) and `statistics.mean`. */
module PyMath {

  /** Python 3's `round(v)`: the nearest integer, ties going to the even
      neighbour. */
  function RoundHalfEven(v: real): (r: int)
    ensures -0.5 <= v - (r as real) <= 0.5
    ensures (v - (r as real) == 0.5 || v - (r as real) == -0.5) ==> r % 2 == 0
  {
    var f := v.Floor;
    var frac := v - (f as real);
    if frac < 0.5 then f
    else if frac > 0.5 then f + 1
    else if f % 2 == 0 then f
    else f + 1
  }

  /** Rounding keeps a value between two integers between them. */
  lemma RoundHalfEvenBetween(v: real, lo: int, hi: int)
    requires (lo as real) <= v <= (hi as real)
    ensures lo <= RoundHalfEven(v) <= hi
  {
  }

  function IntSum(xs: seq<int>): int
  {
    if |xs| == 0 then 0 else IntSum(xs[..|xs| - 1]) + xs[|xs| - 1]
  }

  /** `statistics.mean` of integers, exactly. */
  function Mean(xs: seq<int>): real
    requires |xs| > 0
  {
    (IntSum(xs) as real) / (|xs| as real)
  }

  /** The largest entry (Python's `max`). */
  function MaxOf(xs: seq<int>): (m: int)
    requires |xs| > 0
    ensures m in xs
    ensures forall i :: 0 <= i < |xs| ==> xs[i] <= m
  {
    if |xs| == 1 then xs[0]
    else
      var m := MaxOf(xs[..|xs| - 1]);
      if xs[|xs| - 1] > m then xs[|xs| - 1] else m
  }

  /** The mean of one value is that value. */
  lemma MeanOfOne(x: int)
    ensures Mean([x]) == x as real
  {
    assert [x][..0] == [];
    assert IntSum([x]) == x;
  }

  /** The mean lies between the smallest and the largest entry. */
  lemma {:induction false} MeanBounds(xs: seq<int>, lo: int, hi: int)
    requires |xs| > 0
    requires forall i :: 0 <= i < |xs| ==> lo <= xs[i] <= hi
    ensures (lo as real) <= Mean(xs) <= (hi as real)
  {
    SumBounds(xs, lo, hi);
    var n := |xs| as real;
    var s := IntSum(xs) as real;
    assert n * (lo as real) <= s <= n * (hi as real);
    assert s / n >= (lo as real) by {
      assert s / n * n == s;
    }
    assert s / n <= (hi as real) by {
      assert s / n * n == s;
    }
  }

  lemma {:induction false} SumBounds(xs: seq<int>, lo: int, hi: int)
    requires forall i :: 0 <= i < |xs| ==> lo <= xs[i] <= hi
    ensures |xs| * lo <= IntSum(xs) <= |xs| * hi
  {
    if |xs| > 0 {
      SumBounds(xs[..|xs| - 1], lo, hi);
      assert |xs| * lo == (|xs| - 1) * lo + lo;
      assert |xs| * hi == (|xs| - 1) * hi + hi;
    }
  }

  /** `sorted(s, key=key, reverse=True)`: a stable sort, largest key first,
      with elements of equal key kept in their original order. */
  function SortDescending<T>(s: seq<T>, key: T -> int): (r: seq<T>)
    ensures |r| == |s|
  {
    if |s| == 0 then [] else Insert(s[0], SortDescending(s[1..], key), key)
  }

  /** Puts `x` in front of the first element whose key does not exceed
      its own. */
  function Insert<T>(x: T, t: seq<T>, key: T -> int): (r: seq<T>)
    ensures |r| == |t| + 1
  {
    if |t| == 0 || key(t[0]) <= key(x) then [x] + t else [t[0]] + Insert(x, t[1..], key)
  }

  predicate Descending<T>(s: seq<T>, key: T -> int)
  {
    forall i, j :: 0 <= i < j < |s| ==> key(s[i]) >= key(s[j])
  }

  lemma {:induction false} InsertPermutes<T>(x: T, t: seq<T>, key: T -> int)
    ensures multiset(Insert(x, t, key)) == multiset(t) + multiset{x}
  {
    if |t| > 0 && key(t[0]) > key(x) {
      InsertPermutes(x, t[1..], key);
      assert t == [t[0]] + t[1..];
    }
  }

  lemma {:induction false} InsertKeepsOrder<T>(x: T, t: seq<T>, key: T -> int)
    requires Descending(t, key)
    ensures Descending(Insert(x, t, key), key)
  {
    if |t| > 0 && key(t[0]) > key(x) {
      InsertKeepsOrder(x, t[1..], key);
      InsertPermutes(x, t[1..], key);
      var rest := Insert(x, t[1..], key);
      forall j | 0 <= j < |rest|
        ensures key(t[0]) >= key(rest[j])
      {
        assert rest[j] in multiset(t[1..]) + multiset{x} by {
          assert rest[j] in multiset(rest);
        }
        if rest[j] != x {
          var k :| 0 <= k < |t[1..]| && t[1..][k] == rest[j];
          assert t[1 + k] == rest[j];
        }
      }
    }
  }

  /** The sort returns a descending permutation of its input. */
  lemma {:induction false} SortDescendingCorrect<T>(s: seq<T>, key: T -> int)
    ensures Descending(SortDescending(s, key), key)
    ensures multiset(SortDescending(s, key)) == multiset(s)
  {
    if |s| > 0 {
      SortDescendingCorrect(s[1..], key);
      InsertKeepsOrder(s[0], SortDescending(s[1..], key), key);
      InsertPermutes(s[0], SortDescending(s[1..], key), key);
      assert s == [s[0]] + s[1..];
    }
  }

  /** The index of the first element of largest key. */
  function FirstMaxIndex<T>(s: seq<T>, key: T -> int): (i: nat)
    requires |s| > 0
    ensures i < |s|
    ensures forall j :: 0 <= j < |s| ==> key(s[j]) <= key(s[i])
    ensures forall j :: 0 <= j < i ==> key(s[j]) < key(s[i])
  {
    if |s| == 1 then 0
    else
      var i := FirstMaxIndex(s[1..], key);
      assert forall j :: 1 <= j < |s| ==> s[j] == s[1..][j - 1];
      if key(s[0]) >= key(s[1 + i]) then 0 else 1 + i
  }

  /** Because the sort is stable, its first element is the earliest
      element of largest key. */
  lemma {:induction false} SortDescendingHead<T>(s: seq<T>, key: T -> int)
    requires |s| > 0
    ensures SortDescending(s, key)[0] == s[FirstMaxIndex(s, key)]
  {
    if |s| > 1 {
      SortDescendingHead(s[1..], key);
    }
  }
}
