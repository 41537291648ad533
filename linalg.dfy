/** Dense vectors and matrices over exact reals, the numpy operations the two
    Gaussian-process predictors use (`sum`, `np.dot`, `np.average`,
    `np.argmax`), and `itertools.product`. */
module Linalg {

  type Vector = seq<real>
  type Matrix = seq<seq<real>>

  /** `m` has `rows` rows of `cols` entries each. */
  ghost predicate IsMatrix(m: Matrix, rows: nat, cols: nat)
  {
    |m| == rows && forall i :: 0 <= i < rows ==> |m[i]| == cols
  }

  /** Sum of the entries, accumulated from the front as Python's `sum` does. */
  function Sum(v: Vector): real
  {
    if |v| == 0 then 0.0 else Sum(v[..|v| - 1]) + v[|v| - 1]
  }

  /** Inner product (`np.dot` of two vectors). */
  function Dot(u: Vector, v: Vector): real
    requires |u| == |v|
  {
    if |u| == 0 then 0.0 else Dot(u[..|u| - 1], v[..|v| - 1]) + u[|u| - 1] * v[|v| - 1]
  }

  /** Arithmetic mean (`np.average` with no weights). */
  function Average(v: Vector): real
    requires |v| > 0
  {
    Sum(v) / (|v| as real)
  }

  /** Column `j` of `m`. */
  function Column(m: Matrix, j: nat): (c: Vector)
    requires forall i :: 0 <= i < |m| ==> j < |m[i]|
    ensures |c| == |m| && forall i :: 0 <= i < |m| ==> c[i] == m[i][j]
  {
    seq(|m|, i requires 0 <= i < |m| => m[i][j])
  }

  /** Every entry of `v` shifted by `-c` (numpy's `v - c`). */
  function Centre(v: Vector, c: real): (r: Vector)
    ensures |r| == |v| && forall i :: 0 <= i < |v| ==> r[i] == v[i] - c
  {
    seq(|v|, i requires 0 <= i < |v| => v[i] - c)
  }

  /** The vector of `n` copies of `c`. */
  function Constant(n: nat, c: real): (r: Vector)
    ensures |r| == n && forall i :: 0 <= i < n ==> r[i] == c
  {
    seq(n, i => c)
  }

  /** `w` solves the linear system `k · w == b` column by column: it is what
      `np.dot(np.linalg.inv(k), b)` computes when `k` is invertible. */
  ghost predicate Solves(k: Matrix, w: Matrix, b: Matrix)
  {
    && IsMatrix(k, |k|, |k|)
    && IsMatrix(w, |k|, if |w| == 0 then 0 else |w[0]|)
    && IsMatrix(b, |k|, if |w| == 0 then 0 else |w[0]|)
    && forall i, j :: 0 <= i < |k| && 0 <= j < |b[i]| ==> Dot(k[i], Column(w, j)) == b[i][j]
  }

  lemma {:induction false} SumOfConstant(n: nat, c: real)
    ensures Sum(Constant(n, c)) == (n as real) * c
  {
    if n > 0 {
      assert Constant(n, c)[..n - 1] == Constant(n - 1, c);
      SumOfConstant(n - 1, c);
    }
  }

  /** `np.dot` is linear: shifting every entry of `v` by `-c` lowers the
      product by `c` times the sum of the weights. */
  lemma DotCentre(w: Vector, v: Vector, c: real)
    requires |w| == |v|
    ensures Dot(w, Centre(v, c)) == Dot(w, v) - c * Sum(w)
  {
    DotCentreSplit(w, v, c);
    DotConstant(w, c);
  }

  /** Weighing the centred vector and weighing the shift add up to weighing
      `v` itself. */
  lemma {:induction false} DotCentreSplit(w: Vector, v: Vector, c: real)
    requires |w| == |v|
    ensures Dot(w, Centre(v, c)) + Dot(w, Constant(|w|, c)) == Dot(w, v)
    decreases |w|
  {
    if |w| > 0 {
      var n := |w| - 1;
      assert Centre(v, c)[..n] == Centre(v[..n], c);
      assert Constant(|w|, c)[..n] == Constant(n, c);
      DotCentreSplit(w[..n], v[..n], c);
      SplitProduct(w[n], v[n], c);
    }
  }

  lemma SplitProduct(x: real, y: real, c: real)
    ensures x * (y - c) + x * c == x * y
  {
  }

  /** Zero weights give a zero product, whatever they weigh. */
  lemma {:induction false} DotZeroWeights(w: Vector, v: Vector)
    requires |w| == |v|
    requires forall i :: 0 <= i < |w| ==> w[i] == 0.0
    ensures Dot(w, v) == 0.0
  {
    if |w| > 0 {
      DotZeroWeights(w[..|w| - 1], v[..|v| - 1]);
    }
  }

  /** Weighing a constant vector is scaling the sum of the weights. */
  lemma {:induction false} DotConstant(w: Vector, c: real)
    ensures Dot(w, Constant(|w|, c)) == c * Sum(w)
  {
    if |w| > 0 {
      var n := |w| - 1;
      assert Constant(|w|, c)[..n] == Constant(n, c);
      DotConstant(w[..n], c);
    }
  }

  /** The index `np.argmax` returns: the FIRST position holding the largest
      entry. */
  function FirstArgmax(s: Vector): (k: nat)
    requires |s| > 0
    ensures k < |s|
    ensures forall j :: 0 <= j < |s| ==> s[j] <= s[k]
    ensures forall j :: 0 <= j < k ==> s[j] < s[k]
  {
    if |s| == 1 then 0
    else
      var k := FirstArgmax(s[..|s| - 1]);
      if s[|s| - 1] > s[k] then |s| - 1 else k
  }

  /** The product of the lengths of `lists`. */
  function LengthProduct<T>(lists: seq<seq<T>>): nat
  {
    if |lists| == 0 then 1 else |lists[0]| * LengthProduct(lists[1..])
  }

  /** `[h] + t` for every `t` of `tails`, in order. */
  function PrefixAll<T>(h: T, tails: seq<seq<T>>): (r: seq<seq<T>>)
    ensures |r| == |tails| && forall i :: 0 <= i < |tails| ==> r[i] == [h] + tails[i]
  {
    seq(|tails|, i requires 0 <= i < |tails| => [h] + tails[i])
  }

  /** Every head followed by every tail, heads varying slowest. */
  function Combine<T>(heads: seq<T>, tails: seq<seq<T>>): seq<seq<T>>
  {
    if |heads| == 0 then [] else PrefixAll(heads[0], tails) + Combine(heads[1..], tails)
  }

  /** `list(itertools.product(*lists))`: the Cartesian product in
      lexicographic order, the last list varying fastest. */
  function Product<T>(lists: seq<seq<T>>): seq<seq<T>>
  {
    if |lists| == 0 then [[]] else Combine(lists[0], Product(lists[1..]))
  }

  lemma {:induction false} CombineAt<T>(heads: seq<T>, tails: seq<seq<T>>, a: nat, b: nat)
    requires a < |heads| && b < |tails|
    ensures |Combine(heads, tails)| == |heads| * |tails|
    ensures a * |tails| + b < |Combine(heads, tails)|
    ensures Combine(heads, tails)[a * |tails| + b] == [heads[a]] + tails[b]
  {
    CombineLength(heads, tails);
    if a > 0 {
      CombineAt(heads[1..], tails, a - 1, b);
      assert a * |tails| + b == |tails| + ((a - 1) * |tails| + b);
    }
  }

  lemma {:induction false} CombineLength<T>(heads: seq<T>, tails: seq<seq<T>>)
    ensures |Combine(heads, tails)| == |heads| * |tails|
  {
    if |heads| > 0 {
      CombineLength(heads[1..], tails);
      assert |heads| * |tails| == |tails| + (|heads| - 1) * |tails|;
    }
  }

  lemma {:induction false} CombineMember<T>(heads: seq<T>, tails: seq<seq<T>>, k: nat)
    requires k < |Combine(heads, tails)|
    ensures exists a, b :: 0 <= a < |heads| && 0 <= b < |tails| && Combine(heads, tails)[k] == [heads[a]] + tails[b]
  {
    if k < |tails| {
      assert Combine(heads, tails)[k] == [heads[0]] + tails[k];
    } else {
      CombineMember(heads[1..], tails, k - |tails|);
      var a, b :| 0 <= a < |heads| - 1 && 0 <= b < |tails| && Combine(heads[1..], tails)[k - |tails|] == [heads[1..][a]] + tails[b];
      assert Combine(heads, tails)[k] == [heads[a + 1]] + tails[b];
    }
  }

  /** `itertools.product` yields one tuple per choice of one element from
      each list: there are as many as the product of the lengths, each has
      one coordinate per list, and coordinate `d` comes from list `d`. */
  lemma {:induction false} ProductShape<T>(lists: seq<seq<T>>)
    ensures |Product(lists)| == LengthProduct(lists)
    ensures forall k :: 0 <= k < |Product(lists)| ==> |Product(lists)[k]| == |lists|
    ensures forall k, d :: 0 <= k < |Product(lists)| && 0 <= d < |lists| ==> Product(lists)[k][d] in lists[d]
  {
    if |lists| > 0 {
      var rest := Product(lists[1..]);
      ProductShape(lists[1..]);
      CombineLength(lists[0], rest);
      forall k | 0 <= k < |Product(lists)|
        ensures |Product(lists)[k]| == |lists|
        ensures forall d :: 0 <= d < |lists| ==> Product(lists)[k][d] in lists[d]
      {
        CombineMember(lists[0], rest, k);
        var a, b :| 0 <= a < |lists[0]| && 0 <= b < |rest| && Product(lists)[k] == [lists[0][a]] + rest[b];
        forall d | 0 <= d < |lists| ensures Product(lists)[k][d] in lists[d] {
          if d > 0 {
            assert Product(lists)[k][d] == rest[b][d - 1];
            assert lists[1..][d - 1] == lists[d];
          }
        }
      }
    }
  }
}
