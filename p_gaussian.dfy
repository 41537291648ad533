/** The `PredictionEngine` of p_gaussian.py: a Gaussian-process surrogate
    over points of any dimension with a fixed unit squared-exponential
    kernel, searched on a jittered grid by an upper-confidence-bound rule.

    `math.exp` and `np.sqrt` are passed in as functions; the weight matrix
    `np.dot(np.linalg.inv(big_r), small_r)` is an input that must solve
    `big_r · w == small_r`; `random.random()` becomes the `jitter` values. */
module PGaussian {
  import opened Outcomes
  import opened Linalg

  type Point = seq<real>

  /** The point `determine_max` recommends, with its estimated value. */
  datatype Choice = Choice(point: Point, estimate: real)

  /** `internal_sum`: `Σ (a - b)²` over the pairs `zip` forms, so over the
      shorter of the two points. */
  function InternalSum(u: Point, v: Point): (s: real)
    ensures s >= 0.0
  {
    if |u| == 0 || |v| == 0 then 0.0
    else
      var d := u[0] - v[0];
      d * d + InternalSum(u[1..], v[1..])
  }

  lemma {:induction false} InternalSumSymmetric(u: Point, v: Point)
    ensures InternalSum(u, v) == InternalSum(v, u)
  {
    if |u| > 0 && |v| > 0 {
      InternalSumSymmetric(u[1..], v[1..]);
      assert (v[0] - u[0]) * (v[0] - u[0]) == (u[0] - v[0]) * (u[0] - v[0]);
    }
  }

  lemma {:induction false} InternalSumSelf(u: Point)
    ensures InternalSum(u, u) == 0.0
  {
    if |u| > 0 {
      InternalSumSelf(u[1..]);
    }
  }

  /** `kernel(x1, x2)`: `exp(-0.5 · internal_sum)`. */
  function Kernel(u: Point, v: Point, exp: real -> real): real
  {
    exp(-0.5 * InternalSum(u, v))
  }

  /** The kernel is symmetric in its arguments and a point is fully
      correlated with itself, `kernel(x, x) == exp(0) == 1`: the all-ones
      auto-covariance of `determine_max` is the kernel of each prediction
      point with itself. */
  lemma KernelProperties(u: Point, v: Point, exp: real -> real)
    requires exp(0.0) == 1.0
    ensures Kernel(u, v, exp) == Kernel(v, u, exp)
    ensures Kernel(u, u, exp) == 1.0
  {
    InternalSumSymmetric(u, v);
    InternalSumSelf(u);
    assert -0.5 * InternalSum(u, u) == 0.0;
  }

  /** `calc_big_r(x_known, noise)` for a noise vector of one entry per
      known point: the kernel of every pair, with `noise[i]` added on the
      diagonal. */
  function CalcBigR(xKnown: seq<Point>, noise: seq<real>, exp: real -> real): (m: Matrix)
    requires |noise| == |xKnown|
    ensures IsMatrix(m, |xKnown|, |xKnown|)
    ensures forall j, i :: 0 <= j < |xKnown| && 0 <= i < |xKnown| ==>
      m[j][i] == Kernel(xKnown[i], xKnown[j], exp) + (if i == j then noise[i] else 0.0)
  {
    seq(|xKnown|, j requires 0 <= j < |xKnown| =>
      seq(|xKnown|, i requires 0 <= i < |xKnown| =>
        Kernel(xKnown[i], xKnown[j], exp) + (if i == j then noise[i] else 0.0)))
  }

  /** The correlation matrix is symmetric, with `1 + noise[i]` on its
      diagonal. */
  lemma BigRProperties(xKnown: seq<Point>, noise: seq<real>, exp: real -> real)
    requires |noise| == |xKnown|
    requires exp(0.0) == 1.0
    ensures forall i, j :: 0 <= i < |xKnown| && 0 <= j < |xKnown| ==>
      CalcBigR(xKnown, noise, exp)[i][j] == CalcBigR(xKnown, noise, exp)[j][i]
    ensures forall i :: 0 <= i < |xKnown| ==> CalcBigR(xKnown, noise, exp)[i][i] == 1.0 + noise[i]
  {
    forall i, j | 0 <= i < |xKnown| && 0 <= j < |xKnown|
      ensures Kernel(xKnown[i], xKnown[j], exp) == Kernel(xKnown[j], xKnown[i], exp)
    {
      KernelProperties(xKnown[i], xKnown[j], exp);
    }
    forall i | 0 <= i < |xKnown| ensures Kernel(xKnown[i], xKnown[i], exp) == 1.0 {
      KernelProperties(xKnown[i], xKnown[i], exp);
    }
  }

  /** `calc_big_r` as `determine_max` calls it, with an (N, 1) column of
      noise: `np.diag` of a two-dimensional array extracts its single
      diagonal entry, and adding that one-element array broadcasts it to
      EVERY entry, not only to the diagonal. */
  function CalcBigRAsCalled(xKnown: seq<Point>, noiseColumn: seq<seq<real>>, exp: real -> real): (m: Matrix)
    requires |noiseColumn| == |xKnown| > 0 && |noiseColumn[0]| == 1
    ensures IsMatrix(m, |xKnown|, |xKnown|)
  {
    var c := noiseColumn[0][0];
    seq(|xKnown|, j requires 0 <= j < |xKnown| =>
      seq(|xKnown|, i requires 0 <= i < |xKnown| => Kernel(xKnown[i], xKnown[j], exp) + c))
  }

  /** As called, the matrix differs from the documented one by the noise on
      every off-diagonal entry (and agrees on the diagonal when the noise is
      the same for every point, as the `1e-9` column is). */
  lemma BigRAsCalledBroadcastsNoise(xKnown: seq<Point>, c: real, exp: real -> real)
    requires |xKnown| >= 1
    ensures forall i, j :: 0 <= i < |xKnown| && 0 <= j < |xKnown| ==>
      CalcBigRAsCalled(xKnown, seq(|xKnown|, _ => [c]), exp)[i][j]
        == CalcBigR(xKnown, Constant(|xKnown|, c), exp)[i][j] + (if i == j then 0.0 else c)
  {
  }

  /** With two known points and nonzero noise the two readings disagree off
      the diagonal. */
  lemma BigRAsCalledDiffers(exp: real -> real)
    ensures CalcBigRAsCalled([[0.0], [1.0]], [[1.0e-9], [1.0e-9]], exp)[0][1]
         != CalcBigR([[0.0], [1.0]], [1.0e-9, 1.0e-9], exp)[0][1]
  {
    var xs: seq<Point> := [[0.0], [1.0]];
    assert [[1.0e-9], [1.0e-9]] == seq(|xs|, _ => [1.0e-9]);
    assert [1.0e-9, 1.0e-9] == Constant(|xs|, 1.0e-9);
    BigRAsCalledBroadcastsNoise(xs, 1.0e-9, exp);
  }

  /** `calc_small_r(x_predictions)`: one row per known point, one column
      per prediction point. */
  function CalcSmallR(xKnown: seq<Point>, predictions: seq<Point>, exp: real -> real): (m: Matrix)
    ensures IsMatrix(m, |xKnown|, |predictions|)
    ensures forall j, i :: 0 <= j < |xKnown| && 0 <= i < |predictions| ==>
      m[j][i] == Kernel(predictions[i], xKnown[j], exp)
  {
    seq(|xKnown|, j requires 0 <= j < |xKnown| =>
      seq(|predictions|, i requires 0 <= i < |predictions| => Kernel(predictions[i], xKnown[j], exp)))
  }

  /** The number of grid divisions per dimension, `n_sample_points`. */
  const Divisions: nat := 10

  /** `jitter` holds one `random.random()` value per division per dimension. */
  ghost predicate IsJitter(jitter: seq<seq<real>>, dims: nat)
  {
    && |jitter| == dims
    && forall d :: 0 <= d < dims ==>
         |jitter[d]| == Divisions && forall k :: 0 <= k < Divisions ==> 0.0 <= jitter[d][k] < 1.0
  }

  /** `samples`: the k-th value of each dimension is `k/10 + 0.1 · jitter`. */
  function Samples(jitter: seq<seq<real>>): (s: seq<seq<real>>)
    requires forall d :: 0 <= d < |jitter| ==> |jitter[d]| == Divisions
    ensures |s| == |jitter| && forall d :: 0 <= d < |s| ==> |s[d]| == Divisions
  {
    seq(|jitter|, d requires 0 <= d < |jitter| =>
      seq(Divisions, k requires 0 <= k < Divisions => BandStart(k) + 0.1 * jitter[d][k]))
  }

  /** The lower edge `k/10` of the k-th division. */
  function BandStart(k: nat): real
  {
    (k as real) / (Divisions as real)
  }

  function Pow(b: nat, e: nat): nat
  {
    if e == 0 then 1 else b * Pow(b, e - 1)
  }

  lemma {:induction false} LengthProductOfDivisions(s: seq<seq<real>>)
    requires forall d :: 0 <= d < |s| ==> |s[d]| == Divisions
    ensures LengthProduct(s) == Pow(Divisions, |s|)
  {
    if |s| > 0 {
      LengthProductOfDivisions(s[1..]);
    }
  }

  /** The prediction points: 10^d of them, each with d coordinates, every
      coordinate inside `[0, 1)` and inside the band `[k/10, k/10 + 0.1)` of
      some division `k`. */
  lemma GridProperties(jitter: seq<seq<real>>)
    requires IsJitter(jitter, |jitter|)
    ensures |Product(Samples(jitter))| == Pow(Divisions, |jitter|)
    ensures forall p :: p in Product(Samples(jitter)) ==> |p| == |jitter|
    ensures forall p, d :: p in Product(Samples(jitter)) && 0 <= d < |jitter| ==>
      0.0 <= p[d] < 1.0 &&
      exists k :: 0 <= k < Divisions && BandStart(k) <= p[d] < BandStart(k) + 0.1
  {
    var s := Samples(jitter);
    ProductShape(s);
    LengthProductOfDivisions(s);
    forall p, d | p in Product(s) && 0 <= d < |jitter|
      ensures 0.0 <= p[d] < 1.0
      ensures exists k :: 0 <= k < Divisions && BandStart(k) <= p[d] < BandStart(k) + 0.1
    {
      assert p[d] in s[d];
      var k :| 0 <= k < Divisions && s[d][k] == p[d];
      assert 0.0 <= jitter[d][k] < 1.0;
      assert BandStart(k) <= p[d] < BandStart(k) + 0.1;
      assert BandStart(k) + 0.1 <= 1.0;
    }
  }

  /** `y_estimates = np.dot(weight_array.T, y_known)`: NOT mean-centred. */
  function Estimates(w: Matrix, yKnown: seq<real>, m: nat): (e: seq<real>)
    requires IsMatrix(w, |yKnown|, m)
    ensures |e| == m && forall i :: 0 <= i < m ==> e[i] == Dot(Column(w, i), yKnown)
  {
    seq(m, i requires 0 <= i < m => Dot(Column(w, i), yKnown))
  }

  /** `np.diag(auto_covariance - np.dot(small_r.T, weight_array))` with an
      all-ones auto-covariance. */
  function Variances(smallR: Matrix, w: Matrix, n: nat, m: nat): (v: seq<real>)
    requires IsMatrix(smallR, n, m) && IsMatrix(w, n, m)
    ensures |v| == m && forall i :: 0 <= i < m ==> v[i] == 1.0 - Dot(Column(smallR, i), Column(w, i))
  {
    seq(m, i requires 0 <= i < m => 1.0 - Dot(Column(smallR, i), Column(w, i)))
  }

  /** `y_estimates + interp_u`, the quantity `np.argmax` maximises. */
  function Scores(estimates: seq<real>, variances: seq<real>, sqrt: real -> real): (s: seq<real>)
    requires |estimates| == |variances|
    ensures |s| == |estimates| && forall i :: 0 <= i < |s| ==> s[i] == estimates[i] + sqrt(variances[i])
  {
    seq(|estimates|, i requires 0 <= i < |estimates| => estimates[i] + sqrt(variances[i]))
  }

  /** Zero weights estimate zero, not the data average as EGO.py does. */
  lemma UncentredZeroWeights(w: Vector, yKnown: Vector)
    requires |w| == |yKnown|
    requires forall i :: 0 <= i < |w| ==> w[i] == 0.0
    ensures Dot(w, yKnown) == 0.0
  {
    DotZeroWeights(w, yKnown);
  }

  class PredictionEngine {
    /** `None` until the first `append`, then one row per known point. */
    var xKnown: Option<seq<Point>>
    var yKnown: Option<seq<real>>

    ghost predicate Valid()
      reads this
    {
      && (xKnown.None? <==> yKnown.None?)
      && (xKnown.Some? ==>
            && |xKnown.value| == |yKnown.value| >= 1
            && forall i :: 0 <= i < |xKnown.value| ==> |xKnown.value[i]| == |xKnown.value[0]|)
    }

    constructor ()
      ensures Valid() && xKnown.None? && yKnown.None?
    {
      xKnown := None;
      yKnown := None;
    }

    /** `append(x_values, y_value)`: the first call creates one-row arrays,
        each later call adds one row and one value. `np.append` refuses a
        row of another width, and then nothing changes. */
    method Append(xValues: Point, yValue: real) returns (ok: bool)
      requires Valid()
      modifies this
      ensures Valid()
      ensures old(xKnown).None? ==> ok && xKnown == Some([xValues]) && yKnown == Some([yValue])
      ensures old(xKnown).Some? ==> (ok <==> |xValues| == |old(xKnown).value[0]|)
      ensures old(xKnown).Some? && ok ==>
        xKnown == Some(old(xKnown).value + [xValues]) && yKnown == Some(old(yKnown).value + [yValue])
      ensures !ok ==> xKnown == old(xKnown) && yKnown == old(yKnown)
    {
      if xKnown.None? {
        xKnown := Some([xValues]);
        yKnown := Some([yValue]);
        ok := true;
      } else if |xValues| != |xKnown.value[0]| {
        ok := false;
      } else {
        xKnown := Some(xKnown.value + [xValues]);
        yKnown := Some(yKnown.value + [yValue]);
        ok := true;
      }
    }

    /** The weights `np.dot(np.linalg.inv(big_r), small_r)` for the grid
        built from `jitter`, with the `1e-9` noise on the diagonal. */
    ghost predicate IsWeightArray(jitter: seq<seq<real>>, w: Matrix, exp: real -> real)
      requires Valid() && xKnown.Some?
      requires IsJitter(jitter, |xKnown.value[0]|)
      reads this
    {
      var n := |xKnown.value|;
      var points := Product(Samples(jitter));
      && IsMatrix(w, n, |points|)
      && Solves(CalcBigR(xKnown.value, Constant(n, 1.0e-9), exp), w, CalcSmallR(xKnown.value, points, exp))
    }

    /** `determine_max()`: the first grid point maximising estimate plus
        deviation, with its estimate. An engine with no data has no
        dimension to sample (the source fails on `None`). */
    function DetermineMax(jitter: seq<seq<real>>, w: Matrix, sqrt: real -> real, exp: real -> real): (r: Option<Choice>)
      requires Valid()
      requires xKnown.Some? ==> IsJitter(jitter, |xKnown.value[0]|) && IsWeightArray(jitter, w, exp)
      reads this
      ensures r.Some? <==> xKnown.Some?
      ensures r.Some? ==>
        var points := Product(Samples(jitter));
        var n := |xKnown.value|;
        var estimates := Estimates(w, yKnown.value, |points|);
        var scores := Scores(estimates, Variances(CalcSmallR(xKnown.value, points, exp), w, n, |points|), sqrt);
        exists k ::
          && 0 <= k < |points|
          && r.value.point == points[k]
          && r.value.estimate == estimates[k]
          && (forall j :: 0 <= j < |points| ==> scores[j] <= scores[k])
          && (forall j :: 0 <= j < k ==> scores[j] < scores[k])
    {
      if xKnown.None? then None
      else
        var points := Product(Samples(jitter));
        var n := |xKnown.value|;
        var smallR := CalcSmallR(xKnown.value, points, exp);
        var estimates := Estimates(w, yKnown.value, |points|);
        var scores := Scores(estimates, Variances(smallR, w, n, |points|), sqrt);
        ProductNonEmpty(Samples(jitter));
        var k := FirstArgmax(scores);
        Some(Choice(points[k], estimates[k]))
    }
  }

  lemma ProductNonEmpty(s: seq<seq<real>>)
    requires forall d :: 0 <= d < |s| ==> |s[d]| == Divisions
    ensures |Product(s)| > 0
  {
    ProductShape(s);
    LengthProductOfDivisions(s);
    PowPositive(|s|);
  }

  lemma {:induction false} PowPositive(e: nat)
    ensures Pow(Divisions, e) > 0
  {
    if e > 0 {
      PowPositive(e - 1);
    }
  }
}
