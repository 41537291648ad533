/** The Efficient-Global-Optimum predictor of EGO.py: a Gaussian-process
    surrogate over an append-only observation set, with a user-supplied
    kernel of the separation between two points.

    numpy's `sqrt` and `exp` are not modelled: they are passed in as
    functions, and each lemma that needs one of their properties
    (`sqrt(0) == 0`, `exp(0) == 1`) states it as a precondition. The weight
    matrix `np.dot(np.linalg.inv(data_cov), di_cov)` is an input that must
    solve `data_cov · w == di_cov`. */
module Ego {
  import opened Outcomes
  import opened Linalg

  type Point = seq<real>

  /** One prediction per query point: the posterior mean, the variance that
      `np.sqrt` is applied to, and the resulting deviation. */
  datatype Prediction = Prediction(means: seq<real>, variances: seq<real>, deviations: seq<real>)

  /** The sum `Σ ((u[k] - v[k]) · thetas[k])²` over the first `n` dimensions. */
  function SumOfSquares(u: Point, v: Point, thetas: seq<real>, n: nat): (s: real)
    requires n <= |u| && n <= |v| && n <= |thetas|
    ensures s >= 0.0
  {
    if n == 0 then 0.0
    else
      var d := (u[n - 1] - v[n - 1]) * thetas[n - 1];
      SumOfSquares(u, v, thetas, n - 1) + d * d
  }

  /** The weighted squared separation does not depend on the order of the
      two points. */
  lemma {:induction false} SumOfSquaresSymmetric(u: Point, v: Point, thetas: seq<real>, n: nat)
    requires n <= |u| && n <= |v| && n <= |thetas|
    ensures SumOfSquares(u, v, thetas, n) == SumOfSquares(v, u, thetas, n)
  {
    if n > 0 {
      SumOfSquaresSymmetric(u, v, thetas, n - 1);
      var d := (u[n - 1] - v[n - 1]) * thetas[n - 1];
      assert (v[n - 1] - u[n - 1]) * thetas[n - 1] == -d;
    }
  }

  /** A point is at weighted squared separation zero from itself. */
  lemma {:induction false} SumOfSquaresSelf(u: Point, thetas: seq<real>, n: nat)
    requires n <= |u| && n <= |thetas|
    ensures SumOfSquares(u, u, thetas, n) == 0.0
  {
    if n > 0 {
      SumOfSquaresSelf(u, thetas, n - 1);
    }
  }

  /** The exponent of the squared-exponential kernel, `-0.5 · (r / s)²`. */
  function SqExpExponent(s: real, r: real): real
    requires s != 0.0
  {
    -0.5 * ((r / s) * (r / s))
  }

  /** `sqexp_kernel(a, s, r)`: `a · exp(-0.5 · (r / s)²)`. */
  function SqExpKernel(a: real, s: real, r: real, exp: real -> real): real
    requires s != 0.0
  {
    a * exp(SqExpExponent(s, r))
  }

  /** At separation zero the squared-exponential kernel is its amplitude. */
  lemma SqExpKernelAtZero(a: real, s: real, exp: real -> real)
    requires s != 0.0
    requires exp(0.0) == 1.0
    ensures SqExpKernel(a, s, 0.0, exp) == a
  {
    assert SqExpExponent(s, 0.0) == 0.0;
  }

  /** The squared-exponential kernel depends on the separation only through
      its square, so it is even; this makes `gp_cov` symmetric in one
      dimension. */
  lemma SqExpKernelEven(a: real, s: real, r: real, exp: real -> real)
    requires s != 0.0
    ensures SqExpKernel(a, s, -r, exp) == SqExpKernel(a, s, r, exp)
  {
    var t := r / s;
    assert -r / s == -t;
    assert (-t) * (-t) == t * t;
    assert SqExpExponent(s, -r) == SqExpExponent(s, r);
  }

  /** Himmelblau's test function, a sum of two squares. */
  function Himmelblau(x1: real, x2: real): (f: real)
    ensures f >= 0.0
    ensures x1 == 3.0 && x2 == 2.0 ==> f == 0.0
  {
    var p := x1 * x1 + x2 - 11.0;
    var q := x1 + x2 * x2 - 7.0;
    p * p + q * q
  }

  class Ego {
    const numFields: nat
    const kernel: real -> real
    const predictedNoise: real
    const thetas: seq<real>
    /** The observed points, one row of `numFields` coordinates each. */
    var x: seq<Point>
    /** The observed values, one per row of `x`. */
    var y: seq<real>

    ghost predicate Valid()
      reads this
    {
      |x| == |y| && forall i :: 0 <= i < |x| ==> |x[i]| == numFields
    }

    /** A new predictor holds no observation; omitted thetas weigh every
        dimension by one. */
    constructor (numFields: nat, kernel: real -> real, predictedNoise: real, thetas: Option<seq<real>>)
      ensures Valid()
      ensures this.numFields == numFields && this.kernel == kernel && this.predictedNoise == predictedNoise
      ensures this.thetas == (if thetas.None? then Constant(numFields, 1.0) else thetas.value)
      ensures x == [] && y == []
    {
      this.numFields := numFields;
      this.kernel := kernel;
      this.predictedNoise := predictedNoise;
      this.thetas := if thetas.None? then Constant(numFields, 1.0) else thetas.value;
      x := [];
      y := [];
    }

    /** `add_point`: append one observation. `np.vstack` refuses a point of
        the wrong width, and then nothing changes. */
    method AddPoint(value: real, point: Point) returns (ok: bool)
      requires Valid()
      modifies this
      ensures Valid()
      ensures ok <==> |point| == numFields
      ensures ok ==> x == old(x) + [point] && y == old(y) + [value]
      ensures !ok ==> x == old(x) && y == old(y)
    {
      ok := |point| == numFields;
      if ok {
        x := x + [point];
        y := y + [value];
      }
    }

    /** The number of dimensions `delta_f` sums over: `zip` stops at the
        shorter of `range(numFields)` and `thetas`. */
    function Dims(): (n: nat)
      ensures n <= numFields && n <= |thetas|
      ensures n == numFields || n == |thetas|
    {
      if numFields <= |thetas| then numFields else |thetas|
    }

    /** The loop of the multi-dimensional `delta_f` for one pair of points,
        before the square root. */
    method SquaredSeparation(x1: Point, x2: Point) returns (sumOfSq: real)
      requires |x1| == numFields && |x2| == numFields
      ensures sumOfSq == SumOfSquares(x1, x2, thetas, Dims())
    {
      sumOfSq := 0.0;
      var i := 0;
      while i < Dims()
        invariant 0 <= i <= Dims()
        invariant sumOfSq == SumOfSquares(x1, x2, thetas, i)
      {
        var d := (x1[i] - x2[i]) * thetas[i];
        sumOfSq := sumOfSq + d * d;
        i := i + 1;
      }
    }

    /** `delta_f` for one pair: the signed difference of the first
        coordinates in one dimension, the theta-weighted Euclidean distance
        otherwise. */
    function Separation(u: Point, v: Point, sqrt: real -> real): real
      requires numFields >= 1 && |u| == numFields && |v| == numFields
    {
      if numFields > 1 then sqrt(SumOfSquares(u, v, thetas, Dims())) else u[0] - v[0]
    }

    /** The matrix of separations `delta_f(a, transpose(b))`: one row per
        point of `b`, one column per point of `a`, `r[i][j]` the separation
        of `a[j]` from `b[i]`. */
    function Separations(a: seq<Point>, b: seq<Point>, sqrt: real -> real): (r: Matrix)
      requires numFields >= 1
      requires forall j :: 0 <= j < |a| ==> |a[j]| == numFields
      requires forall i :: 0 <= i < |b| ==> |b[i]| == numFields
      ensures IsMatrix(r, |b|, |a|)
      ensures forall i, j :: 0 <= i < |b| && 0 <= j < |a| ==> r[i][j] == Separation(a[j], b[i], sqrt)
    {
      seq(|b|, i requires 0 <= i < |b| =>
        seq(|a|, j requires 0 <= j < |a| => Separation(a[j], b[i], sqrt)))
    }

    /** In one dimension the separation matrix of a point set with itself
        holds `x[j] - x[i]`: antisymmetric, with a zero diagonal. */
    lemma OneDimensionalSeparations(pts: seq<Point>, sqrt: real -> real)
      requires numFields == 1
      requires forall j :: 0 <= j < |pts| ==> |pts[j]| == 1
      ensures forall i, j :: 0 <= i < |pts| && 0 <= j < |pts| ==>
        Separations(pts, pts, sqrt)[i][j] == pts[j][0] - pts[i][0]
      ensures forall i, j :: 0 <= i < |pts| && 0 <= j < |pts| ==>
        Separations(pts, pts, sqrt)[i][j] == -Separations(pts, pts, sqrt)[j][i]
      ensures forall i :: 0 <= i < |pts| ==> Separations(pts, pts, sqrt)[i][i] == 0.0
    {
    }

    /** In several dimensions the separation matrix of a point set with
        itself is symmetric, and zero on the diagonal when `sqrt(0) == 0`. */
    lemma MultiDimensionalSeparations(pts: seq<Point>, sqrt: real -> real)
      requires numFields > 1
      requires forall j :: 0 <= j < |pts| ==> |pts[j]| == numFields
      ensures forall i, j :: 0 <= i < |pts| && 0 <= j < |pts| ==>
        Separations(pts, pts, sqrt)[i][j] == Separations(pts, pts, sqrt)[j][i]
      ensures sqrt(0.0) == 0.0 ==> forall i :: 0 <= i < |pts| ==> Separations(pts, pts, sqrt)[i][i] == 0.0
    {
      forall i, j | 0 <= i < |pts| && 0 <= j < |pts|
        ensures Separations(pts, pts, sqrt)[i][j] == Separations(pts, pts, sqrt)[j][i]
      {
        SumOfSquaresSymmetric(pts[i], pts[j], thetas, Dims());
      }
      forall i | 0 <= i < |pts| ensures SumOfSquares(pts[i], pts[i], thetas, Dims()) == 0.0 {
        SumOfSquaresSelf(pts[i], thetas, Dims());
      }
    }

    /** `gp_cov(pts, noise)`: the kernel of every separation, with `noise`
        added along the diagonal. */
    function GpCov(pts: seq<Point>, noise: real, sqrt: real -> real): (m: Matrix)
      requires numFields >= 1
      requires forall j :: 0 <= j < |pts| ==> |pts[j]| == numFields
      ensures IsMatrix(m, |pts|, |pts|)
      ensures forall i, j :: 0 <= i < |pts| && 0 <= j < |pts| ==>
        m[i][j] == kernel(Separations(pts, pts, sqrt)[i][j]) + (if i == j then noise else 0.0)
    {
      var r := Separations(pts, pts, sqrt);
      seq(|pts|, i requires 0 <= i < |pts| =>
        seq(|pts|, j requires 0 <= j < |pts| => kernel(r[i][j]) + (if i == j then noise else 0.0)))
    }

    /** The covariance matrix is symmetric whenever the kernel is even (as
        `sqexp_kernel` is) and always in several dimensions, and its
        diagonal is `kernel(0) + noise`. */
    lemma GpCovSymmetric(pts: seq<Point>, noise: real, sqrt: real -> real)
      requires numFields >= 1
      requires forall j :: 0 <= j < |pts| ==> |pts[j]| == numFields
      requires numFields > 1 || forall r :: kernel(-r) == kernel(r)
      requires numFields > 1 ==> sqrt(0.0) == 0.0
      ensures forall i, j :: 0 <= i < |pts| && 0 <= j < |pts| ==>
        GpCov(pts, noise, sqrt)[i][j] == GpCov(pts, noise, sqrt)[j][i]
      ensures forall i :: 0 <= i < |pts| ==> GpCov(pts, noise, sqrt)[i][i] == kernel(0.0) + noise
    {
      var r := Separations(pts, pts, sqrt);
      if numFields > 1 {
        MultiDimensionalSeparations(pts, sqrt);
      } else {
        OneDimensionalSeparations(pts, sqrt);
        forall i, j | 0 <= i < |pts| && 0 <= j < |pts| ensures kernel(r[i][j]) == kernel(r[j][i]) {
          assert kernel(-r[j][i]) == kernel(r[j][i]);
        }
      }
    }

    /** The data covariance of `generate_predictions`. */
    function DataCov(sqrt: real -> real): (m: Matrix)
      requires Valid() && numFields >= 1
      reads this
      ensures IsMatrix(m, |x|, |x|)
    {
      GpCov(x, predictedNoise, sqrt)
    }

    /** `di_cov`: the kernel of each separation between an observed point
        (row) and a query point (column), without noise. */
    function CrossCov(interp: seq<Point>, sqrt: real -> real): (m: Matrix)
      requires Valid() && numFields >= 1
      requires forall j :: 0 <= j < |interp| ==> |interp[j]| == numFields
      reads this
      ensures IsMatrix(m, |x|, |interp|)
      ensures forall i, j :: 0 <= i < |x| && 0 <= j < |interp| ==>
        m[i][j] == kernel(Separation(interp[j], x[i], sqrt))
    {
      var r := Separations(interp, x, sqrt);
      var n := |x|;
      seq(n, i requires 0 <= i < n =>
        seq(|interp|, j requires 0 <= j < |interp| => kernel(r[i][j])))
    }

    /** `np.std(y)`: the population standard deviation. */
    static function StdDev(v: seq<real>, sqrt: real -> real): real
      requires |v| > 0
    {
      var c := Centre(v, Average(v));
      sqrt(Average(seq(|v|, i requires 0 <= i < |v| => c[i] * c[i])))
    }

    /** `generate_predictions(interp)` given the weights `w` that solve
        `data_cov · w == di_cov`. With no observation the average of `y` is
        undefined (numpy yields NaN) and there is no prediction. */
    function GeneratePredictions(interp: seq<Point>, w: Matrix, sqrt: real -> real): (r: Option<Prediction>)
      requires Valid() && numFields >= 1
      requires forall j :: 0 <= j < |interp| ==> |interp[j]| == numFields
      requires IsMatrix(w, |x|, |interp|)
      requires Solves(DataCov(sqrt), w, CrossCov(interp, sqrt))
      reads this
      ensures r.Some? <==> |y| > 0
      ensures r.Some? ==>
        && |r.value.means| == |interp|
        && |r.value.variances| == |interp|
        && |r.value.deviations| == |interp|
        && r.value.means == CentredMeans(w, y, Average(y))
        && r.value.variances == PosteriorVariances(kernel(0.0), CrossCov(interp, sqrt), w, StdDev(y, sqrt))
        && (forall j :: 0 <= j < |interp| ==> r.value.deviations[j] == sqrt(r.value.variances[j]))
    {
      if |y| == 0 then None
      else
        var variances := PosteriorVariances(kernel(0.0), CrossCov(interp, sqrt), w, StdDev(y, sqrt));
        Some(Prediction(CentredMeans(w, y, Average(y)), variances, Roots(variances, sqrt)))
    }
  }

  /** `np.dot(wt.T, y - ȳ) + ȳ`: one centred mean per column of `w`. */
  function CentredMeans(w: Matrix, y: Vector, averageY: real): (means: seq<real>)
    requires |y| > 0 && |w| == |y|
    requires forall i :: 0 <= i < |w| ==> |w[i]| == |w[0]|
    ensures |means| == |w[0]|
    ensures forall j :: 0 <= j < |means| ==> means[j] == Dot(Column(w, j), Centre(y, averageY)) + averageY
  {
    var centred := Centre(y, averageY);
    seq(|w[0]|, j requires 0 <= j < |w[0]| => Dot(Column(w, j), centred) + averageY)
  }

  /** The diagonal of `scale · (k0 - np.dot(di_cov.T, wt))`. */
  function PosteriorVariances(k0: real, diCov: Matrix, w: Matrix, scale: real): (v: seq<real>)
    requires |diCov| == |w| > 0
    requires forall i :: 0 <= i < |w| ==> |w[i]| == |w[0]| && |diCov[i]| == |w[0]|
    ensures |v| == |w[0]|
    ensures forall j :: 0 <= j < |v| ==> v[j] == scale * (k0 - Dot(Column(diCov, j), Column(w, j)))
  {
    seq(|w[0]|, j requires 0 <= j < |w[0]| => scale * (k0 - Dot(Column(diCov, j), Column(w, j))))
  }

  /** `np.sqrt` applied entry by entry. */
  function Roots(v: seq<real>, sqrt: real -> real): (r: seq<real>)
    ensures |r| == |v| && forall j :: 0 <= j < |v| ==> r[j] == sqrt(v[j])
  {
    seq(|v|, j requires 0 <= j < |v| => sqrt(v[j]))
  }

  /** The centred mean `wᵀ(y - ȳ) + ȳ` is the uncentred `wᵀy` of
      p_gaussian.py plus `ȳ` times what the weights leave out,
      `1 - Σ w`. */
  lemma CentredMeanDecomposition(w: Vector, y: Vector, averageY: real)
    requires |w| == |y| > 0 && averageY == Average(y)
    ensures Dot(w, Centre(y, averageY)) + averageY == Dot(w, y) + averageY * (1.0 - Sum(w))
  {
    DotCentre(w, y, averageY);
    Distribute(averageY, Sum(w));
  }

  lemma Distribute(m: real, s: real)
    ensures m * (1.0 - s) == m - m * s
  {
  }

  /** With all weights zero (a query point uncorrelated with every
      observation) the centred mean is exactly the average of `y`. */
  lemma ZeroWeightsGiveAverage(w: Vector, y: Vector)
    requires |w| == |y| > 0
    requires forall i :: 0 <= i < |w| ==> w[i] == 0.0
    ensures Dot(w, Centre(y, Average(y))) + Average(y) == Average(y)
  {
    DotZeroWeights(w, Centre(y, Average(y)));
  }

  /** When every observed value is the same `c`, every prediction's mean is
      `c`, whatever the weights. */
  lemma ConstantDataPredictsConstant(w: Vector, y: Vector, c: real)
    requires |w| == |y| > 0
    requires forall i :: 0 <= i < |y| ==> y[i] == c
    ensures Dot(w, Centre(y, Average(y))) + Average(y) == c
  {
    var n := |y| as real;
    assert y == Constant(|y|, c);
    SumOfConstant(|y|, c);
    assert Average(y) == (n * c) / n;
    assert (n * c) / n == c;
    assert Centre(y, c) == Constant(|w|, 0.0);
    DotConstant(w, 0.0);
  }
}
