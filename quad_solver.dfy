/** `solve_quad`: the parabola `a x^2 + b x + c` through three points and
    the x of its vertex, `-b / (2a)`, over exact reals. The inverse matrix
    that numpy computes is written out by Cramer's rule. */
module QuadSolver {
  import opened Outcomes

  /** Why `solve_quad` gives no vertex: `np.linalg.inv` refuses a design
      matrix that is not 3 x 3 or is singular, `np.dot` refuses a y-list of
      the wrong length, and a fitted `a` of zero leaves `-b / (2a)` without
      a value. */
  datatype QuadError = NotSquare | Singular | ShapeMismatch | ZeroCurvature

  datatype Coefficients = Coefficients(a: real, b: real, c: real)

  /** The row of the design matrix for one input. */
  function Row(x: real): seq<real>
  {
    [x * x, x, 1.0]
  }

  /** The design matrix: one row `[x^2, x, 1]` per input `x`. */
  function DesignRows(xs: seq<real>): (rows: seq<seq<real>>)
    ensures |rows| == |xs|
    ensures forall k :: 0 <= k < |xs| ==> rows[k] == Row(xs[k])
  {
    seq(|xs|, k requires 0 <= k < |xs| => Row(xs[k]))
  }

  /** The loop of `solve_quad` that appends one row per input. */
  method DesignMatrix(xs: seq<real>) returns (rows: seq<seq<real>>)
    ensures |rows| == |xs|
    ensures forall k :: 0 <= k < |xs| ==> rows[k] == Row(xs[k])
  {
    rows := [];
    for k := 0 to |xs|
      invariant |rows| == k
      invariant forall j :: 0 <= j < k ==> rows[j] == Row(xs[j])
    {
      rows := rows + [Row(xs[k])];
    }
  }

  function Det(m00: real, m01: real, m02: real, m10: real, m11: real, m12: real,
               m20: real, m21: real, m22: real): real
  {
    m00 * (m11 * m22 - m12 * m21) - m01 * (m10 * m22 - m12 * m20) + m02 * (m10 * m21 - m11 * m20)
  }

  predicate IsThreeByThree(m: seq<seq<real>>)
  {
    |m| == 3 && |m[0]| == 3 && |m[1]| == 3 && |m[2]| == 3
  }

  function Det3(m: seq<seq<real>>): real
    requires IsThreeByThree(m)
  {
    Det(m[0][0], m[0][1], m[0][2], m[1][0], m[1][1], m[1][2], m[2][0], m[2][1], m[2][2])
  }

  /** Expanding a determinant with one column replaced by `y` along row
      `(r0, r1, r2)`: the weighted sum of the three column-replaced
      determinants is `y_k` times the determinant. */
  lemma CramerRow(m00: real, m01: real, m02: real, m10: real, m11: real, m12: real,
                  m20: real, m21: real, m22: real, y0: real, y1: real, y2: real)
    ensures var d := Det(m00, m01, m02, m10, m11, m12, m20, m21, m22);
            var d0 := Det(y0, m01, m02, y1, m11, m12, y2, m21, m22);
            var d1 := Det(m00, y0, m02, m10, y1, m12, m20, y2, m22);
            var d2 := Det(m00, m01, y0, m10, m11, y1, m20, m21, y2);
            && m00 * d0 + m01 * d1 + m02 * d2 == y0 * d
            && m10 * d0 + m11 * d1 + m12 * d2 == y1 * d
            && m20 * d0 + m21 * d1 + m22 * d2 == y2 * d
  {
    CramerFirstRow(m00, m01, m02, m10, m11, m12, m20, m21, m22, y0, y1, y2);
    CramerFirstRow(m10, m11, m12, m00, m01, m02, m20, m21, m22, y1, y0, y2);
    CramerFirstRow(m20, m21, m22, m10, m11, m12, m00, m01, m02, y2, y1, y0);
  }

  /** The first row of `CramerRow`; the other two follow by swapping rows,
      which negates every determinant. */
  lemma CramerFirstRow(m00: real, m01: real, m02: real, m10: real, m11: real, m12: real,
                       m20: real, m21: real, m22: real, y0: real, y1: real, y2: real)
    ensures m00 * Det(y0, m01, m02, y1, m11, m12, y2, m21, m22)
            + m01 * Det(m00, y0, m02, m10, y1, m12, m20, y2, m22)
            + m02 * Det(m00, m01, y0, m10, m11, y1, m20, m21, y2)
            == y0 * Det(m00, m01, m02, m10, m11, m12, m20, m21, m22)
  {
  }

  /** `(a, b, c)` solves the three equations `m v = y`. */
  predicate SolvesSystem(m: seq<seq<real>>, f: Coefficients, y: seq<real>)
    requires |m| == 3 && |y| == 3 && forall k :: 0 <= k < 3 ==> |m[k]| == 3
  {
    forall k :: 0 <= k < 3 ==> m[k][0] * f.a + m[k][1] * f.b + m[k][2] * f.c == y[k]
  }

  /** `np.dot(np.linalg.inv(m), y)` for a 3-column `m`. */
  function Solve(m: seq<seq<real>>, y: seq<real>): (r: Result<Coefficients, QuadError>)
    requires forall k :: 0 <= k < |m| ==> |m[k]| == 3
    ensures r == Err(NotSquare) <==> |m| != 3
    ensures r.Ok? ==> |m| == 3 && |y| == 3
    ensures r.Ok? ==> SolvesSystem(m, r.value, y)
  {
    if |m| != 3 then Err(NotSquare)
    else if Det3(m) == 0.0 then Err(Singular)
    else if |y| != 3 then Err(ShapeMismatch)
    else Ok(Cramer(m, y))
  }

  /** `Solve` fails on a singular matrix and succeeds on an invertible one
      paired with three y values. */
  lemma SolveOutcome(m: seq<seq<real>>, y: seq<real>)
    requires forall k :: 0 <= k < |m| ==> |m[k]| == 3
    ensures Solve(m, y) == Err(Singular) <==> |m| == 3 && Det3(m) == 0.0
    ensures Solve(m, y).Ok? <==> |m| == 3 && Det3(m) != 0.0 && |y| == 3
  {
  }

  /** The solution of `m v = y` by Cramer's rule. */
  function Cramer(m: seq<seq<real>>, y: seq<real>): (r: Coefficients)
    requires IsThreeByThree(m) && Det3(m) != 0.0 && |y| == 3
    ensures SolvesSystem(m, r, y)
  {
    CramerSolution(m[0][0], m[0][1], m[0][2], m[1][0], m[1][1], m[1][2], m[2][0], m[2][1], m[2][2], y[0], y[1], y[2])
  }

  /** Cramer's rule on the entries: each unknown is a determinant with one
      column replaced by `y`, over the determinant of the matrix. */
  function CramerSolution(m00: real, m01: real, m02: real, m10: real, m11: real, m12: real,
                          m20: real, m21: real, m22: real, y0: real, y1: real, y2: real): (r: Coefficients)
    requires Det(m00, m01, m02, m10, m11, m12, m20, m21, m22) != 0.0
    ensures m00 * r.a + m01 * r.b + m02 * r.c == y0
    ensures m10 * r.a + m11 * r.b + m12 * r.c == y1
    ensures m20 * r.a + m21 * r.b + m22 * r.c == y2
  {
    var d := Det(m00, m01, m02, m10, m11, m12, m20, m21, m22);
    var d0 := Det(y0, m01, m02, y1, m11, m12, y2, m21, m22);
    var d1 := Det(m00, y0, m02, m10, y1, m12, m20, y2, m22);
    var d2 := Det(m00, m01, y0, m10, m11, y1, m20, m21, y2);
    CramerRow(m00, m01, m02, m10, m11, m12, m20, m21, m22, y0, y1, y2);
    DivideRows(m00, m01, m02, m10, m11, m12, m20, m21, m22, y0, y1, y2, d, d0, d1, d2);
    Coefficients(d0 / d, d1 / d, d2 / d)
  }

  lemma DivideRows(m00: real, m01: real, m02: real, m10: real, m11: real, m12: real,
                   m20: real, m21: real, m22: real, y0: real, y1: real, y2: real,
                   d: real, d0: real, d1: real, d2: real)
    requires d != 0.0
    requires m00 * d0 + m01 * d1 + m02 * d2 == y0 * d
    requires m10 * d0 + m11 * d1 + m12 * d2 == y1 * d
    requires m20 * d0 + m21 * d1 + m22 * d2 == y2 * d
    ensures m00 * (d0 / d) + m01 * (d1 / d) + m02 * (d2 / d) == y0
    ensures m10 * (d0 / d) + m11 * (d1 / d) + m12 * (d2 / d) == y1
    ensures m20 * (d0 / d) + m21 * (d1 / d) + m22 * (d2 / d) == y2
  {
    DivideThrough(m00, m01, m02, d0, d1, d2, d, y0);
    DivideThrough(m10, m11, m12, d0, d1, d2, d, y1);
    DivideThrough(m20, m21, m22, d0, d1, d2, d, y2);
  }

  lemma DivideThrough(p: real, q: real, s: real, d0: real, d1: real, d2: real, d: real, yk: real)
    requires d != 0.0 && p * d0 + q * d1 + s * d2 == yk * d
    ensures p * (d0 / d) + q * (d1 / d) + s * (d2 / d) == yk
  {
    assert p * (d0 / d) + q * (d1 / d) + s * (d2 / d) == (p * d0 + q * d1 + s * d2) / d;
  }

  /** The coefficients `a, b, c` of the parabola through the points. */
  function Fit(xs: seq<real>, ys: seq<real>): (r: Result<Coefficients, QuadError>)
    ensures r.Ok? ==> |xs| == 3 && |ys| == 3
    ensures r.Ok? ==> forall k :: 0 <= k < 3 ==> OnParabola(r.value, xs[k], ys[k])
  {
    var m := DesignRows(xs);
    var r := Solve(m, ys);
    if r.Ok? then
      OnCurve(m, xs, ys, r.value);
      r
    else r
  }

  /** `-b / (2a)`, the x where the parabola turns. */
  function Vertex(fit: Result<Coefficients, QuadError>): (r: Result<real, QuadError>)
    ensures r.Ok? <==> fit.Ok? && fit.value.a != 0.0
    ensures r.Ok? ==> 2.0 * fit.value.a * r.value + fit.value.b == 0.0
  {
    match fit
    case Err(e) => Err(e)
    case Ok(f) => if f.a == 0.0 then Err(ZeroCurvature) else Ok(-f.b / (2.0 * f.a))
  }

  /** The point `(x, y)` lies on the parabola `f`. */
  predicate OnParabola(f: Coefficients, x: real, y: real)
  {
    f.a * (x * x) + f.b * x + f.c == y
  }

  lemma OnCurve(m: seq<seq<real>>, xs: seq<real>, ys: seq<real>, f: Coefficients)
    requires |xs| == 3 && |ys| == 3 && m == DesignRows(xs)
    requires SolvesSystem(m, f, ys)
    ensures forall k :: 0 <= k < 3 ==> OnParabola(f, xs[k], ys[k])
  {
    forall k | 0 <= k < 3
      ensures OnParabola(f, xs[k], ys[k])
    {
      OnRow(m[k], xs[k], f, ys[k]);
    }
  }

  lemma OnRow(row: seq<real>, x: real, f: Coefficients, y: real)
    requires row == Row(x) && row[0] * f.a + row[1] * f.b + row[2] * f.c == y
    ensures OnParabola(f, x, y)
  {
    RowEquation(x, f.a, f.b, f.c, y);
  }

  lemma RowEquation(x: real, a: real, b: real, c: real, y: real)
    requires (x * x) * a + x * b + 1.0 * c == y
    ensures a * (x * x) + b * x + c == y
  {
  }

  /** `solve_quad`: a vertex exactly when the design matrix is square and
      invertible, there are three y values and the fitted curve is a true
      parabola; the vertex is where the parabola through every point
      turns. */
  method SolveQuad(xs: seq<real>, ys: seq<real>) returns (r: Result<real, QuadError>)
    ensures r == Vertex(Fit(xs, ys))
    ensures r.Ok? ==>
      && |xs| == 3 && |ys| == 3
      && var f := Fit(xs, ys).value;
         && f.a != 0.0 && 2.0 * f.a * r.value + f.b == 0.0
         && forall k :: 0 <= k < 3 ==> OnParabola(f, xs[k], ys[k])
  {
    var rows := DesignMatrix(xs);
    assert rows == DesignRows(xs);
    r := Vertex(Solve(rows, ys));
  }

  /** The design determinant is the Vandermonde product, so three distinct
      x values always give an invertible matrix. */
  lemma VandermondeDet(x0: real, x1: real, x2: real)
    ensures Det(x0 * x0, x0, 1.0, x1 * x1, x1, 1.0, x2 * x2, x2, 1.0) == (x0 - x1) * (x0 - x2) * (x1 - x2)
    ensures x0 != x1 && x0 != x2 && x1 != x2 ==> Det(x0 * x0, x0, 1.0, x1 * x1, x1, 1.0, x2 * x2, x2, 1.0) != 0.0
  {
    if x0 != x1 && x0 != x2 && x1 != x2 {
      NonZeroProduct(x0 - x1, x0 - x2);
      NonZeroProduct((x0 - x1) * (x0 - x2), x1 - x2);
    }
  }

  lemma NonZeroProduct(p: real, q: real)
    requires p != 0.0 && q != 0.0
    ensures p * q != 0.0
  {
  }

  /** Three distinct x values give an invertible design matrix. */
  lemma DesignInvertible(xs: seq<real>)
    requires |xs| == 3
    requires xs[0] != xs[1] && xs[0] != xs[2] && xs[1] != xs[2]
    ensures Det3(DesignRows(xs)) != 0.0
  {
    var x0, x1, x2 := xs[0], xs[1], xs[2];
    assert DesignRows(xs) == [Row(x0), Row(x1), Row(x2)];
    DesignDet(x0, x1, x2);
    VandermondeDet(x0, x1, x2);
  }

  lemma DesignDet(x0: real, x1: real, x2: real)
    ensures Det3([Row(x0), Row(x1), Row(x2)]) == Det(x0 * x0, x0, 1.0, x1 * x1, x1, 1.0, x2 * x2, x2, 1.0)
  {
  }

  /** Three distinct x values and three y values always give a fit. */
  lemma DistinctPointsFit(xs: seq<real>, ys: seq<real>)
    requires |xs| == 3 && |ys| == 3
    requires xs[0] != xs[1] && xs[0] != xs[2] && xs[1] != xs[2]
    ensures Fit(xs, ys).Ok?
  {
    DesignInvertible(xs);
    SolveOutcome(DesignRows(xs), ys);
    assert Fit(xs, ys) == Solve(DesignRows(xs), ys);
  }

  /** At the vertex a parabola takes its extreme value: below every other
      value when `a > 0`, above when `a < 0`. */
  lemma VertexIsExtremum(f: Coefficients, v: real, t: real)
    requires f.a != 0.0 && 2.0 * f.a * v + f.b == 0.0
    ensures f.a * t * t + f.b * t + f.c - (f.a * v * v + f.b * v + f.c) == f.a * (t - v) * (t - v)
    ensures f.a > 0.0 ==> f.a * v * v + f.b * v + f.c <= f.a * t * t + f.b * t + f.c
    ensures f.a < 0.0 ==> f.a * v * v + f.b * v + f.c >= f.a * t * t + f.b * t + f.c
  {
    assert f.b == -2.0 * f.a * v;
    var e := t - v;
    assert e * e >= 0.0;
    assert f.a * (t - v) * (t - v) == f.a * (e * e);
  }

  /** The script's own example: the points (1, 4), (4, 6), (5, 5) lie on
      `-5/12 x^2 + 11/4 x + 5/3`, which turns at x = 3.3. */
  lemma Example()
    ensures Fit([1.0, 4.0, 5.0], [4.0, 6.0, 5.0]) == Ok(Coefficients(-5.0 / 12.0, 11.0 / 4.0, 5.0 / 3.0))
    ensures Vertex(Fit([1.0, 4.0, 5.0], [4.0, 6.0, 5.0])) == Ok(3.3)
  {
    var rows := DesignRows([1.0, 4.0, 5.0]);
    assert rows == [[1.0, 1.0, 1.0], [16.0, 4.0, 1.0], [25.0, 5.0, 1.0]];
    assert Det3(rows) == -12.0;
  }
}
