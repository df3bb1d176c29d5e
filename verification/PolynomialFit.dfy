/** _fit: the closed form for a line, elimination for a parabola, and the coefficient of determination. */
module PolynomialFit {
  import opened Collections
  import opened LeastSquares
  import GaussJordan

  datatype Fit = Fit(coefficients: seq<real>, r2: real)

  function Sum(ys: seq<real>): real {
    if ys == [] then 0.0 else ys[0] + Sum(ys[1..])
  }

  /** The sum of (y - mean) ** 2. */
  function Spread(ys: seq<real>, mean: real): real {
    if ys == [] then 0.0 else Square(ys[0] - mean) + Spread(ys[1..], mean)
  }

  /** Coefficients padded to degree 2. */
  function Padded(c: seq<real>): Row
    requires |c| == 2 || |c| == 3
  {
    [c[0], c[1], if |c| == 3 then c[2] else 0.0]
  }

  // ----- the quantities of the closed form as moments -----

  lemma {:induction false} CountMoment(xs: seq<real>)
    ensures Moment(xs, 0) == |xs| as real
  {
    if xs != [] {
      CountMoment(xs[1..]);
      assert Pow(xs[0], 0) == 1.0;
    }
  }

  lemma {:induction false} SumIsMixed(xs: seq<real>, ys: seq<real>)
    requires |xs| == |ys|
    ensures Mixed(xs, ys, 0) == Sum(ys)
  {
    if xs != [] {
      SumIsMixed(xs[1..], ys[1..]);
      assert Pow(xs[0], 0) == 1.0;
    }
  }

  lemma ConstantEval(mean: real, x: real)
    ensures Eval([mean, 0.0, 0.0], x) == mean
  {
  }

  lemma {:induction false} SpreadIsResidual(xs: seq<real>, ys: seq<real>, mean: real)
    requires |xs| == |ys|
    ensures Spread(ys, mean) == Residual(xs, ys, [mean, 0.0, 0.0])
  {
    if xs != [] {
      ConstantEval(mean, xs[0]);
      SpreadIsResidual(xs[1..], ys[1..], mean);
    }
  }

  // ----- lines -----

  /** n * sum(x * x) - sum(x) ** 2. */
  function Denominator(xs: seq<real>): real {
    |xs| as real * Moment(xs, 2) - Moment(xs, 1) * Moment(xs, 1)
  }

  lemma DotOfLine(r: Row, v: Row)
    requires v[2] == 0.0
    ensures Dot(r, v) == r[0] * v[0] + r[1] * v[1]
  {
  }

  lemma DotVanishes(e: Row, d: Row)
    requires e[0] == e[1] == 0.0 && d[2] == 0.0
    ensures Dot(e, d) == 0.0
  {
  }

  /**
   * A line whose errors are orthogonal to 1 and x beats every line by the squared distance between them on the
   * data.
   */
  lemma LineGap(xs: seq<real>, ys: seq<real>, a: Row, b: Row)
    requires |xs| == |ys| && a[2] == b[2] == 0.0
    requires ErrorMoment(xs, ys, a, 0) == ErrorMoment(xs, ys, a, 1) == 0.0
    ensures Residual(xs, ys, b) == Residual(xs, ys, a) + SquareSum(xs, Minus(b, a))
  {
    DotVanishes(ErrorMoments(xs, ys, a), Minus(b, a));
    ResidualExpands(xs, ys, a, b);
  }

  lemma LineNullVanishes(xs: seq<real>, v: Row)
    requires v[2] == 0.0 && Dot(GramRow(xs, 0), v) == Dot(GramRow(xs, 1), v) == 0.0
    ensures forall x :: x in xs ==> Eval(v, x) == 0.0
  {
    var ys := Zeros(|xs|);
    ZerosMixed(xs, 0);
    ZerosMixed(xs, 1);
    ErrorMomentIs(xs, ys, v, 0);
    ErrorMomentIs(xs, ys, v, 1);
    LineGap(xs, ys, v, ZERO);
    ZerosResidual(xs, v);
    ZerosResidual(xs, ZERO);
    SquareSumZero(xs);
    ZeroSquareSum(xs, v);
  }

  lemma LineEval(p: real, q: real, x: real)
    ensures Eval([p, q, 0.0], x) == p + q * x
  {
  }

  lemma NullDot(g: Row, n: real, sx: real, sxx: real)
    ensures g[0] == n && g[1] == sx ==> Dot(g, [sx, 0.0 - n, 0.0]) == 0.0
    ensures g[0] == sx && g[1] == sxx ==> Dot(g, [sx, 0.0 - n, 0.0]) == 0.0 - (n * sxx - sx * sx)
  {
  }

  lemma ZeroDenominatorMeansOne(xs: seq<real>, p: real, q: real)
    requires Denominator(xs) == 0.0 && p in xs && q in xs
    ensures p == q
  {
    CountMoment(xs);
    var n, sx, sxx := |xs| as real, Moment(xs, 1), Moment(xs, 2);
    var v: Row := [sx, 0.0 - n, 0.0];
    NullDot(GramRow(xs, 0), n, sx, sxx);
    NullDot(GramRow(xs, 1), n, sx, sxx);
    LineNullVanishes(xs, v);
    LineEval(sx, 0.0 - n, p);
    LineEval(sx, 0.0 - n, q);
    CancelCount(n, p, q);
  }

  lemma OneAbscissa(xs: seq<real>, p: real)
    requires forall x :: x in xs ==> x == p
    ensures Denominator(xs) == 0.0
  {
    CountMoment(xs);
    var v: Row := [p, 0.0 - 1.0, 0.0];
    forall x | x in xs
      ensures Eval(v, x) == 0.0
    {
      LineEval(p, 0.0 - 1.0, x);
    }
    VanishingIsNull(xs, v, 0);
    VanishingIsNull(xs, v, 1);
    DotOfLine(GramRow(xs, 0), v);
    DotOfLine(GramRow(xs, 1), v);
    SameAbscissa(|xs| as real, Moment(xs, 1), Moment(xs, 2), p);
  }

  /** The closed form divides by zero exactly when the data have fewer than two distinct abscissae. */
  lemma DenominatorZero(xs: seq<real>)
    ensures Denominator(xs) == 0.0 <==> |Elements(xs)| < 2
  {
    if |Elements(xs)| < 2 {
      var p := if xs == [] then 0.0 else xs[0];
      if xs != [] {
        OneElement(xs, p);
      }
      OneAbscissa(xs, p);
    } else {
      var p := PickFrom(xs, {});
      var q := PickFrom(xs, {p});
      if Denominator(xs) == 0.0 {
        ZeroDenominatorMeansOne(xs, p, q);
      }
    }
  }

  lemma CancelCount(n: real, p: real, q: real)
    requires n > 0.0 && (0.0 - n) * p == (0.0 - n) * q
    ensures p == q
  {
    assert n * (p - q) == 0.0;
    NoZeroDivisors(n, p - q);
  }

  lemma SameAbscissa(n: real, sx: real, sxx: real, p: real)
    requires n * p == sx && sx * p == sxx
    ensures n * sxx - sx * sx == 0.0
  {
    assert n * (sx * p) == sx * (n * p);
  }

  lemma OneElement(xs: seq<real>, p: real)
    requires p in xs && |Elements(xs)| < 2
    ensures forall x :: x in xs ==> x == p
  {
    forall x | x in xs
      ensures x == p
    {
      if x != p {
        SubsetCardinality({x, p}, Elements(xs));
      }
    }
  }

  /** The closed-form slope and intercept satisfy both normal equations of a line. */
  lemma LineSolves(n: real, sx: real, sxx: real, sy: real, sxy: real, slope: real, intercept: real)
    requires n > 0.0
    requires slope * (n * sxx - sx * sx) == n * sxy - sx * sy
    requires n * intercept == sy - slope * sx
    ensures n * intercept + sx * slope == sy
    ensures sx * intercept + sxx * slope == sxy
  {
    calc {
      n * (sx * intercept + sxx * slope);
      sx * (n * intercept) + slope * (n * sxx);
      sx * (sy - slope * sx) + slope * (n * sxx);
      sx * sy + slope * (n * sxx - sx * sx);
      n * sxy;
    }
    assert n * (sx * intercept + sxx * slope - sxy) == 0.0;
    NoZeroDivisors(n, sx * intercept + sxx * slope - sxy);
  }

  lemma Quotient(a: real, b: real)
    requires b != 0.0
    ensures a / b * b == a && b * (a / b) == a
  {
  }

  // ----- the fit -----

  /** No polynomial of the same degree has a smaller residual, and any other one has a larger residual. */
  ghost predicate BestFit(xs: seq<real>, ys: seq<real>, c: seq<real>)
    requires |xs| == |ys| && (|c| == 2 || |c| == 3)
  {
    forall b: seq<real> :: |b| == |c| ==>
      && Residual(xs, ys, Padded(c)) <= Residual(xs, ys, Padded(b))
      && (Residual(xs, ys, Padded(c)) == Residual(xs, ys, Padded(b)) ==> b == c)
  }

  lemma MinusZero(a: Row, b: Row)
    requires Minus(b, a) == ZERO
    ensures a == b
  {
    assert b[0] - a[0] == ZERO[0] && b[1] - a[1] == ZERO[1] && b[2] - a[2] == ZERO[2];
  }

  lemma ParabolaIsBest(xs: seq<real>, ys: seq<real>, c: Row)
    requires |xs| == |ys| && |Elements(xs)| >= 3
    requires Solves(Gram(xs), Moments(xs, ys), c)
    ensures BestFit(xs, ys, c)
  {
    assert Padded(c) == c;
    ErrorsVanish(xs, ys, c);
    var p, q, r := ThreeDistinct(xs);
    forall b: seq<real> | |b| == 3
      ensures Residual(xs, ys, Padded(c)) <= Residual(xs, ys, Padded(b))
      ensures Residual(xs, ys, Padded(c)) == Residual(xs, ys, Padded(b)) ==> b == c
    {
      assert Padded(b) == b;
      SolutionGap(xs, ys, c, b);
      if SquareSum(xs, Minus(b, c)) == 0.0 {
        ZeroSquareSum(xs, Minus(b, c));
        ThreeRoots(Minus(b, c), p, q, r);
        MinusZero(c, b);
      }
    }
  }

  /** A line with two roots is zero. */
  lemma TwoRoots(v: Row, p: real, q: real)
    requires v[2] == 0.0 && p != q && Eval(v, p) == Eval(v, q) == 0.0
    ensures v == ZERO
  {
    EvalDifference(v, p, q);
    NoZeroDivisors(p - q, v[1] + v[2] * (p + q));
    assert v[1] == 0.0;
    assert Eval(v, p) == v[0];
  }

  lemma LineIsBest(xs: seq<real>, ys: seq<real>, c: seq<real>)
    requires |xs| == |ys| && |Elements(xs)| >= 2 && |c| == 2
    requires ErrorMoment(xs, ys, Padded(c), 0) == ErrorMoment(xs, ys, Padded(c), 1) == 0.0
    ensures BestFit(xs, ys, c)
  {
    var p := PickFrom(xs, {});
    var q := PickFrom(xs, {p});
    forall b: seq<real> | |b| == 2
      ensures Residual(xs, ys, Padded(c)) <= Residual(xs, ys, Padded(b))
      ensures Residual(xs, ys, Padded(c)) == Residual(xs, ys, Padded(b)) ==> b == c
    {
      LineGap(xs, ys, Padded(c), Padded(b));
      if SquareSum(xs, Minus(Padded(b), Padded(c))) == 0.0 {
        ZeroSquareSum(xs, Minus(Padded(b), Padded(c)));
        TwoRoots(Minus(Padded(b), Padded(c)), p, q);
        MinusZero(Padded(c), Padded(b));
        assert b == c;
      }
    }
  }

  /** The explained fraction of the spread about the mean lies between 0 and 1 for any best fit. */
  lemma DeterminationBounds(xs: seq<real>, ys: seq<real>, c: seq<real>, mean: real)
    requires |xs| == |ys| && (|c| == 2 || |c| == 3) && BestFit(xs, ys, c)
    ensures 0.0 <= Residual(xs, ys, Padded(c)) <= Spread(ys, mean)
    ensures Spread(ys, mean) != 0.0 ==> 0.0 <= 1.0 - Residual(xs, ys, Padded(c)) / Spread(ys, mean) <= 1.0
  {
    SpreadIsResidual(xs, ys, mean);
    var flat := if |c| == 2 then [mean, 0.0] else [mean, 0.0, 0.0];
    assert Padded(flat) == [mean, 0.0, 0.0];
    var r, t := Residual(xs, ys, Padded(c)), Spread(ys, mean);
    assert r <= t;
    if t != 0.0 {
      Fraction(r, t);
    }
  }

  lemma Fraction(r: real, t: real)
    requires 0.0 <= r <= t && t != 0.0
    ensures 0.0 <= r / t <= 1.0
  {
    assert r / t * t == r;
  }

  lemma LineError(xs: seq<real>, ys: seq<real>, v: Row, i: nat, m0: real, m1: real, t: real, a: real, b: real)
    requires |xs| == |ys|
    requires m0 == Moment(xs, i) && m1 == Moment(xs, i + 1) && t == Mixed(xs, ys, i)
    requires v == [a, b, 0.0] && m0 * a + m1 * b == t
    ensures ErrorMoment(xs, ys, v, i) == 0.0
  {
    ErrorMomentIs(xs, ys, v, i);
    DotOfLine(GramRow(xs, i), v);
  }

  lemma NormalLineIsBest(xs: seq<real>, ys: seq<real>, n: real, sx: real, sxx: real, sy: real, sxy: real,
                         slope: real, intercept: real)
    requires |xs| == |ys| && |Elements(xs)| >= 2
    requires n == Moment(xs, 0) && sx == Moment(xs, 1) && sxx == Moment(xs, 2)
    requires sy == Mixed(xs, ys, 0) && sxy == Mixed(xs, ys, 1)
    requires n * intercept + sx * slope == sy
    requires sx * intercept + sxx * slope == sxy
    ensures BestFit(xs, ys, [intercept, slope])
  {
    var c: seq<real> := [intercept, slope];
    LineError(xs, ys, Padded(c), 0, n, sx, sy, intercept, slope);
    LineError(xs, ys, Padded(c), 1, sx, sxx, sxy, intercept, slope);
    LineIsBest(xs, ys, c);
  }

  /** The closed form on the five sums. */
  method ClosedForm(n: real, sx: real, sxx: real, sy: real, sxy: real) returns (slope: real, intercept: real)
    requires n > 0.0 && n * sxx - sx * sx != 0.0
    ensures n * intercept + sx * slope == sy
    ensures sx * intercept + sxx * slope == sxy
  {
    var denominator := n * sxx - sx * sx;
    var numerator := n * sxy - sx * sy;
    slope := numerator / denominator;
    var rest := sy - slope * sx;
    intercept := rest / n;
    Quotient(numerator, denominator);
    Quotient(rest, n);
    LineSolves(n, sx, sxx, sy, sxy, slope, intercept);
  }

  method FitLine(xs: seq<real>, ys: seq<real>) returns (c: seq<real>)
    requires |xs| == |ys|
    ensures |Elements(xs)| < 2 ==> c == []
    ensures |Elements(xs)| >= 2 ==> |c| == 2 && BestFit(xs, ys, c)
  {
    DenominatorZero(xs);
    ElementsAtMost(xs);
    if Denominator(xs) == 0.0 {
      return [];
    }
    CountMoment(xs);
    SumIsMixed(xs, ys);
    var n, sx, sxx, sy, sxy := |xs| as real, Moment(xs, 1), Moment(xs, 2), Sum(ys), Mixed(xs, ys, 1);
    var slope, intercept := ClosedForm(n, sx, sxx, sy, sxy);
    c := [intercept, slope];
    NormalLineIsBest(xs, ys, n, sx, sxx, sy, sxy, slope, intercept);
  }

  method FitParabola(xs: seq<real>, ys: seq<real>) returns (c: seq<real>)
    requires |xs| == |ys|
    ensures |Elements(xs)| < 3 ==> c == []
    ensures |Elements(xs)| >= 3 ==> |c| == 3 && BestFit(xs, ys, c)
  {
    var matrix := new Row[3](i => ZERO);
    var target := new real[3](i => 0.0);
    for i := 0 to 3
      invariant forall k :: 0 <= k < i ==> matrix[k] == GramRow(xs, k) && target[k] == Mixed(xs, ys, k)
    {
      matrix[i] := GramRow(xs, i);
      target[i] := Mixed(xs, ys, i);
    }
    assert matrix[..] == Gram(xs);
    assert target[..] == Moments(xs, ys);
    GramSingular(xs);
    var ok := GaussJordan.Eliminate(matrix, target);
    forall v: Row
      ensures GaussJordan.AllHold(Gram(xs), Moments(xs, ys), v) <==> Solves(Gram(xs), Moments(xs, ys), v)
      ensures GaussJordan.AllHold(Gram(xs), ZERO, v) <==> Solves(Gram(xs), ZERO, v)
    {
      GaussJordan.AllHoldIsSolves(Gram(xs), Moments(xs, ys), v);
      GaussJordan.AllHoldIsSolves(Gram(xs), ZERO, v);
    }
    if !ok {
      return [];
    }
    c := target[..];
    ParabolaIsBest(xs, ys, c);
  }

  /** _fit; None stands for the ZeroDivisionError of degenerate data. Any degree other than 1 fits a parabola. */
  method FitPolynomial(xs: seq<real>, ys: seq<real>, degree: int) returns (r: Option<Fit>)
    requires |xs| == |ys|
    ensures r.None? <==> |Elements(xs)| < if degree == 1 then 2 else 3
    ensures r.Some? ==>
      var c, mean := r.value.coefficients, Sum(ys) / |ys| as real;
      && |c| == (if degree == 1 then 2 else 3)
      && BestFit(xs, ys, c)
      && r.value.r2 == (if Spread(ys, mean) == 0.0 then 1.0 else 1.0 - Residual(xs, ys, Padded(c)) / Spread(ys, mean))
      && 0.0 <= r.value.r2 <= 1.0
  {
    var c: seq<real>;
    if degree == 1 {
      c := FitLine(xs, ys);
    } else {
      c := FitParabola(xs, ys);
    }
    if c == [] {
      return None;
    }
    ElementsAtMost(xs);
    var mean := Sum(ys) / |ys| as real;
    var residual, total := Residual(xs, ys, Padded(c)), Spread(ys, mean);
    DeterminationBounds(xs, ys, c, mean);
    r := Some(Fit(c, if total == 0.0 then 1.0 else 1.0 - residual / total));
  }

  /** On the same data a parabola never explains less than a line. */
  lemma ParabolaExplainsMore(xs: seq<real>, ys: seq<real>, line: seq<real>, parabola: seq<real>)
    requires |xs| == |ys| && |line| == 2 && |parabola| == 3
    requires BestFit(xs, ys, line) && BestFit(xs, ys, parabola)
    ensures Residual(xs, ys, Padded(parabola)) <= Residual(xs, ys, Padded(line))
  {
    var padded: seq<real> := Padded(line);
    assert Padded(padded) == padded;
  }
}
