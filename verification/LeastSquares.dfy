/** What a least-squares fit is: sums over the data, the normal equations, and why they minimise the residual. */
module LeastSquares {
  import opened Collections

  /** A row of the 3 x 3 system, or the ascending coefficients of a polynomial of degree at most 2. */
  type Row = r: seq<real> | |r| == 3 witness [0.0, 0.0, 0.0]

  const ZERO: Row := [0.0, 0.0, 0.0]

  function Dot(r: Row, v: Row): real {
    r[0] * v[0] + r[1] * v[1] + r[2] * v[2]
  }

  function Pow(x: real, k: nat): real {
    if k == 0 then 1.0 else x * Pow(x, k - 1)
  }

  function Eval(v: Row, x: real): real {
    v[0] + v[1] * x + v[2] * x * x
  }

  /** The sum of x ** k. */
  function Moment(xs: seq<real>, k: nat): real {
    if xs == [] then 0.0 else Pow(xs[0], k) + Moment(xs[1..], k)
  }

  /** The sum of y * x ** k. */
  function Mixed(xs: seq<real>, ys: seq<real>, k: nat): real
    requires |xs| == |ys|
  {
    if xs == [] then 0.0 else ys[0] * Pow(xs[0], k) + Mixed(xs[1..], ys[1..], k)
  }

  /** The errors of a polynomial on the data. */
  function Errors(xs: seq<real>, ys: seq<real>, v: Row): (es: seq<real>)
    requires |xs| == |ys|
    ensures |es| == |xs|
  {
    if xs == [] then [] else [ys[0] - Eval(v, xs[0])] + Errors(xs[1..], ys[1..], v)
  }

  /** The values of a polynomial on the data. */
  function Values(xs: seq<real>, v: Row): (ds: seq<real>)
    ensures |ds| == |xs|
  {
    if xs == [] then [] else [Eval(v, xs[0])] + Values(xs[1..], v)
  }

  lemma SameSign(a: real, b: real, r: real)
    requires r == a * b && ((a > 0.0 && b > 0.0) || (a < 0.0 && b < 0.0))
    ensures r > 0.0
  {
  }

  function Square(a: real): (r: real)
    ensures r >= 0.0
    ensures a != 0.0 ==> r > 0.0
  {
    var r := a * a;
    if a != 0.0 then SameSign(a, a, r); r else r
  }

  function Squares(es: seq<real>): (r: real)
    ensures r >= 0.0
  {
    if es == [] then 0.0 else Square(es[0]) + Squares(es[1..])
  }

  /** The sum of the squared errors. */
  function Residual(xs: seq<real>, ys: seq<real>, v: Row): (r: real)
    requires |xs| == |ys|
    ensures r >= 0.0
  {
    Squares(Errors(xs, ys, v))
  }

  /** The sum of the squared values of a polynomial on the data. */
  function SquareSum(xs: seq<real>, v: Row): (r: real)
    ensures r >= 0.0
  {
    Squares(Values(xs, v))
  }

  function GramRow(xs: seq<real>, i: nat): Row {
    [Moment(xs, i), Moment(xs, i + 1), Moment(xs, i + 2)]
  }

  /** The normal equations, the system that the elimination is given. */
  function Gram(xs: seq<real>): seq<Row> {
    [GramRow(xs, 0), GramRow(xs, 1), GramRow(xs, 2)]
  }

  function Moments(xs: seq<real>, ys: seq<real>): Row
    requires |xs| == |ys|
  {
    [Mixed(xs, ys, 0), Mixed(xs, ys, 1), Mixed(xs, ys, 2)]
  }

  predicate Solves(m: seq<Row>, t: Row, v: Row)
    requires |m| == 3
  {
    Dot(m[0], v) == t[0] && Dot(m[1], v) == t[1] && Dot(m[2], v) == t[2]
  }

  // ----- sums against the residual errors -----

  /** The sum of x ** i times the error there. */
  function Weighted(xs: seq<real>, es: seq<real>, i: nat): real
    requires |xs| == |es|
  {
    if xs == [] then 0.0 else Pow(xs[0], i) * es[0] + Weighted(xs[1..], es[1..], i)
  }

  function ErrorMoment(xs: seq<real>, ys: seq<real>, v: Row, i: nat): real
    requires |xs| == |ys|
  {
    Weighted(xs, Errors(xs, ys, v), i)
  }

  function PowRow(x: real, i: nat): Row {
    [Pow(x, i), Pow(x, i + 1), Pow(x, i + 2)]
  }

  function Plus(a: Row, b: Row): Row {
    [a[0] + b[0], a[1] + b[1], a[2] + b[2]]
  }

  lemma DotZero(v: Row)
    ensures Dot(ZERO, v) == 0.0
  {
  }

  lemma DotPlus(a: Row, b: Row, v: Row)
    ensures Dot(Plus(a, b), v) == Dot(a, v) + Dot(b, v)
  {
    assert (a[0] + b[0]) * v[0] == a[0] * v[0] + b[0] * v[0];
    assert (a[1] + b[1]) * v[1] == a[1] * v[1] + b[1] * v[1];
    assert (a[2] + b[2]) * v[2] == a[2] * v[2] + b[2] * v[2];
  }

  lemma PowRowDot(x: real, i: nat, v: Row)
    ensures Dot(PowRow(x, i), v) == Pow(x, i) * Eval(v, x)
  {
    var p := Pow(x, i);
    assert Pow(x, i + 1) == x * p && Pow(x, i + 2) == x * (x * p);
    assert p * (v[1] * x) == (x * p) * v[1];
    assert p * (v[2] * x * x) == (x * (x * p)) * v[2];
  }

  lemma Distribute(p: real, y: real, e: real)
    ensures p * (y - e) == y * p - p * e
  {
  }

  lemma GramRowCons(xs: seq<real>, i: nat)
    requires xs != []
    ensures GramRow(xs, i) == Plus(PowRow(xs[0], i), GramRow(xs[1..], i))
  {
  }

  /** Solving the normal equations means that the errors are orthogonal to 1, x and x ** 2. */
  lemma {:induction false} ErrorMomentIs(xs: seq<real>, ys: seq<real>, v: Row, i: nat)
    requires |xs| == |ys|
    ensures ErrorMoment(xs, ys, v, i) == Mixed(xs, ys, i) - Dot(GramRow(xs, i), v)
  {
    if xs != [] {
      ErrorMomentIs(xs[1..], ys[1..], v, i);
      GramRowCons(xs, i);
      DotPlus(PowRow(xs[0], i), GramRow(xs[1..], i), v);
      PowRowDot(xs[0], i, v);
      Distribute(Pow(xs[0], i), ys[0], Eval(v, xs[0]));
    }
  }

  function Minus(a: Row, b: Row): Row {
    [a[0] - b[0], a[1] - b[1], a[2] - b[2]]
  }

  lemma EvalMinus(a: Row, b: Row, x: real)
    ensures Eval(Minus(a, b), x) == Eval(a, x) - Eval(b, x)
  {
    assert (a[1] - b[1]) * x == a[1] * x - b[1] * x;
    assert (a[2] - b[2]) * x * x == a[2] * x * x - b[2] * x * x;
  }

  function Inner(es: seq<real>, ds: seq<real>): real
    requires |es| == |ds|
  {
    if es == [] then 0.0 else es[0] * ds[0] + Inner(es[1..], ds[1..])
  }

  function Less(es: seq<real>, ds: seq<real>): (fs: seq<real>)
    requires |es| == |ds|
    ensures |fs| == |es|
  {
    if es == [] then [] else [es[0] - ds[0]] + Less(es[1..], ds[1..])
  }

  lemma SquareOfLess(e: real, d: real)
    ensures Square(e - d) == Square(e) - 2.0 * (e * d) + Square(d)
  {
  }

  /** The squares of differences, expanded. */
  lemma {:induction false} SquaresOfLess(es: seq<real>, ds: seq<real>)
    requires |es| == |ds|
    ensures Squares(Less(es, ds)) == Squares(es) - 2.0 * Inner(es, ds) + Squares(ds)
  {
    if es != [] {
      SquaresOfLess(es[1..], ds[1..]);
      SquareOfLess(es[0], ds[0]);
    }
  }

  lemma {:induction false} ErrorsDiffer(xs: seq<real>, ys: seq<real>, a: Row, b: Row)
    requires |xs| == |ys|
    ensures Errors(xs, ys, b) == Less(Errors(xs, ys, a), Values(xs, Minus(b, a)))
  {
    if xs != [] {
      ErrorsDiffer(xs[1..], ys[1..], a, b);
      EvalMinus(b, a, xs[0]);
    }
  }

  function PowerError(x: real, e: real, i: nat): real {
    Pow(x, i) * e
  }

  function ErrorRow(x: real, e: real): Row {
    [PowerError(x, e, 0), PowerError(x, e, 1), PowerError(x, e, 2)]
  }

  function WeightedRow(xs: seq<real>, es: seq<real>): Row
    requires |xs| == |es|
  {
    [Weighted(xs, es, 0), Weighted(xs, es, 1), Weighted(xs, es, 2)]
  }

  lemma ErrorRowDot(x: real, e: real, d: Row)
    ensures Dot(ErrorRow(x, e), d) == e * Eval(d, x)
  {
    assert Pow(x, 0) == 1.0 && Pow(x, 1) == x && Pow(x, 2) == x * x;
    assert (x * e) * d[1] == e * (d[1] * x);
    assert ((x * x) * e) * d[2] == e * (d[2] * x * x);
  }

  lemma WeightedCons(xs: seq<real>, es: seq<real>, i: nat)
    requires |xs| == |es| && xs != []
    ensures Weighted(xs, es, i) == PowerError(xs[0], es[0], i) + Weighted(xs[1..], es[1..], i)
  {
  }

  lemma WeightedRowCons(xs: seq<real>, es: seq<real>)
    requires |xs| == |es| && xs != []
    ensures WeightedRow(xs, es) == Plus(ErrorRow(xs[0], es[0]), WeightedRow(xs[1..], es[1..]))
  {
    WeightedCons(xs, es, 0);
    WeightedCons(xs, es, 1);
    WeightedCons(xs, es, 2);
  }

  /** The errors against the values of a polynomial, through the sums of the errors times 1, x and x ** 2. */
  lemma {:induction false} InnerIsDot(xs: seq<real>, es: seq<real>, d: Row)
    requires |xs| == |es|
    ensures Inner(es, Values(xs, d)) == Dot(WeightedRow(xs, es), d)
  {
    if xs == [] {
      DotZero(d);
    } else {
      InnerIsDot(xs[1..], es[1..], d);
      WeightedRowCons(xs, es);
      DotPlus(ErrorRow(xs[0], es[0]), WeightedRow(xs[1..], es[1..]), d);
      ErrorRowDot(xs[0], es[0], d);
    }
  }

  function ErrorMoments(xs: seq<real>, ys: seq<real>, v: Row): Row
    requires |xs| == |ys|
  {
    [ErrorMoment(xs, ys, v, 0), ErrorMoment(xs, ys, v, 1), ErrorMoment(xs, ys, v, 2)]
  }

  /** Residuals of two polynomials, compared through the errors of the first. */
  lemma ResidualExpands(xs: seq<real>, ys: seq<real>, a: Row, b: Row)
    requires |xs| == |ys|
    ensures Residual(xs, ys, b) ==
            Residual(xs, ys, a) + SquareSum(xs, Minus(b, a)) - 2.0 * Dot(ErrorMoments(xs, ys, a), Minus(b, a))
  {
    ErrorsDiffer(xs, ys, a, b);
    SquaresOfLess(Errors(xs, ys, a), Values(xs, Minus(b, a)));
    InnerIsDot(xs, Errors(xs, ys, a), Minus(b, a));
  }

  /** A solution of the normal equations leaves no error correlated with 1, x or x ** 2. */
  lemma ErrorsVanish(xs: seq<real>, ys: seq<real>, a: Row)
    requires |xs| == |ys| && Solves(Gram(xs), Moments(xs, ys), a)
    ensures ErrorMoments(xs, ys, a) == ZERO
  {
    ErrorMomentIs(xs, ys, a, 0);
    ErrorMomentIs(xs, ys, a, 1);
    ErrorMomentIs(xs, ys, a, 2);
  }

  /** Such a solution beats every polynomial of degree at most 2 by the squared distance between them on the data. */
  lemma SolutionGap(xs: seq<real>, ys: seq<real>, a: Row, b: Row)
    requires |xs| == |ys| && ErrorMoments(xs, ys, a) == ZERO
    ensures Residual(xs, ys, b) == Residual(xs, ys, a) + SquareSum(xs, Minus(b, a))
  {
    DotZero(Minus(b, a));
    ResidualExpands(xs, ys, a, b);
  }

  // ----- when the system is singular -----

  lemma NonzeroProduct(a: real, b: real)
    requires a != 0.0 && b != 0.0
    ensures a * b != 0.0
  {
    assert (a * b) / b == a;
  }

  lemma {:induction false} ZeroSquareSum(xs: seq<real>, v: Row)
    requires SquareSum(xs, v) == 0.0
    ensures forall x :: x in xs ==> Eval(v, x) == 0.0
  {
    if xs != [] {
      ZeroSquareSum(xs[1..], v);
      assert Square(Values(xs, v)[0]) == 0.0;
    }
  }

  lemma {:induction false} VanishingIsNull(xs: seq<real>, v: Row, i: nat)
    requires forall x :: x in xs ==> Eval(v, x) == 0.0
    ensures Dot(GramRow(xs, i), v) == 0.0
  {
    if xs == [] {
      DotZero(v);
    } else {
      VanishingIsNull(xs[1..], v, i);
      GramRowCons(xs, i);
      DotPlus(PowRow(xs[0], i), GramRow(xs[1..], i), v);
      PowRowDot(xs[0], i, v);
    }
  }

  function Zeros(n: nat): (r: seq<real>)
    ensures |r| == n
  {
    if n == 0 then [] else [0.0] + Zeros(n - 1)
  }

  lemma {:induction false} ZerosMixed(xs: seq<real>, k: nat)
    ensures Mixed(xs, Zeros(|xs|), k) == 0.0
  {
    if xs != [] {
      ZerosMixed(xs[1..], k);
      assert Zeros(|xs|)[1..] == Zeros(|xs[1..]|);
    }
  }

  lemma {:induction false} ZerosResidual(xs: seq<real>, v: Row)
    ensures Residual(xs, Zeros(|xs|), v) == SquareSum(xs, v)
  {
    if xs != [] {
      ZerosResidual(xs[1..], v);
      assert Zeros(|xs|)[1..] == Zeros(|xs[1..]|);
      assert Square(0.0 - Eval(v, xs[0])) == Square(Eval(v, xs[0]));
    }
  }

  lemma EvalZero(x: real)
    ensures Eval(ZERO, x) == 0.0
  {
  }

  lemma {:induction false} SquareSumZero(xs: seq<real>)
    ensures SquareSum(xs, ZERO) == 0.0
  {
    if xs != [] {
      EvalZero(xs[0]);
      SquareSumZero(xs[1..]);
    }
  }

  /** A null vector of the Gram matrix is a polynomial that vanishes on all the data, and conversely. */
  lemma NullIsVanishing(xs: seq<real>, v: Row)
    ensures Solves(Gram(xs), ZERO, v) <==> forall x :: x in xs ==> Eval(v, x) == 0.0
  {
    if Solves(Gram(xs), ZERO, v) {
      var ys := Zeros(|xs|);
      ZerosMixed(xs, 0);
      ZerosMixed(xs, 1);
      ZerosMixed(xs, 2);
      assert Moments(xs, ys) == ZERO;
      ErrorsVanish(xs, ys, v);
      SolutionGap(xs, ys, v, ZERO);
      ZerosResidual(xs, v);
      ZerosResidual(xs, ZERO);
      SquareSumZero(xs);
      ZeroSquareSum(xs, v);
    } else if forall x :: x in xs ==> Eval(v, x) == 0.0 {
      VanishingIsNull(xs, v, 0);
      VanishingIsNull(xs, v, 1);
      VanishingIsNull(xs, v, 2);
    }
  }

  lemma NoZeroDivisors(a: real, b: real)
    requires a * b == 0.0 && a != 0.0
    ensures b == 0.0
  {
    if b != 0.0 {
      NonzeroProduct(a, b);
    }
  }

  lemma EvalDifference(v: Row, p: real, q: real)
    ensures Eval(v, p) - Eval(v, q) == (p - q) * (v[1] + v[2] * (p + q))
  {
    assert (p - q) * v[1] == v[1] * p - v[1] * q;
    assert (p - q) * (p + q) == p * p - q * q;
    assert (p - q) * (v[2] * (p + q)) == v[2] * ((p - q) * (p + q)) == v[2] * (p * p) - v[2] * (q * q);
  }

  /** A polynomial of degree at most 2 with three roots is zero. */
  lemma ThreeRoots(v: Row, p: real, q: real, r: real)
    requires p != q && p != r && q != r
    requires Eval(v, p) == Eval(v, q) == Eval(v, r) == 0.0
    ensures v == ZERO
  {
    EvalDifference(v, p, q);
    EvalDifference(v, p, r);
    NoZeroDivisors(p - q, v[1] + v[2] * (p + q));
    NoZeroDivisors(p - r, v[1] + v[2] * (p + r));
    assert v[2] * (p + q) - v[2] * (p + r) == (q - r) * v[2];
    NoZeroDivisors(q - r, v[2]);
    assert v[2] == 0.0 && v[1] == 0.0;
    assert Eval(v, p) == v[0];
  }

  lemma TwoPointsHaveAQuadratic(p: real, q: real)
    ensures Eval([p * q, 0.0 - (p + q), 1.0], p) == 0.0
    ensures Eval([p * q, 0.0 - (p + q), 1.0], q) == 0.0
  {
  }

  lemma ThreeDistinct(xs: seq<real>) returns (p: real, q: real, r: real)
    requires |Elements(xs)| >= 3
    ensures p in xs && q in xs && r in xs && p != q && p != r && q != r
  {
    p := PickFrom(xs, {});
    q := PickFrom(xs, {p});
    r := PickFrom(xs, {p, q});
  }

  lemma PickFrom(xs: seq<real>, but: set<real>) returns (x: real)
    requires |Elements(xs)| > |but|
    ensures x in xs && x !in but
  {
    if forall y :: y in xs ==> y in but {
      SubsetCardinality(Elements(xs), but);
      assert false;
    }
    x :| x in xs && x !in but;
  }

  lemma AtMostTwo(xs: seq<real>) returns (p: real, q: real)
    requires |Elements(xs)| <= 2
    ensures forall x :: x in xs ==> x == p || x == q
  {
    p, q := 0.0, 0.0;
    if xs != [] {
      p, q := xs[0], xs[0];
      if x :| x in xs && x != p {
        q := x;
        forall y | y in xs
          ensures y == p || y == q
        {
          if y != p && y != q {
            SubsetCardinality({p, q, y}, Elements(xs));
            assert false;
          }
        }
      }
    }
  }

  /** The normal equations of degree 2 are singular exactly when the data have fewer than three distinct abscissae. */
  lemma GramSingular(xs: seq<real>)
    ensures (exists v: Row :: v != ZERO && Solves(Gram(xs), ZERO, v)) <==> |Elements(xs)| < 3
  {
    if |Elements(xs)| < 3 {
      var p, q := AtMostTwo(xs);
      var v: Row := [p * q, 0.0 - (p + q), 1.0];
      TwoPointsHaveAQuadratic(p, q);
      NullIsVanishing(xs, v);
      assert v[2] != ZERO[2];
    } else {
      var p, q, r := ThreeDistinct(xs);
      forall v: Row | Solves(Gram(xs), ZERO, v)
        ensures v == ZERO
      {
        NullIsVanishing(xs, v);
        ThreeRoots(v, p, q, r);
      }
    }
  }
}
