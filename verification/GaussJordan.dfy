/** In-place Gauss-Jordan elimination with partial pivoting (src/karc/bench/e10_horizon_execution.py). */
module GaussJordan {
  import opened LeastSquares

  function Scaled(r: Row, s: real): Row
    requires s != 0.0
  {
    [r[0] / s, r[1] / s, r[2] / s]
  }

  function Reduced(r: Row, factor: real, q: Row): Row {
    [r[0] - factor * q[0], r[1] - factor * q[1], r[2] - factor * q[2]]
  }

  lemma DotScaled(r: Row, s: real, v: Row)
    requires s != 0.0
    ensures Dot(Scaled(r, s), v) == Dot(r, v) / s
  {
    assert r[0] / s * v[0] == r[0] * v[0] / s;
    assert r[1] / s * v[1] == r[1] * v[1] / s;
    assert r[2] / s * v[2] == r[2] * v[2] / s;
  }

  lemma DotReduced(r: Row, factor: real, q: Row, v: Row)
    ensures Dot(Reduced(r, factor, q), v) == Dot(r, v) - factor * Dot(q, v)
  {
    assert (r[0] - factor * q[0]) * v[0] == r[0] * v[0] - factor * (q[0] * v[0]);
    assert (r[1] - factor * q[1]) * v[1] == r[1] * v[1] - factor * (q[1] * v[1]);
    assert (r[2] - factor * q[2]) * v[2] == r[2] * v[2] - factor * (q[2] * v[2]);
    assert factor * Dot(q, v) == factor * (q[0] * v[0]) + factor * (q[1] * v[1]) + factor * (q[2] * v[2]);
  }

  predicate RowHolds(r: Row, t: real, v: Row) {
    Dot(r, v) == t
  }

  lemma ScaledHolds(r: Row, t: real, s: real, v: Row)
    requires s != 0.0
    ensures RowHolds(Scaled(r, s), t / s, v) <==> RowHolds(r, t, v)
  {
    DotScaled(r, s, v);
    var d := Dot(r, v);
    assert d / s * s == d && t / s * s == t;
  }

  lemma ReducedHolds(r: Row, t: real, factor: real, q: Row, u: real, v: Row)
    requires RowHolds(q, u, v)
    ensures RowHolds(Reduced(r, factor, q), t - factor * u, v) <==> RowHolds(r, t, v)
  {
    DotReduced(r, factor, q, v);
  }

  ghost predicate AllHold(m: seq<Row>, t: seq<real>, v: Row)
    requires |m| == |t| == 3
  {
    forall i :: 0 <= i < 3 ==> RowHolds(m[i], t[i], v)
  }

  lemma AllHoldIsSolves(m: seq<Row>, t: Row, v: Row)
    requires |m| == 3
    ensures AllHold(m, t, v) <==> Solves(m, t, v)
  {
    if Solves(m, t, v) {
      assert RowHolds(m[0], t[0], v) && RowHolds(m[1], t[1], v) && RowHolds(m[2], t[2], v);
    }
  }

  /** The two systems have the same solutions, and so do their homogeneous versions. */
  ghost predicate Equivalent(m: seq<Row>, t: seq<real>, n: seq<Row>, u: seq<real>)
    requires |m| == |t| == |n| == |u| == 3
  {
    forall v: Row :: (AllHold(m, t, v) <==> AllHold(n, u, v)) && (AllHold(m, ZERO, v) <==> AllHold(n, ZERO, v))
  }

  lemma SwapEquivalent(m: seq<Row>, t: seq<real>, i: nat, j: nat)
    requires |m| == |t| == 3 && i < 3 && j < 3
    ensures Equivalent(m, t, m[i := m[j]][j := m[i]], t[i := t[j]][j := t[i]])
  {
    var n, u := m[i := m[j]][j := m[i]], t[i := t[j]][j := t[i]];
    forall v: Row
      ensures (AllHold(m, t, v) <==> AllHold(n, u, v)) && (AllHold(m, ZERO, v) <==> AllHold(n, ZERO, v))
    {
      SwapAt(m, t, i, j, v);
      SwapAt(m, ZERO, i, j, v);
      assert ZERO[i := ZERO[j]][j := ZERO[i]] == ZERO;
    }
  }

  lemma SwapAt(m: seq<Row>, t: seq<real>, i: nat, j: nat, v: Row)
    requires |m| == |t| == 3 && i < 3 && j < 3
    ensures AllHold(m, t, v) <==> AllHold(m[i := m[j]][j := m[i]], t[i := t[j]][j := t[i]], v)
  {
    var n, u := m[i := m[j]][j := m[i]], t[i := t[j]][j := t[i]];
    if AllHold(n, u, v) {
      forall k | 0 <= k < 3
        ensures RowHolds(m[k], t[k], v)
      {
        var l := if k == i then j else if k == j then i else k;
        assert RowHolds(n[l], u[l], v);
      }
    }
  }

  lemma ScaleEquivalent(m: seq<Row>, t: seq<real>, i: nat, s: real)
    requires |m| == |t| == 3 && i < 3 && s != 0.0
    ensures Equivalent(m, t, m[i := Scaled(m[i], s)], t[i := t[i] / s])
  {
    var n, u := m[i := Scaled(m[i], s)], t[i := t[i] / s];
    forall v: Row
      ensures (AllHold(m, t, v) <==> AllHold(n, u, v)) && (AllHold(m, ZERO, v) <==> AllHold(n, ZERO, v))
    {
      ScaleAt(m, t, i, s, v);
      ScaleAt(m, ZERO, i, s, v);
      assert 0.0 / s == 0.0;
      assert ZERO[i := ZERO[i] / s] == ZERO;
    }
  }

  lemma ScaleAt(m: seq<Row>, t: seq<real>, i: nat, s: real, v: Row)
    requires |m| == |t| == 3 && i < 3 && s != 0.0
    ensures AllHold(m, t, v) <==> AllHold(m[i := Scaled(m[i], s)], t[i := t[i] / s], v)
  {
    ScaledHolds(m[i], t[i], s, v);
    var n, u := m[i := Scaled(m[i], s)], t[i := t[i] / s];
    assert RowHolds(n[i], u[i], v) <==> RowHolds(m[i], t[i], v);
    assert forall k :: 0 <= k < 3 && k != i ==> n[k] == m[k] && u[k] == t[k];
    if AllHold(n, u, v) {
      forall k | 0 <= k < 3
        ensures RowHolds(m[k], t[k], v)
      {
        assert RowHolds(n[k], u[k], v);
      }
    }
  }

  /** The right-hand sides after a multiple of entry index is subtracted from another one. */
  function SidesReduced(t: seq<real>, row: nat, factor: real, index: nat): seq<real>
    requires row < |t| && index < |t|
  {
    t[row := t[row] - factor * t[index]]
  }

  lemma ZeroSides(i: nat, factor: real, j: nat)
    requires i < 3 && j < 3
    ensures SidesReduced(ZERO, i, factor, j) == ZERO
  {
    var x := ZERO[i] - factor * ZERO[j];
    assert ZERO[i] == 0.0 && ZERO[j] == 0.0;
    assert x == 0.0;
    assert ZERO[i := x] == ZERO;
  }

  lemma ReduceEquivalent(m: seq<Row>, t: seq<real>, i: nat, factor: real, j: nat)
    requires |m| == |t| == 3 && i < 3 && j < 3 && i != j
    ensures Equivalent(m, t, m[i := Reduced(m[i], factor, m[j])], SidesReduced(t, i, factor, j))
  {
    var n, u := m[i := Reduced(m[i], factor, m[j])], SidesReduced(t, i, factor, j);
    forall v: Row
      ensures (AllHold(m, t, v) <==> AllHold(n, u, v)) && (AllHold(m, ZERO, v) <==> AllHold(n, ZERO, v))
    {
      ReduceAt(m, t, i, factor, j, v);
      ReduceAt(m, ZERO, i, factor, j, v);
      ZeroSides(i, factor, j);
    }
  }

  lemma ReduceAt(m: seq<Row>, t: seq<real>, i: nat, factor: real, j: nat, v: Row)
    requires |m| == |t| == 3 && i < 3 && j < 3 && i != j
    ensures AllHold(m, t, v) <==> AllHold(m[i := Reduced(m[i], factor, m[j])], SidesReduced(t, i, factor, j), v)
  {
    var n, u := m[i := Reduced(m[i], factor, m[j])], SidesReduced(t, i, factor, j);
    assert forall k :: 0 <= k < 3 && k != i ==> n[k] == m[k] && u[k] == t[k];
    if RowHolds(m[j], t[j], v) {
      ReducedHolds(m[i], t[i], factor, m[j], t[j], v);
      assert RowHolds(n[i], u[i], v) <==> RowHolds(m[i], t[i], v);
      if AllHold(n, u, v) {
        forall k | 0 <= k < 3
          ensures RowHolds(m[k], t[k], v)
        {
          assert RowHolds(n[k], u[k], v);
        }
      }
    } else {
      assert !RowHolds(n[j], u[j], v);
    }
  }

  // ----- the shape of the matrix during elimination -----

  /** The first k columns are those of the identity. */
  ghost predicate UnitColumns(m: seq<Row>, k: nat)
    requires |m| == 3 && k <= 3
  {
    forall i, j :: 0 <= i < 3 && 0 <= j < k ==> m[i][j] == if i == j then 1.0 else 0.0
  }

  lemma IdentitySolved(m: seq<Row>, t: Row, v: Row)
    requires |m| == 3 && UnitColumns(m, 3)
    ensures AllHold(m, t, v) <==> v == t
  {
    AllHoldIsSolves(m, t, v);
    assert m[0] == [1.0, 0.0, 0.0] && m[1] == [0.0, 1.0, 0.0] && m[2] == [0.0, 0.0, 1.0];
    assert Dot(m[0], v) == v[0] && Dot(m[1], v) == v[1] && Dot(m[2], v) == v[2];
  }

  /** A column with no pivot gives a null vector. */
  lemma NoPivotIsNull(m: seq<Row>, k: nat) returns (v: Row)
    requires |m| == 3 && k < 3 && UnitColumns(m, k)
    requires forall i :: k <= i < 3 ==> m[i][k] == 0.0
    ensures v != ZERO && AllHold(m, ZERO, v)
  {
    if k == 0 {
      v := [1.0, 0.0, 0.0];
      assert v[0] != ZERO[0];
    } else if k == 1 {
      v := [0.0 - m[0][1], 1.0, 0.0];
      assert v[1] != ZERO[1];
    } else {
      v := [0.0 - m[0][2], 0.0 - m[1][2], 1.0];
      assert v[2] != ZERO[2];
    }
    assert Dot(m[0], v) == 0.0 && Dot(m[1], v) == 0.0 && Dot(m[2], v) == 0.0;
    AllHoldIsSolves(m, ZERO, v);
  }

  function Abs(a: real): real {
    if a < 0.0 then 0.0 - a else a
  }

  /** The first row from index on whose entry in that column is largest in absolute value. */
  method PivotRow(matrix: array<Row>, index: nat) returns (pivot: nat)
    requires matrix.Length == 3 && index < 3
    ensures index <= pivot < 3
    ensures forall i :: index <= i < 3 ==> Abs(matrix[i][index]) <= Abs(matrix[pivot][index])
    ensures forall i :: index <= i < pivot ==> Abs(matrix[i][index]) < Abs(matrix[pivot][index])
  {
    pivot := index;
    for row := index + 1 to 3
      invariant index <= pivot < row
      invariant forall i :: index <= i < row ==> Abs(matrix[i][index]) <= Abs(matrix[pivot][index])
      invariant forall i :: index <= i < pivot ==> Abs(matrix[i][index]) < Abs(matrix[pivot][index])
    {
      if Abs(matrix[row][index]) > Abs(matrix[pivot][index]) {
        pivot := row;
      }
    }
  }

  lemma EquivalentTrans(m: seq<Row>, t: seq<real>, n: seq<Row>, u: seq<real>, o: seq<Row>, w: seq<real>)
    requires |m| == |t| == |n| == |u| == |o| == |w| == 3
    requires Equivalent(m, t, n, u) && Equivalent(n, u, o, w)
    ensures Equivalent(m, t, o, w)
  {
  }

  lemma ReducedColumns(m: seq<Row>, row: nat, factor: real, index: nat)
    requires |m| == 3 && row < 3 && index < 3 && row != index
    requires UnitColumns(m, index) && m[index][index] == 1.0 && factor == m[row][index]
    ensures var n := m[row := Reduced(m[row], factor, m[index])];
      UnitColumns(n, index) && n[index][index] == 1.0 && n[row][index] == 0.0
  {
    var r, q := m[row], m[index];
    forall j | 0 <= j < index
      ensures Reduced(r, factor, q)[j] == r[j]
    {
      assert q[j] == 0.0;
    }
  }

  /** Subtracting row index from another row clears its entry there and changes no solution. */
  lemma ColumnStep(m0: seq<Row>, t0: seq<real>, m: seq<Row>, t: seq<real>, n: seq<Row>, u: seq<real>,
                   row: nat, factor: real, index: nat)
    requires |m0| == |t0| == |m| == |t| == 3 && row < 3 && index < 3 && row != index
    requires UnitColumns(m, index) && m[index][index] == 1.0 && factor == m[row][index]
    requires n == m[row := Reduced(m[row], factor, m[index])] && u == SidesReduced(t, row, factor, index)
    requires Equivalent(m0, t0, m, t)
    ensures Equivalent(m0, t0, n, u)
    ensures UnitColumns(n, index) && n[index][index] == 1.0 && n[row][index] == 0.0
  {
    ReduceEquivalent(m, t, row, factor, index);
    EquivalentTrans(m0, t0, m, t, n, u);
    ReducedColumns(m, row, factor, index);
  }

  /** Subtracts a multiple of row index from another row. */
  method SubtractRow(matrix: array<Row>, target: array<real>, row: nat, factor: real, index: nat)
    requires matrix.Length == target.Length == 3 && row < 3 && index < 3
    modifies matrix, target
    ensures var m, t := old(matrix[..]), old(target[..]);
      && matrix[..] == m[row := Reduced(m[row], factor, m[index])]
      && target[..] == SidesReduced(t, row, factor, index)
  {
    matrix[row] := Reduced(matrix[row], factor, matrix[index]);
    target[row] := target[row] - factor * target[index];
  }

  /** Clears column index in every row but its own, once the pivot entry is 1. */
  method ClearColumn(matrix: array<Row>, target: array<real>, index: nat)
    requires matrix.Length == target.Length == 3 && index < 3
    requires UnitColumns(matrix[..], index) && matrix[index][index] == 1.0
    modifies matrix, target
    ensures UnitColumns(matrix[..], index + 1)
    ensures Equivalent(old(matrix[..]), old(target[..]), matrix[..], target[..])
  {
    ghost var m0, t0 := matrix[..], target[..];
    for row := 0 to 3
      invariant UnitColumns(matrix[..], index) && matrix[..][index][index] == 1.0
      invariant forall i :: 0 <= i < row && i != index ==> matrix[..][i][index] == 0.0
      invariant Equivalent(m0, t0, matrix[..], target[..])
    {
      if row != index {
        ghost var m, t := matrix[..], target[..];
        var factor := matrix[row][index];
        SubtractRow(matrix, target, row, factor, index);
        ColumnStep(m0, t0, m, t, matrix[..], target[..], row, factor, index);
      }
    }
  }

  lemma ScaledColumns(m: seq<Row>, index: nat)
    requires |m| == 3 && index < 3 && UnitColumns(m, index) && m[index][index] != 0.0
    ensures var n := m[index := Scaled(m[index], m[index][index])];
      UnitColumns(n, index) && n[index][index] == 1.0
  {
    var r, s := m[index], m[index][index];
    assert s / s == 1.0;
    forall j | 0 <= j < index
      ensures Scaled(r, s)[j] == r[j]
    {
      assert r[j] == 0.0 && 0.0 / s == 0.0;
    }
  }

  /** The elimination loop. False stands for the ZeroDivisionError of a zero pivot. */
  method Eliminate(matrix: array<Row>, target: array<real>) returns (ok: bool)
    requires matrix.Length == target.Length == 3
    modifies matrix, target
    ensures ok ==> forall v: Row :: AllHold(old(matrix[..]), old(target[..]), v) <==> v == target[..]
    ensures ok ==> forall v: Row :: AllHold(old(matrix[..]), ZERO, v) <==> v == ZERO
    ensures !ok ==> exists v: Row :: v != ZERO && AllHold(old(matrix[..]), ZERO, v)
  {
    ghost var m0, t0 := matrix[..], target[..];
    for index := 0 to 3
      invariant UnitColumns(matrix[..], index)
      invariant Equivalent(m0, t0, matrix[..], target[..])
    {
      var pivot := PivotRow(matrix, index);
      ghost var m, t := matrix[..], target[..];
      matrix[index], matrix[pivot] := matrix[pivot], matrix[index];
      target[index], target[pivot] := target[pivot], target[index];
      ghost var n, u := matrix[..], target[..];
      assert n == m[index := m[pivot]][pivot := m[index]];
      assert u == t[index := t[pivot]][pivot := t[index]];
      SwapEquivalent(m, t, index, pivot);
      EquivalentTrans(m0, t0, m, t, n, u);
      var scale := matrix[index][index];
      if scale == 0.0 {
        ghost var v := NoPivotIsNull(m, index);
        assert AllHold(m0, ZERO, v);
        return false;
      }
      matrix[index] := Scaled(matrix[index], scale);
      target[index] := target[index] / scale;
      assert matrix[..] == n[index := Scaled(n[index], scale)];
      assert target[..] == u[index := u[index] / scale];
      ScaleEquivalent(n, u, index, scale);
      EquivalentTrans(m0, t0, n, u, matrix[..], target[..]);
      ghost var o, w := matrix[..], target[..];
      ScaledColumns(n, index);
      ClearColumn(matrix, target, index);
      EquivalentTrans(m0, t0, o, w, matrix[..], target[..]);
    }
    forall v: Row
      ensures AllHold(m0, t0, v) <==> v == target[..]
      ensures AllHold(m0, ZERO, v) <==> v == ZERO
    {
      IdentitySolved(matrix[..], target[..], v);
      IdentitySolved(matrix[..], ZERO, v);
    }
    ok := true;
  }
}
