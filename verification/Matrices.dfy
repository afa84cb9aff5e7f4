/** Dense real matrices with the operations the Kalman filter uses, and how products of
    mostly-zero matrices collapse. */
module Matrices {
  import opened Reals

  type Vector = seq<real>
  type Matrix = seq<seq<real>>

  predicate IsMatrix(a: Matrix, rows: nat, cols: nat) {
    |a| == rows && forall i :: 0 <= i < rows ==> |a[i]| == cols
  }

  /** The first n terms of the sum for entry (i, j) of a times b. */
  function Entry(a: Matrix, b: Matrix, i: nat, j: nat, n: nat): real
    requires i < |a| && n <= |a[i]| && n <= |b|
    requires forall k :: 0 <= k < n ==> j < |b[k]|
    decreases n
  {
    if n == 0 then 0.0 else Entry(a, b, i, j, n - 1) + a[i][n - 1] * b[n - 1][j]
  }

  function Mul(a: Matrix, b: Matrix, rows: nat, inner: nat, cols: nat): (c: Matrix)
    requires IsMatrix(a, rows, inner) && IsMatrix(b, inner, cols)
    ensures IsMatrix(c, rows, cols)
    ensures forall i, j :: 0 <= i < rows && 0 <= j < cols ==> c[i][j] == Entry(a, b, i, j, inner)
  {
    seq(rows, i requires 0 <= i < rows =>
      seq(cols, j requires 0 <= j < cols => Entry(a, b, i, j, inner)))
  }

  function Transpose(a: Matrix, rows: nat, cols: nat): (t: Matrix)
    requires IsMatrix(a, rows, cols)
    ensures IsMatrix(t, cols, rows)
    ensures forall i, j :: 0 <= i < cols && 0 <= j < rows ==> t[i][j] == a[j][i]
  {
    seq(cols, i requires 0 <= i < cols => seq(rows, j requires 0 <= j < rows => a[j][i]))
  }

  function Add(a: Matrix, b: Matrix, rows: nat, cols: nat): (c: Matrix)
    requires IsMatrix(a, rows, cols) && IsMatrix(b, rows, cols)
    ensures IsMatrix(c, rows, cols)
    ensures forall i, j :: 0 <= i < rows && 0 <= j < cols ==> c[i][j] == a[i][j] + b[i][j]
  {
    seq(rows, i requires 0 <= i < rows => seq(cols, j requires 0 <= j < cols => a[i][j] + b[i][j]))
  }

  function Sub(a: Matrix, b: Matrix, rows: nat, cols: nat): (c: Matrix)
    requires IsMatrix(a, rows, cols) && IsMatrix(b, rows, cols)
    ensures IsMatrix(c, rows, cols)
    ensures forall i, j :: 0 <= i < rows && 0 <= j < cols ==> c[i][j] == a[i][j] - b[i][j]
  {
    seq(rows, i requires 0 <= i < rows => seq(cols, j requires 0 <= j < cols => a[i][j] - b[i][j]))
  }

  /** np.diag(np.square(d)). */
  function DiagOfSquares(d: Vector): (c: Matrix)
    ensures IsMatrix(c, |d|, |d|)
    ensures forall i, j :: 0 <= i < |d| && 0 <= j < |d| ==> c[i][j] == if i == j then Square(d[i]) else 0.0
  {
    seq(|d|, i requires 0 <= i < |d| => seq(|d|, j => if i == j then Square(d[i]) else 0.0))
  }

  function Column(x: Vector): (c: Matrix)
    ensures IsMatrix(c, |x|, 1)
    ensures forall i :: 0 <= i < |x| ==> c[i][0] == x[i]
  {
    seq(|x|, i requires 0 <= i < |x| => [x[i]])
  }

  function Apply(a: Matrix, x: Vector, rows: nat): (y: Vector)
    requires IsMatrix(a, rows, |x|)
    ensures |y| == rows
    ensures forall i :: 0 <= i < rows ==> y[i] == Entry(a, Column(x), i, 0, |x|)
  {
    seq(rows, i requires 0 <= i < rows => Entry(a, Column(x), i, 0, |x|))
  }

  /** Only the terms p and q of the sum can be non-zero (p and q may coincide or lie outside). */
  predicate OnlyTerms(a: Matrix, b: Matrix, i: nat, j: nat, n: nat, p: int, q: int)
    requires i < |a| && n <= |a[i]| && n <= |b|
    requires forall k :: 0 <= k < n ==> j < |b[k]|
  {
    forall k :: 0 <= k < n && k != p && k != q ==> a[i][k] == 0.0 || b[k][j] == 0.0
  }

  function Term(a: Matrix, b: Matrix, i: nat, j: nat, n: nat, k: int): real
    requires i < |a| && n <= |a[i]| && n <= |b|
    requires forall k :: 0 <= k < n ==> j < |b[k]|
  {
    if 0 <= k < n then a[i][k] * b[k][j] else 0.0
  }

  lemma {:induction false} SparseEntry(a: Matrix, b: Matrix, i: nat, j: nat, n: nat, p: int, q: int)
    requires i < |a| && n <= |a[i]| && n <= |b|
    requires forall k :: 0 <= k < n ==> j < |b[k]|
    requires p != q && OnlyTerms(a, b, i, j, n, p, q)
    ensures Entry(a, b, i, j, n) == Term(a, b, i, j, n, p) + Term(a, b, i, j, n, q)
    decreases n
  {
    if n > 0 {
      SparseEntry(a, b, i, j, n - 1, p, q);
    }
  }

  // ----- solving a diagonal system -----

  predicate IsDiagonal(s: Matrix, n: nat) {
    && IsMatrix(s, n, n)
    && (forall i, j :: 0 <= i < n && 0 <= j < n && i != j ==> s[i][j] == 0.0)
    && (forall i :: 0 <= i < n ==> s[i][i] != 0.0)
  }

  /** np.linalg.solve(s, b) on a system of this shape: the x with s x = b. */
  function Solve(s: Matrix, b: Matrix, n: nat, cols: nat): (x: Matrix)
    requires IsDiagonal(s, n) && IsMatrix(b, n, cols)
    ensures IsMatrix(x, n, cols)
    ensures forall i, j :: 0 <= i < n && 0 <= j < cols ==> x[i][j] == b[i][j] / s[i][i]
  {
    seq(n, i requires 0 <= i < n => seq(cols, j requires 0 <= j < cols => b[i][j] / s[i][i]))
  }

  lemma DiagonalProduct(s: Matrix, x: Matrix, n: nat, cols: nat, i: nat, j: nat)
    requires IsDiagonal(s, n) && IsMatrix(x, n, cols) && i < n && j < cols
    ensures Mul(s, x, n, n, cols)[i][j] == s[i][i] * x[i][j]
  {
    SparseEntry(s, x, i, j, n, i, -1);
  }

  lemma ProductByDiagonal(k: Matrix, s: Matrix, rows: nat, n: nat, x: nat, i: nat)
    requires IsMatrix(k, rows, n) && IsDiagonal(s, n) && x < rows && i < n
    ensures Mul(k, s, rows, n, n)[x][i] == k[x][i] * s[i][i]
  {
    SparseEntry(k, s, x, i, n, i, -1);
  }

  /** Solve is the solution, and there is no other: any correct solver returns it. */
  lemma SolveIsTheSolution(s: Matrix, b: Matrix, n: nat, cols: nat, x: Matrix)
    requires IsDiagonal(s, n) && IsMatrix(b, n, cols) && IsMatrix(x, n, cols)
    ensures Mul(s, x, n, n, cols) == b <==> x == Solve(s, b, n, cols)
  {
    var c := Mul(s, x, n, n, cols);
    forall i, j | 0 <= i < n && 0 <= j < cols
      ensures c[i][j] == b[i][j] <==> x[i][j] == Solve(s, b, n, cols)[i][j]
    {
      DiagonalProduct(s, x, n, cols, i, j);
      QuotientIsUnique(s[i][i], x[i][j], b[i][j]);
    }
    if c == b {
      assert forall i :: 0 <= i < n ==> x[i] == Solve(s, b, n, cols)[i];
    }
    if x == Solve(s, b, n, cols) {
      assert forall i :: 0 <= i < n ==> c[i] == b[i];
    }
  }

  lemma SolutionRow(s: Matrix, b: Matrix, n: nat, cols: nat, x: nat, i: nat)
    requires IsDiagonal(s, n) && IsMatrix(b, n, cols) && x < cols && i < n
    ensures Transpose(Solve(s, b, n, cols), n, cols)[x][i] * s[i][i] == b[i][x]
  {
    QuotientIsUnique(s[i][i], Solve(s, b, n, cols)[i][x], b[i][x]);
  }

  lemma QuotientIsUnique(s: real, x: real, b: real)
    requires s != 0.0
    ensures s * x == b <==> x == b / s
  {
    if s * x == b {
      assert x == (s * x) / s;
    }
  }
}
