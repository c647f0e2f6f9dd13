/** Dense complex matrices (numpy 2-D arrays) and the algebra the model needs of them. */
module Matrices {
  import opened ComplexNumbers

  /** A 2-D array: its shape and its rows. */
  datatype Dense = Dense(rows: nat, cols: nat, data: seq<seq<Complex>>)

  predicate Wf(m: Dense) {
    |m.data| == m.rows && forall i :: 0 <= i < m.rows ==> |m.data[i]| == m.cols
  }

  /** A well-formed 2-D array: exactly `rows` rows of `cols` entries each. */
  type Matrix = m: Dense | Wf(m) witness Dense(0, 0, [])

  /** The numpy shape tuple of a 2-D array. */
  function Shape(m: Matrix): seq<nat> { [m.rows, m.cols] }

  predicate IsSquare(m: Matrix, n: nat) { m.rows == n && m.cols == n }

  function ZeroMatrix(r: nat, c: nat): (z: Matrix)
    ensures z.rows == r && z.cols == c
    ensures forall i, j :: 0 <= i < r && 0 <= j < c ==> z.data[i][j] == Zero
  {
    Dense(r, c, seq(r, i requires 0 <= i < r => seq(c, j requires 0 <= j < c => Zero)))
  }

  function Identity(n: nat): (id: Matrix)
    ensures IsSquare(id, n)
  {
    Dense(n, n, seq(n, i requires 0 <= i < n => seq(n, j requires 0 <= j < n => if i == j then One else Zero)))
  }

  /** np.diag of a real vector, as a complex matrix. */
  function Diag(d: seq<real>): (m: Matrix)
    ensures IsSquare(m, |d|)
  {
    Dense(|d|, |d|, seq(|d|, i requires 0 <= i < |d| =>
      seq(|d|, j requires 0 <= j < |d| => if i == j then FromReal(d[i]) else Zero)))
  }

  function MatAdd(a: Matrix, b: Matrix): (r: Matrix)
    requires a.rows == b.rows && a.cols == b.cols
    ensures r.rows == a.rows && r.cols == a.cols
  {
    Dense(a.rows, a.cols, seq(a.rows, i requires 0 <= i < a.rows =>
      seq(a.cols, j requires 0 <= j < a.cols => Add(a.data[i][j], b.data[i][j]))))
  }

  function MatSub(a: Matrix, b: Matrix): (r: Matrix)
    requires a.rows == b.rows && a.cols == b.cols
    ensures r.rows == a.rows && r.cols == a.cols
  {
    Dense(a.rows, a.cols, seq(a.rows, i requires 0 <= i < a.rows =>
      seq(a.cols, j requires 0 <= j < a.cols => Sub(a.data[i][j], b.data[i][j]))))
  }

  /** A real scalar times a matrix. */
  function RealScale(x: real, a: Matrix): (r: Matrix)
    ensures r.rows == a.rows && r.cols == a.cols
  {
    Dense(a.rows, a.cols, seq(a.rows, i requires 0 <= i < a.rows =>
      seq(a.cols, j requires 0 <= j < a.cols => Scale(x, a.data[i][j]))))
  }

  /** A complex scalar times a matrix. */
  function ComplexScale(z: Complex, a: Matrix): (r: Matrix)
    ensures r.rows == a.rows && r.cols == a.cols
  {
    Dense(a.rows, a.cols, seq(a.rows, i requires 0 <= i < a.rows =>
      seq(a.cols, j requires 0 <= j < a.cols => Mul(z, a.data[i][j]))))
  }

  /** numpy's elementwise product `a * b` of two arrays of one shape. */
  function Hadamard(a: Matrix, b: Matrix): (r: Matrix)
    requires a.rows == b.rows && a.cols == b.cols
    ensures r.rows == a.rows && r.cols == a.cols
  {
    Dense(a.rows, a.cols, seq(a.rows, i requires 0 <= i < a.rows =>
      seq(a.cols, j requires 0 <= j < a.cols => Mul(a.data[i][j], b.data[i][j]))))
  }

  /** The contents of a two-dimensional array, as a matrix value. */
  function FromArray(a: array2<Complex>): (m: Matrix)
    reads a
    ensures m.rows == a.Length0 && m.cols == a.Length1
    ensures forall i, j :: 0 <= i < a.Length0 && 0 <= j < a.Length1 ==> m.data[i][j] == a[i, j]
  {
    var data := seq(a.Length0, i requires 0 <= i < a.Length0 reads a =>
      seq(a.Length1, j requires 0 <= i < a.Length0 && 0 <= j < a.Length1 reads a => a[i, j]));
    assert forall i :: 0 <= i < a.Length0 ==> |data[i]| == a.Length1;
    Dense(a.Length0, a.Length1, data)
  }

  function Sum(s: seq<Complex>): Complex {
    if |s| == 0 then Zero else Add(Sum(s[..|s| - 1]), s[|s| - 1])
  }

  /** Pointwise products of two equally long sequences. */
  function Pw(u: seq<Complex>, v: seq<Complex>): (p: seq<Complex>)
    requires |u| == |v|
    ensures |p| == |u|
  {
    seq(|u|, k requires 0 <= k < |u| => Mul(u[k], v[k]))
  }

  function ScaleLeft(z: Complex, s: seq<Complex>): (p: seq<Complex>)
    ensures |p| == |s|
  {
    seq(|s|, k requires 0 <= k < |s| => Mul(z, s[k]))
  }

  function ScaleRight(s: seq<Complex>, z: Complex): (p: seq<Complex>)
    ensures |p| == |s|
  {
    seq(|s|, k requires 0 <= k < |s| => Mul(s[k], z))
  }

  function AddSeq(s: seq<Complex>, t: seq<Complex>): (p: seq<Complex>)
    requires |s| == |t|
    ensures |p| == |s|
  {
    seq(|s|, k requires 0 <= k < |s| => Add(s[k], t[k]))
  }

  function SubSeq(s: seq<Complex>, t: seq<Complex>): (p: seq<Complex>)
    requires |s| == |t|
    ensures |p| == |s|
  {
    seq(|s|, k requires 0 <= k < |s| => Sub(s[k], t[k]))
  }

  /** Column j of a matrix. */
  function Col(b: Matrix, j: nat): (c: seq<Complex>)
    requires j < b.cols
    ensures |c| == b.rows
  {
    seq(b.rows, k requires 0 <= k < b.rows => b.data[k][j])
  }

  /** np.dot of two 2-D arrays. */
  function MatMul(a: Matrix, b: Matrix): (r: Matrix)
    requires a.cols == b.rows
    ensures r.rows == a.rows && r.cols == b.cols
  {
    Dense(a.rows, b.cols, seq(a.rows, i requires 0 <= i < a.rows =>
      seq(b.cols, j requires 0 <= j < b.cols => Sum(Pw(a.data[i], Col(b, j))))))
  }

  /** Column k of a rectangular table of rows. */
  function Column(g: seq<seq<Complex>>, k: nat): (c: seq<Complex>)
    requires forall l :: 0 <= l < |g| ==> k < |g[l]|
    ensures |c| == |g|
  {
    seq(|g|, l requires 0 <= l < |g| => g[l][k])
  }

  function RowSums(g: seq<seq<Complex>>): (s: seq<Complex>)
    ensures |s| == |g|
  {
    seq(|g|, l requires 0 <= l < |g| => Sum(g[l]))
  }

  function ColSums(g: seq<seq<Complex>>, m: nat): (s: seq<Complex>)
    requires forall l :: 0 <= l < |g| ==> |g[l]| == m
    ensures |s| == m
  {
    seq(m, k requires 0 <= k < m => Sum(Column(g, k)))
  }

  lemma MatrixExt(a: Matrix, b: Matrix)
    requires a.rows == b.rows && a.cols == b.cols
    requires forall i, j :: 0 <= i < a.rows && 0 <= j < a.cols ==> a.data[i][j] == b.data[i][j]
    ensures a == b
  {
    forall i | 0 <= i < a.rows ensures a.data[i] == b.data[i] {
    }
  }

  lemma {:induction false} SumZeros(s: seq<Complex>)
    requires forall k :: 0 <= k < |s| ==> s[k] == Zero
    ensures Sum(s) == Zero
  {
    if |s| > 0 {
      SumZeros(s[..|s| - 1]);
    }
  }

  lemma {:induction false} SumSingle(s: seq<Complex>, i: nat)
    requires i < |s|
    requires forall k :: 0 <= k < |s| && k != i ==> s[k] == Zero
    ensures Sum(s) == s[i]
  {
    var n := |s|;
    if i == n - 1 {
      SumZeros(s[..n - 1]);
    } else {
      SumSingle(s[..n - 1], i);
    }
  }

  lemma {:induction false} SumAdd(s: seq<Complex>, t: seq<Complex>)
    requires |s| == |t|
    ensures Sum(AddSeq(s, t)) == Add(Sum(s), Sum(t))
  {
    var n := |s|;
    if n > 0 {
      var u := AddSeq(s, t);
      assert u[..n - 1] == AddSeq(s[..n - 1], t[..n - 1]);
      SumAdd(s[..n - 1], t[..n - 1]);
      assert Sum(u) == Add(Sum(u[..n - 1]), Add(s[n - 1], t[n - 1]));
      assert Sum(s) == Add(Sum(s[..n - 1]), s[n - 1]);
      assert Sum(t) == Add(Sum(t[..n - 1]), t[n - 1]);
    }
  }

  lemma {:induction false} SumSub(s: seq<Complex>, t: seq<Complex>)
    requires |s| == |t|
    ensures Sum(SubSeq(s, t)) == Sub(Sum(s), Sum(t))
  {
    var n := |s|;
    if n > 0 {
      var u := SubSeq(s, t);
      assert u[..n - 1] == SubSeq(s[..n - 1], t[..n - 1]);
      SumSub(s[..n - 1], t[..n - 1]);
      assert Sum(u) == Add(Sum(u[..n - 1]), Sub(s[n - 1], t[n - 1]));
      assert Sum(s) == Add(Sum(s[..n - 1]), s[n - 1]);
      assert Sum(t) == Add(Sum(t[..n - 1]), t[n - 1]);
    }
  }

  lemma {:induction false} SumMulLeft(z: Complex, s: seq<Complex>)
    ensures Mul(z, Sum(s)) == Sum(ScaleLeft(z, s))
  {
    var n := |s|;
    if n == 0 {
      MulOneZero(z);
    } else {
      assert ScaleLeft(z, s)[..n - 1] == ScaleLeft(z, s[..n - 1]);
      SumMulLeft(z, s[..n - 1]);
      MulAddLeft(z, Sum(s[..n - 1]), s[n - 1]);
    }
  }

  lemma {:induction false} SumMulRight(s: seq<Complex>, z: Complex)
    ensures Mul(Sum(s), z) == Sum(ScaleRight(s, z))
  {
    var n := |s|;
    if n == 0 {
      MulOneZero(z);
    } else {
      assert ScaleRight(s, z)[..n - 1] == ScaleRight(s[..n - 1], z);
      SumMulRight(s[..n - 1], z);
      MulAddRight(Sum(s[..n - 1]), s[n - 1], z);
    }
  }

  /** The column sums of a table are those of the table without its last row, plus that row. */
  lemma ColSumsSnoc(g: seq<seq<Complex>>, m: nat)
    requires |g| > 0 && forall l :: 0 <= l < |g| ==> |g[l]| == m
    ensures ColSums(g, m) == AddSeq(ColSums(g[..|g| - 1], m), g[|g| - 1])
  {
    var h := g[..|g| - 1];
    forall k | 0 <= k < m
      ensures ColSums(g, m)[k] == AddSeq(ColSums(h, m), g[|g| - 1])[k]
    {
      assert Column(g, k)[..|g| - 1] == Column(h, k);
    }
  }

  lemma ColSumsEmpty(g: seq<seq<Complex>>, m: nat)
    requires |g| == 0
    ensures Sum(ColSums(g, m)) == Zero
  {
    var cs := ColSums(g, m);
    forall k | 0 <= k < m ensures cs[k] == Zero {
      assert Column(g, k) == [];
    }
    SumZeros(cs);
  }

  /** Splitting off the last row of a table splits off its sum, on either side of SumSwap. */
  lemma SumSwapStep(g: seq<seq<Complex>>, m: nat)
    requires |g| > 0 && forall l :: 0 <= l < |g| ==> |g[l]| == m
    ensures Sum(RowSums(g)) == Add(Sum(RowSums(g[..|g| - 1])), Sum(g[|g| - 1]))
    ensures Sum(ColSums(g, m)) == Add(Sum(ColSums(g[..|g| - 1], m)), Sum(g[|g| - 1]))
  {
    var n := |g|;
    assert RowSums(g)[..n - 1] == RowSums(g[..n - 1]);
    ColSumsSnoc(g, m);
    SumAdd(ColSums(g[..n - 1], m), g[n - 1]);
  }

  /** Exchanging the order of a double sum over a rectangular table (rows of m entries). */
  lemma {:induction false} SumSwap(g: seq<seq<Complex>>, m: nat)
    requires forall l :: 0 <= l < |g| ==> |g[l]| == m
    ensures Sum(RowSums(g)) == Sum(ColSums(g, m))
  {
    if |g| == 0 {
      ColSumsEmpty(g, m);
    } else {
      SumSwap(g[..|g| - 1], m);
      SumSwapStep(g, m);
    }
  }

  lemma MatMulAssocAt(a: Matrix, b: Matrix, c: Matrix, i: nat, j: nat)
    requires a.cols == b.rows && b.cols == c.rows
    requires i < a.rows && j < c.cols
    ensures MatMul(MatMul(a, b), c).data[i][j] == MatMul(a, MatMul(b, c)).data[i][j]
  {
    var m, p := a.cols, b.cols;
    var ab, bc := MatMul(a, b), MatMul(b, c);
    var ai := a.data[i];
    var g := seq(p, l requires 0 <= l < p => ScaleRight(Pw(ai, Col(b, l)), c.data[l][j]));
    forall l | 0 <= l < p
      ensures Pw(ab.data[i], Col(c, j))[l] == RowSums(g)[l]
    {
      SumMulRight(Pw(ai, Col(b, l)), c.data[l][j]);
    }
    assert Pw(ab.data[i], Col(c, j)) == RowSums(g);
    SumSwap(g, m);
    forall k | 0 <= k < m
      ensures ColSums(g, m)[k] == Pw(ai, Col(bc, j))[k]
    {
      forall l | 0 <= l < p
        ensures Column(g, k)[l] == ScaleLeft(ai[k], Pw(b.data[k], Col(c, j)))[l]
      {
        MulAssoc(ai[k], b.data[k][l], c.data[l][j]);
      }
      assert Column(g, k) == ScaleLeft(ai[k], Pw(b.data[k], Col(c, j)));
      SumMulLeft(ai[k], Pw(b.data[k], Col(c, j)));
    }
    assert ColSums(g, m) == Pw(ai, Col(bc, j));
  }

  lemma MatMulAssoc(a: Matrix, b: Matrix, c: Matrix)
    requires a.cols == b.rows && b.cols == c.rows
    ensures MatMul(MatMul(a, b), c) == MatMul(a, MatMul(b, c))
  {
    forall i, j | 0 <= i < a.rows && 0 <= j < c.cols
      ensures MatMul(MatMul(a, b), c).data[i][j] == MatMul(a, MatMul(b, c)).data[i][j]
    {
      MatMulAssocAt(a, b, c, i, j);
    }
    MatrixExt(MatMul(MatMul(a, b), c), MatMul(a, MatMul(b, c)));
  }

  lemma MatMulIdentity(a: Matrix)
    ensures MatMul(Identity(a.rows), a) == a
    ensures MatMul(a, Identity(a.cols)) == a
  {
    var n, m := a.rows, a.cols;
    var id, id2 := Identity(n), Identity(m);
    forall i, j | 0 <= i < n && 0 <= j < m
      ensures MatMul(id, a).data[i][j] == a.data[i][j]
      ensures MatMul(a, id2).data[i][j] == a.data[i][j]
    {
      var s := Pw(id.data[i], Col(a, j));
      forall k | 0 <= k < n ensures s[k] == if k == i then a.data[i][j] else Zero {
        MulOneZero(a.data[k][j]);
      }
      SumSingle(s, i);
      var t := Pw(a.data[i], Col(id2, j));
      forall k | 0 <= k < m ensures t[k] == if k == j then a.data[i][j] else Zero {
        MulOneZero(a.data[i][k]);
      }
      SumSingle(t, j);
    }
    MatrixExt(MatMul(id, a), a);
    MatrixExt(MatMul(a, id2), a);
  }

  /** Matrix multiplication distributes over subtraction, on the left. */
  lemma MatMulSubLeft(a: Matrix, b: Matrix, c: Matrix)
    requires a.cols == b.rows && b.rows == c.rows && b.cols == c.cols
    ensures MatMul(a, MatSub(b, c)) == MatSub(MatMul(a, b), MatMul(a, c))
  {
    var bc := MatSub(b, c);
    forall i, j | 0 <= i < a.rows && 0 <= j < b.cols
      ensures MatMul(a, bc).data[i][j] == MatSub(MatMul(a, b), MatMul(a, c)).data[i][j]
    {
      var u, v := Pw(a.data[i], Col(b, j)), Pw(a.data[i], Col(c, j));
      forall k | 0 <= k < a.cols ensures Pw(a.data[i], Col(bc, j))[k] == SubSeq(u, v)[k] {
        MulSubLeft(a.data[i][k], b.data[k][j], c.data[k][j]);
      }
      assert Pw(a.data[i], Col(bc, j)) == SubSeq(u, v);
      SumSub(u, v);
    }
    MatrixExt(MatMul(a, bc), MatSub(MatMul(a, b), MatMul(a, c)));
  }

  /** Matrix multiplication distributes over subtraction, on the right. */
  lemma MatMulSubRight(a: Matrix, b: Matrix, c: Matrix)
    requires a.rows == b.rows && a.cols == b.cols && a.cols == c.rows
    ensures MatMul(MatSub(a, b), c) == MatSub(MatMul(a, c), MatMul(b, c))
  {
    var ab := MatSub(a, b);
    forall i, j | 0 <= i < a.rows && 0 <= j < c.cols
      ensures MatMul(ab, c).data[i][j] == MatSub(MatMul(a, c), MatMul(b, c)).data[i][j]
    {
      var u, v := Pw(a.data[i], Col(c, j)), Pw(b.data[i], Col(c, j));
      forall k | 0 <= k < a.cols ensures Pw(ab.data[i], Col(c, j))[k] == SubSeq(u, v)[k] {
        MulSubRight(a.data[i][k], b.data[i][k], c.data[k][j]);
      }
      assert Pw(ab.data[i], Col(c, j)) == SubSeq(u, v);
      SumSub(u, v);
    }
    MatrixExt(MatMul(ab, c), MatSub(MatMul(a, c), MatMul(b, c)));
  }

  /** Multiplying by a diagonal matrix from the left scales the rows. */
  lemma DiagMul(d: seq<real>, a: Matrix, i: nat, j: nat)
    requires a.rows == |d| && i < a.rows && j < a.cols
    ensures MatMul(Diag(d), a).data[i][j] == Scale(d[i], a.data[i][j])
  {
    var s := Pw(Diag(d).data[i], Col(a, j));
    forall k | 0 <= k < |d| ensures s[k] == if k == i then Scale(d[i], a.data[i][j]) else Zero {
      MulOneZero(a.data[k][j]);
    }
    SumSingle(s, i);
  }

  /** Multiplying by a diagonal matrix from the right scales the columns. */
  lemma MulDiag(a: Matrix, d: seq<real>, i: nat, j: nat)
    requires a.cols == |d| && i < a.rows && j < a.cols
    ensures MatMul(a, Diag(d)).data[i][j] == Scale(d[j], a.data[i][j])
  {
    var s := Pw(a.data[i], Col(Diag(d), j));
    forall k | 0 <= k < |d| ensures s[k] == if k == j then Scale(d[j], a.data[i][j]) else Zero {
      MulOneZero(a.data[i][k]);
    }
    SumSingle(s, j);
  }
}
