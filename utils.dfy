/**
 * The linear-algebra kernel of qdynos/utils.py: adjoint, commutators, the trace norm,
 * the dense Hermiticity check, shape classification and Liouville-space flattening.
 */
module Utils {
  import opened ComplexNumbers
  import opened Matrices
  import opened Errors

  // ---------------------------------------------------------------------------
  // Adjoint and commutators

  /** dag(op) = op.conj().T */
  function Dag(op: Matrix): (r: Matrix)
    ensures r.rows == op.cols && r.cols == op.rows
  {
    Dense(op.cols, op.rows, seq(op.cols, i requires 0 <= i < op.cols =>
      seq(op.rows, j requires 0 <= j < op.rows => Conj(op.data[j][i]))))
  }

  /** Taking the adjoint twice gives back the operator, whatever its shape. */
  lemma DagInvolution(op: Matrix)
    ensures Dag(Dag(op)) == op
  {
    MatrixExt(Dag(Dag(op)), op);
  }

  /** commutator(op1, op2) = op1.op2 - op2.op1 */
  function Commutator(a: Matrix, b: Matrix): (r: Matrix)
    requires IsSquare(a, a.rows) && IsSquare(b, a.rows)
    ensures IsSquare(r, a.rows)
  {
    MatSub(MatMul(a, b), MatMul(b, a))
  }

  /** anticommutator(op1, op2) = op1.op2 + op2.op1 */
  function Anticommutator(a: Matrix, b: Matrix): (r: Matrix)
    requires IsSquare(a, a.rows) && IsSquare(b, a.rows)
    ensures IsSquare(r, a.rows)
  {
    MatAdd(MatMul(a, b), MatMul(b, a))
  }

  lemma CommutatorAntisymmetric(a: Matrix, b: Matrix)
    requires IsSquare(a, a.rows) && IsSquare(b, a.rows)
    ensures Commutator(a, b) == RealScale(-1.0, Commutator(b, a))
  {
    MatrixExt(Commutator(a, b), RealScale(-1.0, Commutator(b, a)));
  }

  lemma CommutatorSelf(a: Matrix)
    requires IsSquare(a, a.rows)
    ensures Commutator(a, a) == ZeroMatrix(a.rows, a.rows)
  {
    MatrixExt(Commutator(a, a), ZeroMatrix(a.rows, a.rows));
  }

  lemma AnticommutatorSymmetric(a: Matrix, b: Matrix)
    requires IsSquare(a, a.rows) && IsSquare(b, a.rows)
    ensures Anticommutator(a, b) == Anticommutator(b, a)
  {
    MatrixExt(Anticommutator(a, b), Anticommutator(b, a));
  }

  /** [A, B] + {A, B} == 2 A.B */
  lemma CommutatorPlusAnticommutator(a: Matrix, b: Matrix)
    requires IsSquare(a, a.rows) && IsSquare(b, a.rows)
    ensures MatAdd(Commutator(a, b), Anticommutator(a, b)) == RealScale(2.0, MatMul(a, b))
  {
    MatrixExt(MatAdd(Commutator(a, b), Anticommutator(a, b)), RealScale(2.0, MatMul(a, b)));
  }

  // ---------------------------------------------------------------------------
  // Shape classification, on the numpy shape tuple

  /** is_matrix: shape[0] == shape[1] (a 1-D array has no shape[1]: IndexError, not modelled). */
  function IsMatrix(shape: seq<nat>): bool
    requires |shape| >= 2
  {
    shape[0] == shape[1]
  }

  /** is_vector: shape[0] != shape[1]; on every 2-D shape exactly one of the two holds. */
  function IsVector(shape: seq<nat>): (r: bool)
    requires |shape| >= 2
    ensures r <==> !IsMatrix(shape)
  {
    shape[0] != shape[1]
  }

  /** is_tensor: more than two dimensions. */
  function IsTensor(shape: seq<nat>): (r: bool)
    ensures r <==> |shape| >= 3
  {
    |shape| > 2
  }

  lemma MatrixShapeClass(m: Matrix)
    ensures !IsTensor(Shape(m))
    ensures IsVector(Shape(m)) != IsMatrix(Shape(m))
    ensures IsMatrix(Shape(m)) <==> m.rows == m.cols
  {
  }

  // ---------------------------------------------------------------------------
  // Trace norm

  function RealSum(xs: seq<real>): real {
    if |xs| == 0 then 0.0 else RealSum(xs[..|xs| - 1]) + xs[|xs| - 1]
  }

  function RealParts(s: seq<Complex>): (r: seq<real>)
    ensures |r| == |s|
  {
    seq(|s|, k requires 0 <= k < |s| => s[k].re)
  }

  function Diagonal(m: Matrix): (d: seq<Complex>)
    requires m.rows == m.cols
    ensures |d| == m.rows
  {
    seq(m.rows, i requires 0 <= i < m.rows => m.data[i][i])
  }

  /** |psi[k][0]|^2 down the first column. */
  function ColumnWeights(psi: Matrix): (w: seq<real>)
    requires psi.cols > 0
    ensures |w| == psi.rows
  {
    seq(psi.rows, k requires 0 <= k < psi.rows => NormSq(psi.data[k][0]))
  }

  /**
   * norm(psi): for a vector shape, (dag(psi).psi)[0,0].real; for a square matrix, the real
   * part of the trace. A vector shape with no columns has no [0,0] entry: IndexError.
   */
  function Norm(psi: Matrix): (r: Result<real>)
    ensures r.Err? <==> IsVector(Shape(psi)) && psi.cols == 0
    ensures r.Err? ==> r.error == IndexOutOfRange
  {
    if IsVector(Shape(psi)) then
      var p := MatMul(Dag(psi), psi);
      if p.rows == 0 then Err(IndexOutOfRange) else Ok(p.data[0][0].re)
    else
      Ok(Sum(Diagonal(psi)).re)
  }

  lemma {:induction false} RealSumNonNegative(xs: seq<real>)
    requires forall k :: 0 <= k < |xs| ==> xs[k] >= 0.0
    ensures RealSum(xs) >= 0.0
  {
    if |xs| > 0 {
      RealSumNonNegative(xs[..|xs| - 1]);
    }
  }

  lemma {:induction false} SumRealPart(s: seq<Complex>)
    ensures Sum(s).re == RealSum(RealParts(s))
  {
    if |s| > 0 {
      assert RealParts(s)[..|s| - 1] == RealParts(s[..|s| - 1]);
      SumRealPart(s[..|s| - 1]);
    }
  }

  /**
   * The norm of a vector is the sum of the squared moduli of its first column, so it is never
   * negative; the norm of a square matrix is the sum of the real parts of its diagonal.
   */
  lemma NormValue(psi: Matrix)
    ensures IsVector(Shape(psi)) && psi.cols > 0 ==>
      Norm(psi) == Ok(RealSum(ColumnWeights(psi))) && RealSum(ColumnWeights(psi)) >= 0.0
    ensures IsMatrix(Shape(psi)) ==> Norm(psi) == Ok(RealSum(RealParts(Diagonal(psi))))
  {
    if IsVector(Shape(psi)) && psi.cols > 0 {
      var s := Pw(Dag(psi).data[0], Col(psi, 0));
      forall k | 0 <= k < psi.rows ensures RealParts(s)[k] == ColumnWeights(psi)[k] {
        ConjTimesSelf(psi.data[k][0]);
      }
      assert RealParts(s) == ColumnWeights(psi);
      SumRealPart(s);
      RealSumNonNegative(ColumnWeights(psi));
    }
    if IsMatrix(Shape(psi)) {
      SumRealPart(Diagonal(psi));
    }
  }

  // ---------------------------------------------------------------------------
  // Hermiticity (dense branch; np.allclose is taken as exact equality)

  /**
   * is_hermitian(op): True for a square op equal to its adjoint; otherwise it raises, so it
   * never returns False.
   */
  function IsHermitian(op: Matrix): (r: Result<bool>)
    ensures r != Ok(false)
    ensures r == Ok(true) <==> op.rows == op.cols && Dag(op) == op
    ensures r.Err? ==> r.error == if op.rows == op.cols then NotHermitian else NotMatrix
  {
    if IsMatrix(Shape(op)) then
      if Dag(op) == op then Ok(true) else Err(NotHermitian)
    else
      Err(NotMatrix)
  }

  /** A square op equals its adjoint exactly when op[i][j] == conj(op[j][i]) everywhere. */
  lemma HermitianEntrywise(op: Matrix)
    requires op.rows == op.cols
    ensures Dag(op) == op <==>
      forall i, j :: 0 <= i < op.rows && 0 <= j < op.rows ==> op.data[i][j] == Conj(op.data[j][i])
  {
    if forall i, j :: 0 <= i < op.rows && 0 <= j < op.rows ==> op.data[i][j] == Conj(op.data[j][i]) {
      MatrixExt(Dag(op), op);
    }
  }

  // ---------------------------------------------------------------------------
  // Liouville space: a matrix to a vector and back

  /** Peeling one term off a product. */
  lemma MulPred(r: nat, c: nat)
    requires r > 0
    ensures r * c == c + (r - 1) * c && (r - 1) * c >= 0
  {
  }

  /** The rows of a 2-D array laid end to end (row-major order). */
  function Flatten(rows: seq<seq<Complex>>): seq<Complex> {
    if |rows| == 0 then [] else rows[0] + Flatten(rows[1..])
  }

  /** The first r chunks of c entries of v, as rows. */
  function Chunks(v: seq<Complex>, r: nat, c: nat): (rows: seq<seq<Complex>>)
    requires |v| == r * c
    ensures |rows| == r && forall i :: 0 <= i < r ==> |rows[i]| == c
  {
    if r == 0 then [] else MulPred(r, c); [v[..c]] + Chunks(v[c..], r - 1, c)
  }

  lemma {:induction false} FlattenLength(m: Matrix)
    ensures |Flatten(m.data)| == m.rows * m.cols
    decreases m.rows
  {
    if m.rows > 0 {
      FlattenLength(Dense(m.rows - 1, m.cols, m.data[1..]));
    }
  }

  lemma {:induction false} FlattenAt(m: Matrix, i: nat, j: nat)
    requires i < m.rows && j < m.cols
    ensures |Flatten(m.data)| == m.rows * m.cols
    ensures i * m.cols + j < m.rows * m.cols
    ensures Flatten(m.data)[i * m.cols + j] == m.data[i][j]
    decreases i
  {
    var c := m.cols;
    var rest := Dense(m.rows - 1, c, m.data[1..]);
    FlattenLength(m);
    FlattenLength(rest);
    assert Flatten(m.data) == m.data[0] + Flatten(rest.data);
    if i > 0 {
      FlattenAt(rest, i - 1, j);
      assert i * c + j == c + ((i - 1) * c + j);
      assert m.rows * c == c + (m.rows - 1) * c;
    } else {
      MulAtLeast(m.rows, c);
    }
  }

  /** to_liouville on a 2-D array: rho.flatten(), row-major. */
  function ToLiouville(rho: Matrix): (v: seq<Complex>)
    ensures |v| == rho.rows * rho.cols
  {
    FlattenLength(rho);
    Flatten(rho.data)
  }

  /** Entry (i, j) of rho lands at position i*cols + j of its Liouville vector. */
  lemma ToLiouvilleAt(rho: Matrix, i: nat, j: nat)
    requires i < rho.rows && j < rho.cols
    ensures i * rho.cols + j < rho.rows * rho.cols
    ensures ToLiouville(rho)[i * rho.cols + j] == rho.data[i][j]
  {
    FlattenAt(rho, i, j);
  }

  /** int(np.sqrt(n)), exactly: the largest r with r*r <= n. */
  function FloorSqrt(n: nat): (r: nat)
    ensures r * r <= n < (r + 1) * (r + 1)
  {
    if n == 0 then 0
    else
      var s := FloorSqrt(n - 1);
      if (s + 1) * (s + 1) <= n then s + 1 else s
  }

  lemma SquareMonotone(a: nat, b: nat)
    requires a <= b
    ensures a * a <= b * b
  {
    assert a * a <= a * b <= b * b;
  }

  lemma SquareRootUnique(n: nat, r: nat)
    requires r * r <= n * n < (r + 1) * (r + 1)
    ensures r == n
  {
    if r < n {
      SquareMonotone(r + 1, n);
    } else if r > n {
      SquareMonotone(n + 1, r);
    }
  }

  /**
   * from_liouville(rho_vec, ns): reshape to ns x ns, inferring ns = int(sqrt(len)) when it is
   * None; a length that is not ns*ns makes reshape raise ValueError.
   */
  function FromLiouville(v: seq<Complex>, ns: Option<nat>): (r: Result<Matrix>)
    ensures r.Ok? ==> IsSquare(r.value, if ns.Some? then ns.value else FloorSqrt(|v|))
    ensures r.Err? <==> (if ns.Some? then ns.value * ns.value else FloorSqrt(|v|) * FloorSqrt(|v|)) != |v|
    ensures r.Err? ==> r.error == ReshapeMismatch
  {
    var n := if ns.Some? then ns.value else FloorSqrt(|v|);
    if n * n != |v| then Err(ReshapeMismatch) else Ok(Dense(n, n, Chunks(v, n, n)))
  }

  /** With ns=None the inferred ns is the one whose square is the length, when there is one. */
  lemma FromLiouvilleInfersSide(v: seq<Complex>, n: nat)
    requires n * n == |v|
    ensures FromLiouville(v, None).Ok? && IsSquare(FromLiouville(v, None).value, n)
  {
    SquareRootUnique(n, FloorSqrt(|v|));
  }

  lemma {:induction false} ChunksFlatten(rows: seq<seq<Complex>>, r: nat, c: nat)
    requires |rows| == r && forall i :: 0 <= i < r ==> |rows[i]| == c
    ensures |Flatten(rows)| == r * c && Chunks(Flatten(rows), r, c) == rows
  {
    if r > 0 {
      ChunksFlatten(rows[1..], r - 1, c);
      MulPred(r, c);
      assert Flatten(rows)[..c] == rows[0];
      assert Flatten(rows)[c..] == Flatten(rows[1..]);
    }
  }

  lemma {:induction false} FlattenChunks(v: seq<Complex>, r: nat, c: nat)
    requires |v| == r * c
    ensures Flatten(Chunks(v, r, c)) == v
  {
    if r > 0 {
      MulPred(r, c);
      FlattenChunks(v[c..], r - 1, c);
      assert v == v[..c] + v[c..];
    }
  }

  /** Unflattening a flattened ns x ns matrix gives it back, with ns given or inferred. */
  lemma LiouvilleRoundTrip(rho: Matrix, ns: Option<nat>)
    requires rho.rows == rho.cols
    requires ns.Some? ==> ns.value == rho.rows
    ensures FromLiouville(ToLiouville(rho), ns) == Ok(rho)
  {
    var n := rho.rows;
    ChunksFlatten(rho.data, n, n);
    if ns.None? {
      FromLiouvilleInfersSide(ToLiouville(rho), n);
    }
  }

  /** Flattening an unflattened vector gives it back. */
  lemma LiouvilleRoundTripVector(v: seq<Complex>, ns: Option<nat>)
    requires FromLiouville(v, ns).Ok?
    ensures ToLiouville(FromLiouville(v, ns).value) == v
  {
    var m := FromLiouville(v, ns).value;
    FlattenChunks(v, m.rows, m.rows);
  }

  // ---------------------------------------------------------------------------
  // Liouville space: a rank-4 tensor to a matrix (the dense branch of to_liouville)

  /** An ns x ns x ns x ns array. */
  predicate IsCube(rho: seq<seq<seq<seq<Complex>>>>, ns: nat) {
    && |rho| == ns
    && (forall i :: 0 <= i < ns ==> |rho[i]| == ns)
    && (forall i, j :: 0 <= i < ns && 0 <= j < ns ==> |rho[i][j]| == ns)
    && (forall i, j, k :: 0 <= i < ns && 0 <= j < ns && 0 <= k < ns ==> |rho[i][j][k]| == ns)
  }

  lemma MulAtLeast(x: int, n: nat)
    requires x >= 1
    ensures x * n >= n
  {
    MulPred(x, n);
  }

  lemma DivModIndex(q: nat, r: nat, n: nat)
    requires r < n
    ensures (q * n + r) / n == q && (q * n + r) % n == r
  {
    var x := q * n + r;
    var d, m := x / n, x % n;
    assert (d - q) * n == r - m;
    if d > q {
      MulAtLeast(d - q, n);
    } else if d < q {
      MulAtLeast(q - d, n);
    }
  }

  lemma IndexBound(q: nat, r: nat, n: nat)
    requires q < n && r < n
    ensures q * n + r < n * n
  {
    MulPred(n - q, n);
    assert n * n == q * n + (n - q) * n;
  }

  lemma DivBound(a: nat, n: nat)
    requires a < n * n
    ensures n > 0 && a / n < n && a % n < n
  {
  }

  /** The tensor entry that belongs in cell (a, b) of the ns^2 x ns^2 Liouville matrix. */
  function Cell(rho: seq<seq<seq<seq<Complex>>>>, ns: nat, a: nat, b: nat): Complex
    requires IsCube(rho, ns) && a < ns * ns && b < ns * ns
  {
    DivBound(a, ns);
    DivBound(b, ns);
    rho[a / ns][a % ns][b / ns][b % ns]
  }

  /** Cell (i*ns + j, k*ns + l) holds rho[i][j][k][l]. */
  lemma CellAt(rho: seq<seq<seq<seq<Complex>>>>, ns: nat, i: nat, j: nat, k: nat, l: nat)
    requires IsCube(rho, ns) && i < ns && j < ns && k < ns && l < ns
    ensures i * ns + j < ns * ns && k * ns + l < ns * ns
    ensures Cell(rho, ns, i * ns + j, k * ns + l) == rho[i][j][k][l]
  {
    IndexBound(i, j, ns);
    IndexBound(k, l, ns);
    DivModIndex(i, j, ns);
    DivModIndex(k, l, ns);
  }

  /** Row-major progress through the cells: (a, b) comes before the counters (I, J). */
  predicate Before(a: nat, b: nat, I: nat, J: nat) {
    a < I || (a == I && b < J)
  }

  /**
   * The state of the copy loop at counters (I, J): every cell before (I, J) has been written
   * once, with its tensor entry, and nothing else has been written.
   */
  ghost predicate CopiedUpTo(g: seq<seq<Complex>>, writes: seq<(nat, nat)>,
                             rho: seq<seq<seq<seq<Complex>>>>, ns: nat, I: nat, J: nat)
    requires IsCube(rho, ns)
  {
    && |g| == ns * ns && (forall a :: 0 <= a < ns * ns ==> |g[a]| == ns * ns)
    && (forall x, y :: 0 <= x < y < |writes| ==> writes[x] != writes[y])
    && (forall p :: p in writes ==> p.1 < ns * ns && Before(p.0, p.1, I, J))
    && (forall a, b :: 0 <= a < ns * ns && 0 <= b < ns * ns && Before(a, b, I, J) ==>
          (a, b) in writes && g[a][b] == Cell(rho, ns, a, b))
  }

  /** g holds the cells of m, row by row. */
  ghost predicate Mirrors(m: array2<Complex>, g: seq<seq<Complex>>)
    reads m
  {
    && |g| == m.Length0
    && (forall a :: 0 <= a < m.Length0 ==> |g[a]| == m.Length1)
    && (forall a, b :: 0 <= a < m.Length0 && 0 <= b < m.Length1 ==> g[a][b] == m[a, b])
  }

  /** Writing cell (I, J) and stepping J keeps the loop state. */
  lemma CopyStep(g: seq<seq<Complex>>, writes: seq<(nat, nat)>,
                 rho: seq<seq<seq<seq<Complex>>>>, ns: nat, I: nat, J: nat)
    requires IsCube(rho, ns) && I < ns * ns && J < ns * ns
    requires CopiedUpTo(g, writes, rho, ns, I, J)
    ensures CopiedUpTo(g[I := g[I][J := Cell(rho, ns, I, J)]], writes + [(I, J)], rho, ns, I, J + 1)
  {
  }

  /** A finished row of cells: moving the row counter on and resetting J keeps the loop state. */
  lemma RowDone(g: seq<seq<Complex>>, writes: seq<(nat, nat)>,
                rho: seq<seq<seq<seq<Complex>>>>, ns: nat, I: nat)
    requires IsCube(rho, ns)
    requires CopiedUpTo(g, writes, rho, ns, I, ns * ns)
    ensures CopiedUpTo(g, writes, rho, ns, I + 1, 0)
  {
  }

  /** The n cells (I, lo), (I, lo + 1), ..., (I, lo + n - 1) of row I, in column order. */
  function RowCells(I: nat, lo: nat, n: nat): (r: seq<(nat, nat)>)
    ensures |r| == n
    ensures forall l :: 0 <= l < n ==> r[l] == (I, lo + l)
  {
    seq(n, l requires 0 <= l < n => (I, lo + l))
  }

  /** Two adjacent runs of row I make up the run that spans both. */
  lemma RowCellsAppend(I: nat, lo: nat, m: nat, n: nat)
    ensures RowCells(I, lo, m) + RowCells(I, lo + m, n) == RowCells(I, lo, m + n)
  {
    var left, right, whole := RowCells(I, lo, m), RowCells(I, lo + m, n), RowCells(I, lo, m + n);
    forall l | 0 <= l < m + n
      ensures (left + right)[l] == whole[l]
    {
      if l >= m {
        assert right[l - m] == (I, lo + m + (l - m));
      }
    }
  }

  /**
   * The innermost loop of to_liouville's tensor branch: for one (i, j, k), with the row
   * counter at I = i*ns + j and the column counter J at k*ns on entry, copy every
   * rho[i][j][k][l] into cell (I, J) and step J, in order of l. The block's ns cells are
   * written once each, in column order, and no other cell changes.
   */
  method CopyBlock(rho: seq<seq<seq<seq<Complex>>>>, ns: nat, i: nat, j: nat, k: nat,
                   rhoMat: array2<Complex>, I: nat, J0: nat,
                   ghost g0: seq<seq<Complex>>, ghost writes0: seq<(nat, nat)>)
    returns (J: nat, ghost g: seq<seq<Complex>>, ghost writes: seq<(nat, nat)>)
    requires IsCube(rho, ns) && i < ns && j < ns && k < ns
    requires I == i * ns + j && J0 == k * ns
    requires rhoMat.Length0 == ns * ns && rhoMat.Length1 == ns * ns
    requires Mirrors(rhoMat, g0) && CopiedUpTo(g0, writes0, rho, ns, I, J0)
    modifies rhoMat
    ensures J == J0 + ns
    ensures Mirrors(rhoMat, g) && CopiedUpTo(g, writes, rho, ns, I, J)
    ensures writes == writes0 + RowCells(I, J0, ns)
    ensures forall a, b :: 0 <= a < rhoMat.Length0 && 0 <= b < rhoMat.Length1 && !(a == I && J0 <= b < J) ==>
      rhoMat[a, b] == old(rhoMat[a, b])
    ensures forall a :: 0 <= a < |g| && a != I ==> g[a] == g0[a]
  {
    J := J0;
    g, writes := g0, writes0;
    for l := 0 to ns
      invariant J == J0 + l
      invariant Mirrors(rhoMat, g) && CopiedUpTo(g, writes, rho, ns, I, J)
      invariant writes == writes0 + RowCells(I, J0, l)
      invariant forall a, b :: 0 <= a < rhoMat.Length0 && 0 <= b < rhoMat.Length1 && !(a == I && J0 <= b < J) ==>
        rhoMat[a, b] == old(rhoMat[a, b])
    {
      CellAt(rho, ns, i, j, k, l);
      CopyStep(g, writes, rho, ns, I, J);
      RowCellsAppend(I, J0, l, 1);
      rhoMat[I, J] := rho[i][j][k][l];
      g := g[I := g[I][J := rho[i][j][k][l]]];
      writes := writes + [(I, J)];
      J := J + 1;
    }
  }

  /**
   * The two inner loops of to_liouville's tensor branch: for one (i, j), with the row
   * counter at I = i*ns + j, reset J to 0 and copy row I one block of ns cells per k
   * (CopyBlock). Row I's ns^2 cells are written once each, in column order, and no other
   * row changes.
   */
  method CopyRow(rho: seq<seq<seq<seq<Complex>>>>, ns: nat, i: nat, j: nat, rhoMat: array2<Complex>,
                 I: nat, ghost g0: seq<seq<Complex>>, ghost writes0: seq<(nat, nat)>)
    returns (ghost g: seq<seq<Complex>>, ghost writes: seq<(nat, nat)>)
    requires IsCube(rho, ns) && i < ns && j < ns && I == i * ns + j
    requires rhoMat.Length0 == ns * ns && rhoMat.Length1 == ns * ns
    requires Mirrors(rhoMat, g0) && CopiedUpTo(g0, writes0, rho, ns, I, 0)
    modifies rhoMat
    ensures Mirrors(rhoMat, g) && CopiedUpTo(g, writes, rho, ns, I + 1, 0)
    ensures writes == writes0 + RowCells(I, 0, ns * ns)
    ensures forall a, b :: 0 <= a < rhoMat.Length0 && 0 <= b < rhoMat.Length1 && a != I ==>
      rhoMat[a, b] == old(rhoMat[a, b])
  {
    var J := 0;
    g, writes := g0, writes0;
    for k := 0 to ns
      invariant J == k * ns
      invariant Mirrors(rhoMat, g) && CopiedUpTo(g, writes, rho, ns, I, J)
      invariant writes == writes0 + RowCells(I, 0, J)
      invariant forall a :: 0 <= a < |g| && a != I ==> g[a] == g0[a]
    {
      RowCellsAppend(I, 0, J, ns);
      J, g, writes := CopyBlock(rho, ns, i, j, k, rhoMat, I, J, g, writes);
      MulPred(k + 1, ns);
    }
    RowDone(g, writes, rho, ns, I);
  }

  /**
   * to_liouville on an ns x ns x ns x ns array: four nested loops copy rho[i,j,k,l] into
   * cell (I, J) of a preallocated ns^2 x ns^2 matrix; the row counter I starts at 0 and
   * steps once per (i, j), and the inner two loops, which reset and step the column
   * counter J, are CopyRow. `writes` logs the cells in the order they are written; the
   * row counter is returned as the loops leave it.
   */
  method TensorToLiouville(rho: seq<seq<seq<seq<Complex>>>>)
    returns (rhoMat: array2<Complex>, I: nat, ghost writes: seq<(nat, nat)>)
    requires IsCube(rho, |rho|)
    ensures fresh(rhoMat)
    ensures rhoMat.Length0 == |rho| * |rho| && rhoMat.Length1 == |rho| * |rho|
    ensures I == |rho| * |rho|
    ensures forall a, b :: 0 <= a < |rho| * |rho| && 0 <= b < |rho| * |rho| ==>
      rhoMat[a, b] == Cell(rho, |rho|, a, b)
    ensures forall a, b :: 0 <= a < |rho| * |rho| && 0 <= b < |rho| * |rho| ==> (a, b) in writes
    ensures forall p :: p in writes ==> p.0 < |rho| * |rho| && p.1 < |rho| * |rho|
    ensures forall x, y :: 0 <= x < y < |writes| ==> writes[x] != writes[y]
  {
    var ns := |rho|;
    rhoMat := new Complex[ns * ns, ns * ns]((_, _) => Zero);
    writes := [];
    I := 0;
    // g mirrors the array's cells, so that the loop state can be stated on a value
    ghost var g := seq(ns * ns, a requires 0 <= a < ns * ns => seq(ns * ns, b requires 0 <= b < ns * ns => Zero));
    for i := 0 to ns
      invariant I == i * ns
      invariant Mirrors(rhoMat, g) && CopiedUpTo(g, writes, rho, ns, I, 0)
    {
      for j := 0 to ns
        invariant I == i * ns + j
        invariant Mirrors(rhoMat, g) && CopiedUpTo(g, writes, rho, ns, I, 0)
      {
        g, writes := CopyRow(rho, ns, i, j, rhoMat, I, g, writes);
        I := I + 1;
      }
      MulPred(i + 1, ns);
    }
  }
}
