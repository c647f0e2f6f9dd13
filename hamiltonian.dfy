/**
 * The Hamiltonian bookkeeping of qdynos/hamiltonian.py: the Hermiticity gate at construction,
 * the transition-frequency matrix and its sorted unique values, the eigenbasis changes and
 * the system commutator, and the multi-mode coordinate table of MDHamiltonian. The
 * eigensolver np.linalg.eigh is not modelled: its outputs (ev, ek) are construction inputs.
 */
module Hamiltonians {
  import opened ComplexNumbers
  import opened Matrices
  import opened Errors
  import Utils

  /** A bath coupled to the system: its coupling operator and its correlation function in time and frequency. */
  datatype Bath = Bath(cOp: Matrix, corrT: real -> Complex, ftCorr: real -> Complex)

  // ---------------------------------------------------------------------------
  // Transition frequencies

  /** omegas[i][j] = (ev[i] - ev[j]) / hbar: hbar times each entry is a level difference. */
  function Omegas(ev: seq<real>, hbar: real): (w: seq<seq<real>>)
    requires hbar != 0.0
    ensures |w| == |ev| && forall i :: 0 <= i < |ev| ==> |w[i]| == |ev|
    ensures forall i, j :: 0 <= i < |ev| && 0 <= j < |ev| ==> w[i][j] * hbar == ev[i] - ev[j]
  {
    seq(|ev|, i requires 0 <= i < |ev| => seq(|ev|, j requires 0 <= j < |ev| => (ev[i] - ev[j]) / hbar))
  }

  /** Two real numbers whose products with a nonzero h are opposite are opposite. */
  lemma OppositeQuotients(a: real, b: real, h: real)
    requires h != 0.0 && a * h == -(b * h)
    ensures a == -b
  {
    assert (a + b) * h == 0.0;
  }

  /** The frequency matrix is antisymmetric, with a zero diagonal. */
  lemma OmegasAntisymmetric(ev: seq<real>, hbar: real)
    requires hbar != 0.0
    ensures forall i, j :: 0 <= i < |ev| && 0 <= j < |ev| ==> Omegas(ev, hbar)[i][j] == -Omegas(ev, hbar)[j][i]
    ensures forall i :: 0 <= i < |ev| ==> Omegas(ev, hbar)[i][i] == 0.0
  {
    var w := Omegas(ev, hbar);
    forall i, j | 0 <= i < |ev| && 0 <= j < |ev| ensures w[i][j] == -w[j][i] {
      OppositeQuotients(w[i][j], w[j][i], hbar);
    }
  }

  /** The entries of a 2-D array, row by row (what np.unique flattens). */
  function ConcatRows(rows: seq<seq<real>>): (xs: seq<real>)
    ensures forall x :: x in xs <==> exists i :: 0 <= i < |rows| && x in rows[i]
  {
    if |rows| == 0 then [] else
      var rest := ConcatRows(rows[1..]);
      assert forall i :: 1 <= i < |rows| ==> rows[i] == rows[1..][i - 1];
      rows[0] + rest
  }

  predicate StrictlyAscending(xs: seq<real>) {
    forall p, q :: 0 <= p < q < |xs| ==> xs[p] < xs[q]
  }

  /** Inserting x into a strictly ascending sequence, unless it is already there. */
  function Insert(x: real, xs: seq<real>): (r: seq<real>)
    requires StrictlyAscending(xs)
    ensures StrictlyAscending(r)
    ensures forall y :: y in r <==> y == x || y in xs
  {
    if |xs| == 0 then [x]
    else if x < xs[0] then [x] + xs
    else if x == xs[0] then xs
    else
      var rest := Insert(x, xs[1..]);
      assert forall q :: 0 <= q < |rest| ==> xs[0] < rest[q] by {
        forall q | 0 <= q < |rest| ensures xs[0] < rest[q] {
          assert rest[q] in rest;
        }
      }
      [xs[0]] + rest
  }

  /** np.unique on a flat sequence: its distinct values, strictly ascending. */
  function Unique(xs: seq<real>): (r: seq<real>)
    ensures StrictlyAscending(r)
    ensures forall y :: y in r <==> y in xs
  {
    if |xs| == 0 then [] else
      var init := xs[..|xs| - 1];
      assert xs == init + [xs[|xs| - 1]];
      Insert(xs[|xs| - 1], Unique(init))
  }

  /** A strictly ascending sequence is determined by its set of values, so np.unique has one answer. */
  lemma {:induction false} AscendingDetermined(r: seq<real>, s: seq<real>)
    requires StrictlyAscending(r) && StrictlyAscending(s)
    requires forall y :: y in r <==> y in s
    ensures r == s
    decreases |r|
  {
    assert |r| > 0 ==> r[0] in r && |s| > 0;
    assert |s| > 0 ==> s[0] in s && |r| > 0;
    if |r| > 0 {
      // both heads are the least element of the common set
      var q :| 0 <= q < |s| && s[q] == r[0];
      assert s[0] <= r[0];
      var p :| 0 <= p < |r| && r[p] == s[0];
      assert r[0] <= s[0];
      forall y ensures y in r[1..] <==> y in s[1..] {
        if y in r[1..] {
          var p :| 1 <= p < |r| && r[p] == y;
          assert y in s;
          var q :| 0 <= q < |s| && s[q] == y;
          assert q != 0;
          assert s[1..][q - 1] == y;
        }
        if y in s[1..] {
          var q :| 1 <= q < |s| && s[q] == y;
          assert y in r;
          var p :| 0 <= p < |r| && r[p] == y;
          assert p != 0;
          assert r[1..][p - 1] == y;
        }
      }
      AscendingDetermined(r[1..], s[1..]);
    }
  }

  /** Every entry of a table is among its unique entries. */
  lemma EntryIsFrequency(w: seq<seq<real>>, i: nat, j: nat)
    requires i < |w| && j < |w[i]|
    ensures w[i][j] in Unique(ConcatRows(w))
  {
    assert w[i][j] in w[i];
  }

  /** Every unique entry of an n x n table is the entry at some position. */
  lemma FrequencyWitness(w: seq<seq<real>>, n: nat, x: real) returns (i: nat, j: nat)
    requires |w| == n && forall i :: 0 <= i < n ==> |w[i]| == n
    requires x in Unique(ConcatRows(w))
    ensures i < n && j < n && w[i][j] == x
  {
    i :| 0 <= i < n && x in w[i];
    j :| 0 <= j < n && w[i][j] == x;
  }

  /** A value is among the unique entries of an n x n table exactly when some entry equals it. */
  lemma FrequencyMembership(w: seq<seq<real>>, n: nat, x: real)
    requires |w| == n && forall i :: 0 <= i < n ==> |w[i]| == n
    ensures x in Unique(ConcatRows(w)) <==> exists i, j :: 0 <= i < n && 0 <= j < n && w[i][j] == x
  {
    if x in Unique(ConcatRows(w)) {
      var i, j := FrequencyWitness(w, n, x);
    }
    if exists i, j :: 0 <= i < n && 0 <= j < n && w[i][j] == x {
      var i, j :| 0 <= i < n && 0 <= j < n && w[i][j] == x;
      EntryIsFrequency(w, i, j);
    }
  }

  /** The unique entries of an antisymmetric table are closed under negation. */
  lemma AntisymmetricUnique(w: seq<seq<real>>, n: nat, x: real)
    requires |w| == n && forall i :: 0 <= i < n ==> |w[i]| == n
    requires forall i, j :: 0 <= i < n && 0 <= j < n ==> w[i][j] == -w[j][i]
    requires x in Unique(ConcatRows(w))
    ensures -x in Unique(ConcatRows(w))
  {
    var i, j := FrequencyWitness(w, n, x);
    EntryIsFrequency(w, j, i);
  }

  /** The set of transition frequencies is closed under negation. */
  lemma FrequenciesSymmetric(ev: seq<real>, hbar: real, x: real)
    requires hbar != 0.0
    requires x in Unique(ConcatRows(Omegas(ev, hbar)))
    ensures -x in Unique(ConcatRows(Omegas(ev, hbar)))
  {
    OmegasAntisymmetric(ev, hbar);
    AntisymmetricUnique(Omegas(ev, hbar), |ev|, x);
  }

  /** With at least one level, 0 is a transition frequency (the diagonal). */
  lemma ZeroIsFrequency(ev: seq<real>, hbar: real)
    requires hbar != 0.0 && |ev| > 0
    ensures 0.0 in Unique(ConcatRows(Omegas(ev, hbar)))
  {
    var w := Omegas(ev, hbar);
    OmegasAntisymmetric(ev, hbar);
    assert w[0][0] == 0.0;
    assert 0.0 in w[0];
  }

  /** The commutator with diag(d) scales entry (i, j) by d[i] - d[j]. */
  lemma DiagCommutatorEntry(d: seq<real>, op: Matrix, i: nat, j: nat)
    requires IsSquare(op, |d|) && i < |d| && j < |d|
    ensures Utils.Commutator(Diag(d), op).data[i][j] == Scale(d[i] - d[j], op.data[i][j])
  {
    var x := op.data[i][j];
    DiagMul(d, op, i, j);
    MulDiag(op, d, i, j);
    assert Utils.Commutator(Diag(d), op).data[i][j] == Sub(Scale(d[i], x), Scale(d[j], x));
    ScaleSub(d[i], d[j], x);
  }

  // ---------------------------------------------------------------------------
  // The Hermiticity gate

  /**
   * check_hermiticity(H): is_hermitian either answers True or raises itself, so the
   * method's own 'Hamiltonian is not Hermitian' error is never the one that escapes.
   */
  function CheckHermiticity(H: Matrix): (r: Outcome)
    ensures r == Pass <==> H.rows == H.cols && Utils.Dag(H) == H
    ensures r.Fail? ==> r.error == (if H.rows == H.cols then NotHermitian else NotMatrix)
    ensures r.Fail? ==> r.error != HamiltonianNotHermitian
  {
    var answer := Utils.IsHermitian(H);
    if answer.Err? then Fail(answer.error)
    else if answer.value then Pass
    else Fail(HamiltonianNotHermitian)
  }

  /** ek is unitary: its adjoint is its inverse on both sides. */
  predicate Unitary(u: Matrix) {
    u.rows == u.cols && MatMul(Utils.Dag(u), u) == Identity(u.rows) && MatMul(u, Utils.Dag(u)) == Identity(u.rows)
  }

  /** The system Hamiltonian, its eigensystem and its baths (class Hamiltonian). */
  class Hamiltonian {
    const hbar: real
    const nstates: nat
    const ham: Matrix
    /** Eigenvalues and eigenvectors (columns of ek) of ham, as np.linalg.eigh returns them. */
    const ev: seq<real>
    const ek: Matrix
    const baths: Option<seq<Bath>>
    /** Set only when baths are given. */
    const nbaths: Option<nat>
    /** Built as an MDHamiltonian (what its __repr__ tells apart). */
    const multidimensional: bool
    var isHermitian: bool
    var omegas: array2<real>
    /** Set by compute_unique_freqs only. */
    var frequencies: Option<seq<real>>

    /** What construction establishes about the immutable fields. */
    predicate Wellformed() {
      && hbar != 0.0
      && IsSquare(ham, nstates) && Utils.Dag(ham) == ham
      && |ev| == nstates && IsSquare(ek, nstates)
      && (baths.Some? <==> nbaths.Some?)
      && (baths.Some? ==> nbaths.value == |baths.value|)
    }

    /** omegas holds the transition frequencies of ev, and frequencies (once set) their sorted set. */
    ghost predicate Valid()
      reads this, omegas
    {
      && Wellformed()
      && isHermitian
      && omegas.Length0 == nstates && omegas.Length1 == nstates
      && (forall i, j :: 0 <= i < nstates && 0 <= j < nstates ==> omegas[i, j] == Omegas(ev, hbar)[i][j])
      && (frequencies.Some? ==> frequencies.value == Unique(ConcatRows(Omegas(ev, hbar))))
    }

    /**
     * __init__ once the Hermiticity gate has passed (Create runs the gate): store H, take
     * the eigensystem and fill omegas, keep the baths and count them.
     */
    constructor Init(H: Matrix, baths: Option<seq<Bath>>, hbar: real, ev: seq<real>, ek: Matrix, multidimensional: bool)
      requires CheckHermiticity(H) == Pass
      requires |ev| == H.rows && IsSquare(ek, H.rows) && hbar != 0.0
      ensures Valid() && fresh(omegas)
      ensures this.hbar == hbar && nstates == H.rows && ham == H && this.ev == ev && this.ek == ek
      ensures this.baths == baths && nbaths == (if baths.Some? then Some(|baths.value|) else None)
      ensures this.multidimensional == multidimensional && isHermitian && frequencies.None?
    {
      this.hbar := hbar;
      nstates := H.rows;
      isHermitian := true;
      ham := H;
      this.ev := ev;
      this.ek := ek;
      this.baths := baths;
      nbaths := if baths.Some? then Some(|baths.value|) else None;
      this.multidimensional := multidimensional;
      omegas := new real[0, 0];
      frequencies := None;
      new;
      ComputeFrequencies();
    }

    /**
     * Hamiltonian(H, baths, hbar): raises unless H is square and equal to its adjoint;
     * otherwise the constructed object.
     */
    static method Create(H: Matrix, baths: Option<seq<Bath>>, hbar: real, ev: seq<real>, ek: Matrix)
      returns (r: Result<Hamiltonian>)
      requires |ev| == H.rows && IsSquare(ek, H.rows) && hbar != 0.0
      ensures r.Err? <==> !(H.rows == H.cols && Utils.Dag(H) == H)
      ensures r.Err? ==> r.error == (if H.rows == H.cols then NotHermitian else NotMatrix)
      ensures r.Ok? ==> fresh(r.value) && fresh(r.value.omegas) && r.value.Valid() && !r.value.multidimensional
      ensures r.Ok? ==> r.value.ham == H && r.value.ev == ev && r.value.ek == ek && r.value.baths == baths
      ensures r.Ok? ==> r.value.hbar == hbar && r.value.nstates == H.rows && r.value.isHermitian
      ensures r.Ok? ==> r.value.nbaths == (if baths.Some? then Some(|baths.value|) else None)
    {
      var gate := CheckHermiticity(H);
      if gate.Fail? {
        return Err(gate.error);
      }
      var h := new Hamiltonian.Init(H, baths, hbar, ev, ek, false);
      return Ok(h);
    }

    /** compute_frequencies: a fresh nstates x nstates array filled entry by entry. */
    method ComputeFrequencies()
      requires Wellformed()
      modifies this
      ensures fresh(omegas)
      ensures omegas.Length0 == nstates && omegas.Length1 == nstates
      ensures forall i, j :: 0 <= i < nstates && 0 <= j < nstates ==> omegas[i, j] == Omegas(ev, hbar)[i][j]
      ensures isHermitian == old(isHermitian) && frequencies == old(frequencies)
    {
      var w := new real[nstates, nstates]((_, _) => 0.0);
      for i := 0 to nstates
        modifies w
        invariant forall a, b :: 0 <= a < i && 0 <= b < nstates ==> w[a, b] == Omegas(ev, hbar)[a][b]
      {
        for j := 0 to nstates
          modifies w
          invariant forall a, b :: 0 <= a < i && 0 <= b < nstates ==> w[a, b] == Omegas(ev, hbar)[a][b]
          invariant forall b :: 0 <= b < j ==> w[i, b] == Omegas(ev, hbar)[i][b]
        {
          w[i, j] := (ev[i] - ev[j]) / hbar;
        }
      }
      omegas := w;
    }

    /** omegas read back row by row: the transition-frequency table. */
    function OmegaTable(): (w: seq<seq<real>>)
      reads this, omegas
      requires Valid()
      ensures w == Omegas(ev, hbar)
    {
      var rows := seq(omegas.Length0, i requires 0 <= i < omegas.Length0 reads this, omegas =>
        seq(omegas.Length1, j requires 0 <= i < omegas.Length0 && 0 <= j < omegas.Length1 reads this, omegas =>
          omegas[i, j]));
      assert rows == Omegas(ev, hbar) by {
        forall i | 0 <= i < nstates ensures rows[i] == Omegas(ev, hbar)[i] {
          assert forall j :: 0 <= j < nstates ==> rows[i][j] == Omegas(ev, hbar)[i][j];
        }
      }
      rows
    }

    /** compute_unique_freqs: the distinct entries of omegas, strictly ascending. */
    method ComputeUniqueFreqs()
      requires Valid()
      modifies this`frequencies
      ensures Valid()
      ensures frequencies.Some? && StrictlyAscending(frequencies.value)
      ensures forall x :: x in frequencies.value <==>
        exists i, j :: 0 <= i < nstates && 0 <= j < nstates && omegas[i, j] == x
    {
      var w := OmegaTable();
      var u := Unique(ConcatRows(w));
      forall x ensures x in u <==> exists i, j :: 0 <= i < nstates && 0 <= j < nstates && omegas[i, j] == x {
        if x in u {
          var i, j := FrequencyWitness(w, nstates, x);
          assert omegas[i, j] == x;
        }
        if exists i, j :: 0 <= i < nstates && 0 <= j < nstates && omegas[i, j] == x {
          var i, j :| 0 <= i < nstates && 0 <= j < nstates && omegas[i, j] == x;
          EntryIsFrequency(w, i, j);
        }
      }
      frequencies := Some(u);
    }

    // -------------------------------------------------------------------------
    // Basis changes

    /**
     * to_eigenbasis(op): ek^dag.op for a vector shape, ek^dag.op.ek for a square one. Every
     * 2-D shape is one or the other, so 'Not a valid operator' is never raised.
     */
    function ToEigenbasis(op: Matrix): (r: Result<Matrix>)
      requires Wellformed() && op.rows == nstates
      ensures r.Ok? && r.value.rows == nstates && r.value.cols == op.cols
    {
      if Utils.IsVector(Shape(op)) then Ok(MatMul(Utils.Dag(ek), op))
      else if Utils.IsMatrix(Shape(op)) then Ok(MatMul(Utils.Dag(ek), MatMul(op, ek)))
      else Err(InvalidOperator)
    }

    /** from_eigenbasis(op): ek.op for a vector shape, ek.op.ek^dag for a square one. */
    function FromEigenbasis(op: Matrix): (r: Result<Matrix>)
      requires Wellformed() && op.rows == nstates
      ensures r.Ok? && r.value.rows == nstates && r.value.cols == op.cols
    {
      if Utils.IsVector(Shape(op)) then Ok(MatMul(ek, op))
      else if Utils.IsMatrix(Shape(op)) then Ok(MatMul(ek, MatMul(op, Utils.Dag(ek))))
      else Err(InvalidOperator)
    }

    /** With ek unitary, the two basis changes undo each other, in either order. */
    lemma EigenbasisRoundTrip(op: Matrix)
      requires Wellformed() && Unitary(ek) && op.rows == nstates
      ensures FromEigenbasis(ToEigenbasis(op).value) == Ok(op)
      ensures ToEigenbasis(FromEigenbasis(op).value) == Ok(op)
    {
      var d := Utils.Dag(ek);
      var id := Identity(nstates);
      MatMulIdentity(op);
      if op.rows != op.cols {
        calc {
          MatMul(ek, MatMul(d, op));
          { MatMulAssoc(ek, d, op); }
          MatMul(id, op);
        }
        calc {
          MatMul(d, MatMul(ek, op));
          { MatMulAssoc(d, ek, op); }
          MatMul(id, op);
        }
      } else {
        calc {
          MatMul(MatMul(d, MatMul(op, ek)), d);
          { MatMulAssoc(d, MatMul(op, ek), d); }
          MatMul(d, MatMul(MatMul(op, ek), d));
          { MatMulAssoc(op, ek, d); }
          MatMul(d, MatMul(op, id));
        }
        calc {
          MatMul(ek, MatMul(d, op));
          { MatMulAssoc(ek, d, op); }
          MatMul(id, op);
        }
        calc {
          MatMul(MatMul(ek, MatMul(op, d)), ek);
          { MatMulAssoc(ek, MatMul(op, d), ek); }
          MatMul(ek, MatMul(MatMul(op, d), ek));
          { MatMulAssoc(op, d, ek); }
          MatMul(ek, MatMul(op, id));
        }
        calc {
          MatMul(d, MatMul(ek, op));
          { MatMulAssoc(d, ek, op); }
          MatMul(id, op);
        }
      }
    }

    /** When ek diagonalises ham (ham.ek == ek.diag(ev), as eigh promises), ham in the eigenbasis is diag(ev). */
    lemma HamiltonianInEigenbasis()
      requires Wellformed() && Unitary(ek) && MatMul(ham, ek) == MatMul(ek, Diag(ev))
      ensures ToEigenbasis(ham) == Ok(Diag(ev))
    {
      var d := Utils.Dag(ek);
      calc {
        MatMul(d, MatMul(ham, ek));
        MatMul(d, MatMul(ek, Diag(ev)));
        { MatMulAssoc(d, ek, Diag(ev)); }
        MatMul(Identity(nstates), Diag(ev));
        { MatMulIdentity(Diag(ev)); }
        Diag(ev);
      }
    }

    // -------------------------------------------------------------------------
    // The system commutator

    /** commutator(op, eig): [diag(ev), op] in the eigenbasis, [ham, op] otherwise. */
    function Commutator(op: Matrix, eig: bool): (r: Matrix)
      requires Wellformed() && IsSquare(op, nstates)
      ensures IsSquare(r, nstates)
    {
      if eig then Utils.Commutator(Diag(ev), op) else Utils.Commutator(ham, op)
    }

    /**
     * In the eigenbasis the commutator scales each entry by the level difference
     * ev[i] - ev[j], which Omegas states is hbar * omegas[i][j].
     */
    lemma EigCommutatorEntry(op: Matrix, i: nat, j: nat)
      requires Wellformed() && IsSquare(op, nstates) && i < nstates && j < nstates
      ensures Commutator(op, true).data[i][j] == Scale(ev[i] - ev[j], op.data[i][j])
    {
      DiagCommutatorEntry(ev, op, i, j);
      assert Commutator(op, true) == Utils.Commutator(Diag(ev), op);
    }

    /** So the eigenbasis commutator has a zero diagonal. */
    lemma EigCommutatorDiagonal(op: Matrix, i: nat)
      requires Wellformed() && IsSquare(op, nstates) && i < nstates
      ensures Commutator(op, true).data[i][i] == Zero
    {
      DiagCommutatorEntry(ev, op, i, i);
      assert ev[i] - ev[i] == 0.0;
      assert Commutator(op, true) == Utils.Commutator(Diag(ev), op);
    }

    /**
     * The two branches agree: when ek is unitary and diagonalises ham, the commutator with
     * ham taken to the eigenbasis is the eigenbasis commutator of the transformed operator.
     */
    lemma CommutatorBasisChange(op: Matrix)
      requires Wellformed() && Unitary(ek) && MatMul(ham, ek) == MatMul(ek, Diag(ev))
      requires IsSquare(op, nstates)
      ensures ToEigenbasis(Commutator(op, false)) == Ok(Commutator(ToEigenbasis(op).value, true))
    {
      var d := Utils.Dag(ek);
      var id := Identity(nstates);
      var D := Diag(ev);
      var opE := MatMul(d, MatMul(op, ek));
      HamiltonianInEigenbasis();
      // d.(x.y).ek == (d.x.ek).(d.y.ek), inserting ek.d == id between x and y
      forall x: Matrix, y: Matrix | IsSquare(x, nstates) && IsSquare(y, nstates)
        ensures MatMul(d, MatMul(MatMul(x, y), ek)) == MatMul(MatMul(d, MatMul(x, ek)), MatMul(d, MatMul(y, ek)))
      {
        Conjugated(x, y);
      }
      calc {
        MatMul(d, MatMul(Utils.Commutator(ham, op), ek));
        { MatMulSubRight(MatMul(ham, op), MatMul(op, ham), ek); }
        MatMul(d, MatSub(MatMul(MatMul(ham, op), ek), MatMul(MatMul(op, ham), ek)));
        { MatMulSubLeft(d, MatMul(MatMul(ham, op), ek), MatMul(MatMul(op, ham), ek)); }
        MatSub(MatMul(d, MatMul(MatMul(ham, op), ek)), MatMul(d, MatMul(MatMul(op, ham), ek)));
        MatSub(MatMul(D, opE), MatMul(opE, D));
      }
    }

    /** Conjugation by a unitary ek is multiplicative: d.(x.y).ek == (d.x.ek).(d.y.ek). */
    lemma Conjugated(x: Matrix, y: Matrix)
      requires Wellformed() && Unitary(ek) && IsSquare(x, nstates) && IsSquare(y, nstates)
      ensures MatMul(Utils.Dag(ek), MatMul(MatMul(x, y), ek))
        == MatMul(MatMul(Utils.Dag(ek), MatMul(x, ek)), MatMul(Utils.Dag(ek), MatMul(y, ek)))
    {
      var d := Utils.Dag(ek);
      var id := Identity(nstates);
      MatMulIdentity(x);
      calc {
        MatMul(MatMul(d, MatMul(x, ek)), MatMul(d, MatMul(y, ek)));
        { MatMulAssoc(d, MatMul(x, ek), MatMul(d, MatMul(y, ek))); }
        MatMul(d, MatMul(MatMul(x, ek), MatMul(d, MatMul(y, ek))));
        { MatMulAssoc(x, ek, MatMul(d, MatMul(y, ek))); }
        MatMul(d, MatMul(x, MatMul(ek, MatMul(d, MatMul(y, ek)))));
        { MatMulAssoc(ek, d, MatMul(y, ek)); }
        MatMul(d, MatMul(x, MatMul(id, MatMul(y, ek))));
        { MatMulIdentity(MatMul(y, ek)); }
        MatMul(d, MatMul(x, MatMul(y, ek)));
        { MatMulAssoc(x, y, ek); }
        MatMul(d, MatMul(MatMul(x, y), ek));
      }
    }
  }

  // ---------------------------------------------------------------------------
  // Multi-dimensional Hamiltonians

  /** A coordinate operator after np.linalg.eigh: the source's [w, v] pair. */
  datatype Diagonalised = Diagonalised(w: seq<real>, v: Matrix)

  /** One electronic state's row of the coordinate table: each operator diagonalised, in order. */
  predicate Tabulated(row: seq<Diagonalised>, ops: seq<Matrix>, eigh: Matrix -> Diagonalised) {
    |row| == |ops| && forall m :: 0 <= m < |ops| ==> row[m] == eigh(ops[m])
  }

  /**
   * class MDHamiltonian: a Hamiltonian of nel electronic states and nmodes modes, with the
   * coordinate operators of every mode in every electronic state kept diagonalised. The
   * Hamiltonian part it shares with class Hamiltonian is `base`.
   */
  class MDHamiltonian {
    const base: Hamiltonian
    const nel: nat
    const nmodes: nat
    /** Set by setup_system_operators when coordinate operators are given. */
    var coords: Option<seq<seq<Diagonalised>>>
    var computeAdiabatic: bool
    /** Kept only when potentials are given. */
    var potentials: Option<seq<seq<real -> real>>>
    var couplings: Option<seq<seq<real -> real>>>

    constructor Init(base: Hamiltonian, nel: nat, nmodes: nat)
      ensures this.base == base && this.nel == nel && this.nmodes == nmodes
      ensures coords.None? && !computeAdiabatic && potentials.None? && couplings.None?
    {
      this.base := base;
      this.nel := nel;
      this.nmodes := nmodes;
      coords := None;
      computeAdiabatic := false;
      potentials := None;
      couplings := None;
    }

    /**
     * MDHamiltonian(H, nel, nmodes, coords, potentials, couplings, baths, hbar): the
     * Hermiticity gate, the eigensystem, the coordinate table (whose length assertion can
     * fail), and compute_adiabatic = False whether or not potentials are given.
     */
    static method Create(H: Matrix, nel: nat, nmodes: nat, coords: Option<seq<seq<Matrix>>>,
                         potentials: Option<seq<seq<real -> real>>>, couplings: Option<seq<seq<real -> real>>>,
                         baths: Option<seq<Bath>>, hbar: real, ev: seq<real>, ek: Matrix,
                         eigh: Matrix -> Diagonalised)
      returns (r: Result<MDHamiltonian>)
      requires |ev| == H.rows && IsSquare(ek, H.rows) && hbar != 0.0
      ensures r.Err? <==> !(H.rows == H.cols && Utils.Dag(H) == H) || (coords.Some? && |coords.value| != nel)
      ensures r.Err? ==>
        r.error == (if H.rows != H.cols then NotMatrix else if Utils.Dag(H) != H then NotHermitian else AssertionFailed)
      ensures r.Ok? ==> fresh(r.value) && fresh(r.value.base) && r.value.base.Valid()
      ensures r.Ok? ==> r.value.base.multidimensional && r.value.base.ham == H && r.value.base.baths == baths
      ensures r.Ok? ==> r.value.base.ev == ev && r.value.base.ek == ek && r.value.base.hbar == hbar
      ensures r.Ok? ==> r.value.base.nstates == H.rows && r.value.base.isHermitian
      ensures r.Ok? ==> r.value.base.nbaths == (if baths.Some? then Some(|baths.value|) else None)
      ensures r.Ok? ==> r.value.nel == nel && r.value.nmodes == nmodes && !r.value.computeAdiabatic
      ensures r.Ok? ==> r.value.potentials == potentials && r.value.couplings == (if potentials.Some? then couplings else None)
      ensures r.Ok? && coords.Some? ==> (r.value.coords.Some? && |r.value.coords.value| == nel &&
        forall e :: 0 <= e < nel ==> Tabulated(r.value.coords.value[e], coords.value[e], eigh))
      ensures r.Ok? && coords.None? ==> r.value.coords.None?
    {
      var gate := CheckHermiticity(H);
      if gate.Fail? {
        return Err(gate.error);
      }
      var h := new Hamiltonian.Init(H, baths, hbar, ev, ek, true);
      var md := new MDHamiltonian.Init(h, nel, nmodes);
      var setup := md.SetupSystemOperators(coords, eigh);
      if setup.Fail? {
        return Err(setup.error);
      }
      md.computeAdiabatic := false;
      if potentials.Some? {
        md.potentials := potentials;
        md.couplings := couplings;
      }
      return Ok(md);
    }

    /**
     * setup_system_operators(coords): when given, coords must hold one list per electronic
     * state (an assertion); each operator is replaced by its eigh pair, keeping the order.
     */
    method SetupSystemOperators(coords: Option<seq<seq<Matrix>>>, eigh: Matrix -> Diagonalised)
      returns (o: Outcome)
      modifies this`coords
      ensures o == Pass <==> coords.None? || |coords.value| == nel
      ensures o.Fail? ==> o.error == AssertionFailed
      ensures o.Fail? || coords.None? ==> this.coords == old(this.coords)
      ensures o == Pass && coords.Some? ==> (this.coords.Some? && |this.coords.value| == nel &&
        forall e :: 0 <= e < nel ==> Tabulated(this.coords.value[e], coords.value[e], eigh))
    {
      if coords.None? {
        return Pass;
      }
      if |coords.value| != nel {
        return Fail(AssertionFailed);
      }
      this.coords := Some([]);
      for e := 0 to nel
        invariant this.coords.Some? && |this.coords.value| == e
        invariant forall a :: 0 <= a < e ==> Tabulated(this.coords.value[a], coords.value[a], eigh)
      {
        var opList := coords.value[e];
        var coordList := [];
        for m := 0 to |opList|
          invariant Tabulated(coordList, opList[..m], eigh)
        {
          coordList := coordList + [eigh(opList[m])];
        }
        assert opList[..|opList|] == opList;
        this.coords := Some(this.coords.value + [coordList]);
      }
      return Pass;
    }
  }
}
