/**
 * The value-level specification of redfield.py's operators: the integrand theta_plus of the
 * TCL2 dressing, the per-stage trapezoid recurrence for gamma_n, and the two Redfield
 * equations of motion. The engine in redfield.dfy is proved to compute these.
 */
module Tcl2 {
  import opened ComplexNumbers
  import opened Matrices
  import Utils
  import Hamiltonians

  predicate AllSquare(ms: seq<Matrix>, n: nat) {
    forall k :: 0 <= k < |ms| ==> IsSquare(ms[k], n)
  }

  predicate SquareTable(w: seq<seq<real>>, n: nat) {
    |w| == n && forall i :: 0 <= i < n ==> |w[i]| == n
  }

  // ---------------------------------------------------------------------------
  // The dressing integrand and its stage grid

  /** theta_plus at time t: exp(-1j*omegas*t) * bath_corr_t(t), entry by entry. */
  function Theta(om: seq<seq<real>>, n: nat, cexp: Complex -> Complex, corrT: real -> Complex, t: real): (th: Matrix)
    requires SquareTable(om, n)
    ensures IsSquare(th, n)
  {
    var data := seq(n, i requires 0 <= i < n =>
      seq(n, j requires 0 <= i < n && 0 <= j < n => Mul(cexp(Complex(0.0, -(om[i][j] * t))), corrT(t))));
    assert forall i :: 0 <= i < n ==> |data[i]| == n;
    Dense(n, n, data)
  }

  /** theta_plus at each of the given stage times. */
  function Thetas(om: seq<seq<real>>, n: nat, cexp: Complex -> Complex, corrT: real -> Complex, ts: seq<real>): (th: seq<Matrix>)
    requires SquareTable(om, n)
    ensures |th| == |ts| && AllSquare(th, n)
  {
    seq(|ts|, k requires 0 <= k < |ts| => Theta(om, n, cexp, corrT, ts[k]))
  }

  lemma ThetasAt(om: seq<seq<real>>, n: nat, cexp: Complex -> Complex, corrT: real -> Complex, ts: seq<real>, k: nat)
    requires SquareTable(om, n) && k < |ts|
    ensures Thetas(om, n, cexp, corrT, ts)[k] == Theta(om, n, cexp, corrT, ts[k])
  {
  }

  /** The stage times of coupling_operators_setup: stage 0 at 0.0, stage k at b[k]*dt. */
  function SetupTimes(b: seq<real>, dt: real): (ts: seq<real>)
    ensures |ts| == |b|
  {
    seq(|b|, k requires 0 <= k < |b| => if k == 0 then 0.0 else b[k] * dt)
  }

  /** The stage times of make_tcl2_operators(time): stage k at time + b[k]*dt, stage 0 included. */
  function StepTimes(b: seq<real>, dt: real, time: real): (ts: seq<real>)
    ensures |ts| == |b|
  {
    seq(|b|, k requires 0 <= k < |b| => time + b[k] * dt)
  }

  /** Half the width of stage interval k: 0.5*(b[k]-b[k-1])*dt. */
  function StageWidth(b: seq<real>, dt: real, k: nat): real
    requires 0 < k < |b|
  {
    0.5 * (b[k] - b[k - 1]) * dt
  }

  /** Time elapsed from stage 0 to stage k: (b[k]-b[0])*dt. */
  function Elapsed(b: seq<real>, dt: real, k: nat): real
    requires k < |b|
  {
    (b[k] - b[0]) * dt
  }

  /** One trapezoid step: prev + h*(theta + prevTheta). */
  function Trap(prev: Matrix, prevTheta: Matrix, theta: Matrix, h: real): (g: Matrix)
    requires prev.rows == prevTheta.rows == theta.rows && prev.cols == prevTheta.cols == theta.cols
    ensures g.rows == prev.rows && g.cols == prev.cols
  {
    MatAdd(prev, RealScale(h, MatAdd(theta, prevTheta)))
  }

  /**
   * gamma_n over stages 0..m-1: the seed at stage 0, then one trapezoid step per stage on
   * the integrand values th.
   */
  function Gammas(seed: Matrix, th: seq<Matrix>, b: seq<real>, dt: real, m: nat): (g: seq<Matrix>)
    requires m <= |b| && |th| == |b| && IsSquare(seed, seed.rows) && AllSquare(th, seed.rows)
    ensures |g| == m && AllSquare(g, seed.rows)
    ensures m > 0 ==> g[0] == seed
  {
    if m == 0 then []
    else if m == 1 then [seed]
    else
      var g := Gammas(seed, th, b, dt, m - 1);
      g + [Trap(g[m - 2], th[m - 2], th[m - 1], StageWidth(b, dt, m - 1))]
  }

  /** One more stage appends one trapezoid step to the run. */
  lemma GammasSnoc(seed: Matrix, th: seq<Matrix>, b: seq<real>, dt: real, k: nat)
    requires k < |b| && |th| == |b| && IsSquare(seed, seed.rows) && AllSquare(th, seed.rows)
    ensures k == 0 ==> Gammas(seed, th, b, dt, 1) == [seed]
    ensures k > 0 ==> (Gammas(seed, th, b, dt, k + 1) == Gammas(seed, th, b, dt, k)
      + [Trap(Gammas(seed, th, b, dt, k)[k - 1], th[k - 1], th[k], StageWidth(b, dt, k))])
  {
  }

  /** A longer run of stages extends a shorter one. */
  lemma {:induction false} GammasPrefix(seed: Matrix, th: seq<Matrix>, b: seq<real>, dt: real, m: nat, k: nat)
    requires m <= |b| && |th| == |b| && IsSquare(seed, seed.rows) && AllSquare(th, seed.rows)
    requires k < m
    ensures Gammas(seed, th, b, dt, m)[k] == Gammas(seed, th, b, dt, k + 1)[k]
    decreases m
  {
    if k < m - 1 {
      GammasPrefix(seed, th, b, dt, m - 1, k);
    }
  }

  /** Stage k > 0 of gamma_n is one trapezoid step from stage k-1. */
  lemma {:induction false} GammasStep(seed: Matrix, th: seq<Matrix>, b: seq<real>, dt: real, m: nat, k: nat)
    requires m <= |b| && |th| == |b| && IsSquare(seed, seed.rows) && AllSquare(th, seed.rows)
    requires 0 < k < m
    ensures Gammas(seed, th, b, dt, m)[k] == Trap(Gammas(seed, th, b, dt, m)[k - 1], th[k - 1], th[k], StageWidth(b, dt, k))
  {
    GammasPrefix(seed, th, b, dt, m, k);
    GammasPrefix(seed, th, b, dt, m, k - 1);
    GammasPrefix(seed, th, b, dt, k + 1, k - 1);
  }

  lemma TrapConstant(x: real, c: Matrix, h: real)
    ensures Trap(RealScale(x, c), c, c, h) == RealScale(x + 2.0 * h, c)
  {
    var l, r := Trap(RealScale(x, c), c, c, h), RealScale(x + 2.0 * h, c);
    forall i, j | 0 <= i < c.rows && 0 <= j < c.cols ensures l.data[i][j] == r.data[i][j] {
      var a := c.data[i][j];
      assert l.data[i][j] == Add(Scale(x, a), Scale(h, Add(a, a)));
    }
    MatrixExt(l, r);
  }

  lemma ScaleZero(c: Matrix)
    ensures RealScale(0.0, c) == ZeroMatrix(c.rows, c.cols)
  {
    MatrixExt(RealScale(0.0, c), ZeroMatrix(c.rows, c.cols));
  }

  /**
   * With a constant integrand c and gamma_n starting from zero, stage k holds the exact
   * integral Elapsed(b, dt, k)*c = (b[k]-b[0])*dt*c.
   */
  lemma {:induction false} GammasConstant(c: Matrix, th: seq<Matrix>, b: seq<real>, dt: real, m: nat, k: nat)
    requires IsSquare(c, c.rows) && m <= |b| && |th| == |b| && forall j :: 0 <= j < |th| ==> th[j] == c
    requires k < m
    ensures Gammas(ZeroMatrix(c.rows, c.rows), th, b, dt, m)[k] == RealScale(Elapsed(b, dt, k), c)
    decreases m
  {
    var z := ZeroMatrix(c.rows, c.rows);
    if k == 0 {
      assert Elapsed(b, dt, k) == 0.0;
      ScaleZero(c);
    } else {
      assert AllSquare(th, c.rows) && th[k - 1] == c && th[k] == c;
      GammasConstant(c, th, b, dt, k, k - 1);
      GammasConstantStep(c, th, b, dt, k);
      GammasPrefix(z, th, b, dt, m, k);
    }
  }

  /** The inductive step of GammasConstant: one trapezoid step on c adds 2h*c. */
  lemma GammasConstantStep(c: Matrix, th: seq<Matrix>, b: seq<real>, dt: real, k: nat)
    requires IsSquare(c, c.rows) && 0 < k < |b| && |th| == |b| && th[k - 1] == c && th[k] == c
    requires AllSquare(th, c.rows)
    requires Gammas(ZeroMatrix(c.rows, c.rows), th, b, dt, k)[k - 1] == RealScale(Elapsed(b, dt, k - 1), c)
    ensures Gammas(ZeroMatrix(c.rows, c.rows), th, b, dt, k + 1)[k] == RealScale(Elapsed(b, dt, k), c)
  {
    var x, h, y := Elapsed(b, dt, k - 1), StageWidth(b, dt, k), Elapsed(b, dt, k);
    assert Gammas(ZeroMatrix(c.rows, c.rows), th, b, dt, k + 1)[k] == Trap(RealScale(x, c), c, c, h);
    TrapConstant(x, c, h);
    WidthSum(b[0], b[k - 1], b[k], dt);
    assert x + 2.0 * h == y;
  }

  /** The stage widths add up: (p - a)*dt + 2 * (0.5*(q - p)*dt) == (q - a)*dt. */
  lemma WidthSum(a: real, p: real, q: real, dt: real)
    ensures (p - a) * dt + 2.0 * (0.5 * (q - p) * dt) == (q - a) * dt
  {
    assert 2.0 * (0.5 * (q - p) * dt) == (q - p) * dt;
    assert (p - a) * dt + (q - p) * dt == (q - a) * dt;
  }

  lemma TrapShift(s: Matrix, g: Matrix, p: Matrix, t: Matrix, h: real)
    requires s.rows == g.rows == p.rows == t.rows && s.cols == g.cols == p.cols == t.cols
    ensures Trap(MatAdd(s, g), p, t, h) == MatAdd(s, Trap(g, p, t, h))
  {
    MatrixExt(Trap(MatAdd(s, g), p, t, h), MatAdd(s, Trap(g, p, t, h)));
  }

  lemma AddZeroMatrix(s: Matrix)
    ensures MatAdd(s, ZeroMatrix(s.rows, s.cols)) == s
  {
    MatrixExt(MatAdd(s, ZeroMatrix(s.rows, s.cols)), s);
  }

  /**
   * Restarting the recurrence from a seed adds the seed to every stage of the run from zero:
   * what make_tcl2_operators does when it reseeds stage 0 with the last stage.
   */
  lemma {:induction false} GammasSeedShift(seed: Matrix, th: seq<Matrix>, b: seq<real>, dt: real, m: nat, k: nat)
    requires m <= |b| && |th| == |b| && IsSquare(seed, seed.rows) && AllSquare(th, seed.rows)
    requires k < m
    ensures Gammas(seed, th, b, dt, m)[k] == MatAdd(seed, Gammas(ZeroMatrix(seed.rows, seed.rows), th, b, dt, m)[k])
    decreases m
  {
    var z := ZeroMatrix(seed.rows, seed.rows);
    if k == 0 {
      AddZeroMatrix(seed);
    } else {
      GammasSeedShift(seed, th, b, dt, k, k - 1);
      GammasSeedShiftStep(seed, th, b, dt, k);
      GammasPrefix(seed, th, b, dt, m, k);
      GammasPrefix(z, th, b, dt, m, k);
    }
  }

  /** The inductive step of GammasSeedShift: a trapezoid step commutes with adding the seed. */
  lemma GammasSeedShiftStep(seed: Matrix, th: seq<Matrix>, b: seq<real>, dt: real, k: nat)
    requires 0 < k < |b| && |th| == |b| && IsSquare(seed, seed.rows) && AllSquare(th, seed.rows)
    requires Gammas(seed, th, b, dt, k)[k - 1] == MatAdd(seed, Gammas(ZeroMatrix(seed.rows, seed.rows), th, b, dt, k)[k - 1])
    ensures Gammas(seed, th, b, dt, k + 1)[k] == MatAdd(seed, Gammas(ZeroMatrix(seed.rows, seed.rows), th, b, dt, k + 1)[k])
  {
    var z := ZeroMatrix(seed.rows, seed.rows);
    GammasStep(seed, th, b, dt, k + 1, k);
    GammasStep(z, th, b, dt, k + 1, k);
    GammasPrefix(seed, th, b, dt, k + 1, k - 1);
    GammasPrefix(z, th, b, dt, k + 1, k - 1);
    TrapShift(seed, Gammas(z, th, b, dt, k)[k - 1], th[k - 1], th[k], StageWidth(b, dt, k));
  }

  // ---------------------------------------------------------------------------
  // The per-bath, per-stage buffers gamma_n and gamma_n_1

  /** What the dressing integrals are evaluated on: omegas, np.exp, the stage grid b and dt. */
  datatype Grid = Grid(om: seq<seq<real>>, n: nat, cexp: Complex -> Complex, b: seq<real>, dt: real)

  predicate GridOk(g: Grid) {
    SquareTable(g.om, g.n)
  }

  /** gamma_n and gamma_n_1: for each bath, one n x n matrix per integrator stage. */
  datatype Buffers = Buffers(gN: seq<seq<Matrix>>, gN1: seq<seq<Matrix>>)

  predicate Shaped(s: Buffers, nb: nat, order: nat, n: nat) {
    && |s.gN| == nb && |s.gN1| == nb
    && forall op :: 0 <= op < nb ==>
         |s.gN[op]| == order && |s.gN1[op]| == order && AllSquare(s.gN[op], n) && AllSquare(s.gN1[op], n)
  }

  /** coupling_operators_setup on one bath: gamma_n integrated from zero over the stage times b*dt. */
  function SetupStages(g: Grid, corrT: real -> Complex): (r: seq<Matrix>)
    requires GridOk(g)
    ensures |r| == |g.b| && AllSquare(r, g.n)
  {
    Gammas(ZeroMatrix(g.n, g.n), Thetas(g.om, g.n, g.cexp, corrT, SetupTimes(g.b, g.dt)), g.b, g.dt, |g.b|)
  }

  /** coupling_operators_setup: per bath, gamma_n integrated from zero over the grid b*dt, and theta_plus there. */
  function SetupBuffers(g: Grid, corrTs: seq<real -> Complex>): (s: Buffers)
    requires GridOk(g)
    ensures Shaped(s, |corrTs|, |g.b|, g.n)
  {
    Buffers(seq(|corrTs|, op requires 0 <= op < |corrTs| => SetupStages(g, corrTs[op])),
            seq(|corrTs|, op requires 0 <= op < |corrTs| => Thetas(g.om, g.n, g.cexp, corrTs[op], SetupTimes(g.b, g.dt))))
  }

  /** make_tcl2_operators on one bath: restart from the last stage and integrate over time + b*dt. */
  function AdvanceStages(g: Grid, corrT: real -> Complex, gn: seq<Matrix>, time: real): (r: seq<Matrix>)
    requires GridOk(g) && |gn| == |g.b| && AllSquare(gn, g.n)
    ensures |r| == |g.b| && AllSquare(r, g.n)
  {
    if |gn| == 0 then gn
    else Gammas(gn[|gn| - 1], Thetas(g.om, g.n, g.cexp, corrT, StepTimes(g.b, g.dt, time)), g.b, g.dt, |g.b|)
  }

  /** make_tcl2_operators(time) on all baths. */
  function Advance(g: Grid, corrTs: seq<real -> Complex>, s: Buffers, time: real): (r: Buffers)
    requires GridOk(g) && Shaped(s, |corrTs|, |g.b|, g.n)
    ensures Shaped(r, |corrTs|, |g.b|, g.n)
  {
    Buffers(
      seq(|corrTs|, op requires 0 <= op < |corrTs| => AdvanceStages(g, corrTs[op], s.gN[op], time)),
      seq(|corrTs|, op requires 0 <= op < |corrTs| => Thetas(g.om, g.n, g.cexp, corrTs[op], StepTimes(g.b, g.dt, time))))
  }

  /** The buffers after update_ops(time): advanced before markov_time, frozen from then on. */
  function UpdateBuffers(g: Grid, corrTs: seq<real -> Complex>, markov: real, s: Buffers, time: real): (r: Buffers)
    requires GridOk(g) && Shaped(s, |corrTs|, |g.b|, g.n)
    ensures Shaped(r, |corrTs|, |g.b|, g.n)
    ensures time >= markov ==> r == s
  {
    if time < markov then Advance(g, corrTs, s, time) else s
  }

  /** The buffers after update_ops has run at each of the times ts in turn. */
  function Evolve(g: Grid, corrTs: seq<real -> Complex>, markov: real, s: Buffers, ts: seq<real>): (r: Buffers)
    requires GridOk(g) && Shaped(s, |corrTs|, |g.b|, g.n)
    ensures Shaped(r, |corrTs|, |g.b|, g.n)
    decreases |ts|
  {
    if |ts| == 0 then s
    else UpdateBuffers(g, corrTs, markov, Evolve(g, corrTs, markov, s, ts[..|ts| - 1]), ts[|ts| - 1])
  }

  /** Evolving over one more time applies update_ops once more. */
  lemma EvolveSnoc(g: Grid, corrTs: seq<real -> Complex>, markov: real, s: Buffers, ts: seq<real>, i: nat)
    requires GridOk(g) && Shaped(s, |corrTs|, |g.b|, g.n) && i < |ts|
    ensures Evolve(g, corrTs, markov, s, ts[..i + 1])
         == UpdateBuffers(g, corrTs, markov, Evolve(g, corrTs, markov, s, ts[..i]), ts[i])
  {
    assert ts[..i + 1][..i] == ts[..i];
  }

  /** The dressed operators update_ops builds: E[i][j] = gamma_n[i][j] * C[i], entry by entry. */
  function Dressed(C: seq<Matrix>, gN: seq<seq<Matrix>>, n: nat): (Es: seq<seq<Matrix>>)
    requires |gN| == |C| && AllSquare(C, n) && forall i :: 0 <= i < |C| ==> AllSquare(gN[i], n)
    ensures |Es| == |C| && forall i :: 0 <= i < |C| ==> |Es[i]| == |gN[i]| && AllSquare(Es[i], n)
  {
    seq(|C|, i requires 0 <= i < |C| => DressedRow(C[i], gN[i], n))
  }

  /** One bath's row of dressed operators. */
  function DressedRow(c: Matrix, gn: seq<Matrix>, n: nat): (es: seq<Matrix>)
    requires IsSquare(c, n) && AllSquare(gn, n)
    ensures |es| == |gn| && AllSquare(es, n)
  {
    seq(|gn|, j requires 0 <= j < |gn| => Hadamard(gn[j], c))
  }

  /** Once every remaining time is at or past markov_time, update_ops leaves the buffers as they are. */
  lemma {:induction false} FrozenAfterMarkov(g: Grid, corrTs: seq<real -> Complex>, markov: real, s: Buffers, ts: seq<real>)
    requires GridOk(g) && Shaped(s, |corrTs|, |g.b|, g.n)
    requires forall k :: 0 <= k < |ts| ==> ts[k] >= markov
    ensures Evolve(g, corrTs, markov, s, ts) == s
    decreases |ts|
  {
    if |ts| > 0 {
      FrozenAfterMarkov(g, corrTs, markov, s, ts[..|ts| - 1]);
    }
  }

  /**
   * Evolving over a run of times and then over more is evolving over both runs: the buffers
   * depend only on the times seen so far.
   */
  lemma {:induction false} EvolveAppend(g: Grid, corrTs: seq<real -> Complex>, markov: real, s: Buffers, ts: seq<real>, us: seq<real>)
    requires GridOk(g) && Shaped(s, |corrTs|, |g.b|, g.n)
    ensures Evolve(g, corrTs, markov, s, ts + us) == Evolve(g, corrTs, markov, Evolve(g, corrTs, markov, s, ts), us)
    decreases |us|
  {
    if |us| == 0 {
      assert ts + us == ts;
    } else {
      var u0 := us[..|us| - 1];
      assert (ts + us)[..|ts + us| - 1] == ts + u0;
      EvolveAppend(g, corrTs, markov, s, ts, u0);
    }
  }

  /** The stage grid of a step at time 0 is the setup grid, provided the first stage sits at b[0] == 0. */
  lemma StepTimesAtZero(b: seq<real>, dt: real)
    requires |b| > 0 && b[0] == 0.0
    ensures StepTimes(b, dt, 0.0) == SetupTimes(b, dt)
  {
  }

  /**
   * The first make_tcl2_operators call at time 0 re-integrates the interval setup already
   * covered: every stage becomes the setup value plus the setup's final stage.
   */
  lemma FirstAdvanceRecovers(g: Grid, corrTs: seq<real -> Complex>, op: nat, k: nat)
    requires GridOk(g) && |g.b| > 0 && g.b[0] == 0.0
    requires op < |corrTs| && k < |g.b|
    ensures Advance(g, corrTs, SetupBuffers(g, corrTs), 0.0).gN[op][k]
         == MatAdd(SetupBuffers(g, corrTs).gN[op][|g.b| - 1], SetupBuffers(g, corrTs).gN[op][k])
  {
    var s := SetupBuffers(g, corrTs);
    var th := Thetas(g.om, g.n, g.cexp, corrTs[op], SetupTimes(g.b, g.dt));
    var last := s.gN[op][|g.b| - 1];
    StepTimesAtZero(g.b, g.dt);
    assert Advance(g, corrTs, s, 0.0).gN[op] == Gammas(last, th, g.b, g.dt, |g.b|);
    GammasSeedShift(last, th, g.b, g.dt, |g.b|, k);
  }

  // ---------------------------------------------------------------------------
  // Equations of motion

  /** Which equation of motion setup selected. */
  datatype EomKind = Rf | TdRf

  /**
   * What the equation of motion reads from the engine when it is evaluated: the coupling
   * operators C and the dressed operators E, one per bath for rf_eom and one per bath and
   * integrator stage for td_rf_eom.
   */
  datatype Generator =
    | RfInputs(C: seq<Matrix>, E: seq<Matrix>)
    | TdRfInputs(C: seq<Matrix>, Es: seq<seq<Matrix>>)

  /** (-1j/hbar) * commutator(state) in the eigenbasis. */
  function SystemTerm(ev: seq<real>, hbar: real, state: Matrix): (dy: Matrix)
    requires hbar != 0.0 && IsSquare(state, |ev|)
    ensures IsSquare(dy, |ev|)
  {
    ComplexScale(Complex(0.0, -1.0 / hbar), Utils.Commutator(Diag(ev), state))
  }

  /** One bath's contribution: (commutator(E.state, C) + commutator(C, state.dag(E))) / hbar^2. */
  function BathTerm(c: Matrix, e: Matrix, state: Matrix, hbar: real): (dy: Matrix)
    requires hbar != 0.0 && IsSquare(c, state.rows) && IsSquare(e, state.rows) && IsSquare(state, state.rows)
    ensures IsSquare(dy, state.rows)
  {
    RealScale(1.0 / (hbar * hbar), MatAdd(
      Utils.Commutator(MatMul(e, state), c),
      Utils.Commutator(c, MatMul(state, Utils.Dag(e)))))
  }

  /** dy += term, for each term in order. */
  function AddAll(dy: Matrix, terms: seq<Matrix>): (r: Matrix)
    requires forall k :: 0 <= k < |terms| ==> terms[k].rows == dy.rows && terms[k].cols == dy.cols
    ensures r.rows == dy.rows && r.cols == dy.cols
    decreases |terms|
  {
    if |terms| == 0 then dy else AddAll(MatAdd(dy, terms[0]), terms[1..])
  }

  /** rf_eom(state): the system term plus one bath term per bath, with the time-independent E. */
  function RfEom(ev: seq<real>, hbar: real, C: seq<Matrix>, E: seq<Matrix>, state: Matrix): (dy: Matrix)
    requires hbar != 0.0 && IsSquare(state, |ev|) && |E| == |C| && AllSquare(C, |ev|) && AllSquare(E, |ev|)
    ensures IsSquare(dy, |ev|)
  {
    AddAll(SystemTerm(ev, hbar, state),
      seq(|C|, j requires 0 <= j < |C| => BathTerm(C[j], E[j], state, hbar)))
  }

  /** td_rf_eom(state, order): as rf_eom, with each bath's E taken at integrator stage `stage`. */
  function TdRfEom(ev: seq<real>, hbar: real, C: seq<Matrix>, Es: seq<seq<Matrix>>, stage: nat, state: Matrix): (dy: Matrix)
    requires hbar != 0.0 && IsSquare(state, |ev|) && |Es| == |C| && AllSquare(C, |ev|)
    requires forall j :: 0 <= j < |Es| ==> stage < |Es[j]| && IsSquare(Es[j][stage], |ev|)
    ensures IsSquare(dy, |ev|)
  {
    AddAll(SystemTerm(ev, hbar, state),
      seq(|C|, j requires 0 <= j < |C| => BathTerm(C[j], Es[j][stage], state, hbar)))
  }

  /**
   * In the eigenbasis the system term is -1j*omega*state[i][j] entry by entry, with omega =
   * (ev[i]-ev[j])/hbar the transition frequency (omegas[i][j] of the Hamiltonian).
   */
  lemma SystemTermEntry(ev: seq<real>, hbar: real, state: Matrix, i: nat, j: nat)
    requires hbar != 0.0 && IsSquare(state, |ev|) && i < |ev| && j < |ev|
    ensures SystemTerm(ev, hbar, state).data[i][j] == Mul(Complex(0.0, -((ev[i] - ev[j]) / hbar)), state.data[i][j])
    ensures i == j ==> SystemTerm(ev, hbar, state).data[i][j] == Zero
  {
    Hamiltonians.DiagCommutatorEntry(ev, state, i, j);
    ImagRotation(hbar, ev[i] - ev[j], state.data[i][j]);
  }

  /** (-1j/h) * (d*x) == -1j*(d/h)*x, which is zero when d is. */
  lemma ImagRotation(h: real, d: real, x: Complex)
    requires h != 0.0
    ensures Mul(Complex(0.0, -1.0 / h), Scale(d, x)) == Mul(Complex(0.0, -(d / h)), x)
    ensures d == 0.0 ==> Mul(Complex(0.0, -(d / h)), x) == Zero
  {
    MulImagScale(-1.0 / h, d, x);
    NegativeQuotient(h, d);
    if d == 0.0 {
      MulOneZero(x);
    }
  }

  lemma NegativeQuotient(h: real, d: real)
    requires h != 0.0
    ensures -1.0 / h * d == -(d / h)
    ensures d == 0.0 ==> d / h == 0.0
  {
  }

  /** Without baths both equations of motion are the bare system term. */
  lemma NoBathsEom(ev: seq<real>, hbar: real, E: seq<Matrix>, Es: seq<seq<Matrix>>, stage: nat, state: Matrix)
    requires hbar != 0.0 && IsSquare(state, |ev|) && |E| == 0 && |Es| == 0
    ensures RfEom(ev, hbar, [], E, state) == SystemTerm(ev, hbar, state)
    ensures TdRfEom(ev, hbar, [], Es, stage, state) == SystemTerm(ev, hbar, state)
  {
  }

  /**
   * When every bath's stage-`stage` dressed operator equals its time-independent one, the
   * time-dependent equation of motion is the time-independent one.
   */
  lemma StageConstantEom(ev: seq<real>, hbar: real, C: seq<Matrix>, E: seq<Matrix>, Es: seq<seq<Matrix>>,
                         stage: nat, state: Matrix)
    requires hbar != 0.0 && IsSquare(state, |ev|) && |E| == |C| && |Es| == |C| && AllSquare(C, |ev|) && AllSquare(E, |ev|)
    requires forall j :: 0 <= j < |Es| ==> stage < |Es[j]| && Es[j][stage] == E[j]
    ensures TdRfEom(ev, hbar, C, Es, stage, state) == RfEom(ev, hbar, C, E, state)
  {
    assert seq(|C|, j requires 0 <= j < |C| => BathTerm(C[j], Es[j][stage], state, hbar))
        == seq(|C|, j requires 0 <= j < |C| => BathTerm(C[j], E[j], state, hbar));
  }

  /** The equation of motion a generator snapshot stands for, at integrator stage `stage`. */
  function Eom(g: Generator, ev: seq<real>, hbar: real, stage: nat, state: Matrix): (dy: Matrix)
    requires hbar != 0.0 && IsSquare(state, |ev|) && AllSquare(g.C, |ev|)
    requires g.RfInputs? ==> |g.E| == |g.C| && AllSquare(g.E, |ev|)
    requires g.TdRfInputs? ==> |g.Es| == |g.C|
    requires g.TdRfInputs? ==> forall j :: 0 <= j < |g.Es| ==> stage < |g.Es[j]| && IsSquare(g.Es[j][stage], |ev|)
    ensures IsSquare(dy, |ev|)
  {
    match g
    case RfInputs(C, E) => RfEom(ev, hbar, C, E, state)
    case TdRfInputs(C, Es) => TdRfEom(ev, hbar, C, Es, stage, state)
  }
}
