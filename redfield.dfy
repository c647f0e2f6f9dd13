/**
 * The Redfield engine of redfield.py: setup dispatch, the per-bath coupling and dressed
 * operators, the in-place per-stage recurrence over gamma_n and gamma_n_1, the markov_time
 * freeze, and the main loop of solve. The integrator and the Results object are external;
 * they appear here as small classes that record what the engine hands them.
 */
module RedfieldDynamics {
  import opened ComplexNumbers
  import opened Matrices
  import opened Errors
  import opened Tcl2
  import opened Schedule
  import Hamiltonians

  /** The fields of an Options object the engine reads. */
  datatype Options = Options(methodName: string, markovTime: real, progress: bool)

  /** One call of Results.analyze_state(i, time, state). */
  datatype Sample = Sample(index: nat, time: real, state: Matrix)

  /**
   * What the engine takes from code outside the model: np.exp on complex numbers, the
   * defaults of Options() and Results(), the stage grid b the integrator builds for given
   * options, and the map one integrator step applies to its state.
   */
  datatype Environment = Environment(
    cexp: Complex -> Complex,
    defaultOptions: Options,
    defaultEvery: int,
    stages: Options -> seq<real>,
    step: (Matrix, Generator) -> Matrix)

  /** An integrator step returns a state of the shape it was given. */
  ghost predicate KeepsShape(step: (Matrix, Generator) -> Matrix) {
    forall y: Matrix, g: Generator :: step(y, g).rows == y.rows && step(y, g).cols == y.cols
  }

  /** A Results object: its sampling period, its map_ops switch, and the states it was handed. */
  class Results {
    const every: int
    const mapOps: bool
    /** Set once compute_coordinate_surfaces has been attached as map_function. */
    var mapFunction: bool
    var samples: seq<Sample>

    constructor Init(every: int, mapOps: bool)
      ensures this.every == every && this.mapOps == mapOps && !mapFunction && samples == []
    {
      this.every := every;
      this.mapOps := mapOps;
      mapFunction := false;
      samples := [];
    }

    /** analyze_state: what it computes from the state is not modelled; the call is recorded. */
    method AnalyzeState(i: nat, time: real, state: Matrix)
      modifies this`samples
      ensures samples == old(samples) + [Sample(i, time, state)]
    {
      samples := samples + [Sample(i, time, state)];
    }
  }

  /**
   * The ODE integrator: its step dt, its stage grid b (order stages), the state y at time t,
   * and, as ghost records, every state it has held and every generator it has stepped with.
   */
  class Integrator {
    const dt: real
    const b: seq<real>
    const order: nat
    const step: (Matrix, Generator) -> Matrix
    var y: Matrix
    var t: real
    ghost var ys: seq<Matrix>
    ghost var inputs: seq<Generator>

    constructor Init(dt: real, b: seq<real>, step: (Matrix, Generator) -> Matrix)
      ensures this.dt == dt && this.b == b && order == |b| && this.step == step
      ensures ys == [] && inputs == []
    {
      this.dt := dt;
      this.b := b;
      order := |b|;
      this.step := step;
      y := ZeroMatrix(0, 0);
      t := 0.0;
      ys := [];
      inputs := [];
    }

    /** _set_y_value(y0, t0): restart from y0 at t0. */
    method SetYValue(y0: Matrix, t0: real)
      modifies this`y, this`t, this`ys, this`inputs
      ensures y == y0 && t == t0 && ys == [y0] && inputs == []
    {
      y := y0;
      t := t0;
      ys := [y0];
      inputs := [];
    }

    /** integrate(): one step of size dt with the equation of motion as it stands now. */
    method Integrate(g: Generator)
      modifies this`y, this`t, this`ys, this`inputs
      ensures y == step(old(y), g) && t == old(t) + dt
      ensures ys == old(ys) + [y] && inputs == old(inputs) + [g]
    {
      y := step(y, g);
      t := t + dt;
      ys := ys + [y];
      inputs := inputs + [g];
    }
  }

  /** np.zeros((n, n)) filled in place with ft(-om[i][j]), row by row. */
  method FillFromFrequencies(n: nat, om: seq<seq<real>>, ft: real -> Complex) returns (tp: Matrix)
    requires SquareTable(om, n)
    ensures IsSquare(tp, n)
    ensures forall i, j :: 0 <= i < n && 0 <= j < n ==> tp.data[i][j] == ft(-om[i][j])
  {
    var a := new Complex[n, n]((_, _) => Zero);
    for i := 0 to n
      modifies a
      invariant forall p, q :: 0 <= p < i && 0 <= q < n ==> a[p, q] == ft(-om[p][q])
    {
      for j := 0 to n
        modifies a
        invariant forall p, q :: 0 <= p < i && 0 <= q < n ==> a[p, q] == ft(-om[p][q])
        invariant forall q :: 0 <= q < j ==> a[i, q] == ft(-om[i][q])
      {
        a[i, j] := ft(-om[i][j]);
      }
    }
    tp := FromArray(a);
  }

  /**
   * One stage of a dressing integral: theta_plus at the stage time ts[k], and gamma_n at
   * stage k, which is the seed at stage 0 and one trapezoid step from stage k-1 after that.
   */
  method NextStage(g: Grid, corrT: real -> Complex, seed: Matrix, ts: seq<real>, k: nat, prev: Matrix, prevTheta: Matrix,
                   ghost th: seq<Matrix>, ghost G: seq<Matrix>)
    returns (theta: Matrix, v: Matrix)
    requires GridOk(g) && |ts| == |g.b| && k < |g.b| && IsSquare(seed, g.n)
    requires th == Thetas(g.om, g.n, g.cexp, corrT, ts) && G == Gammas(seed, th, g.b, g.dt, |g.b|)
    requires 0 < k ==> prev == G[k - 1] && prevTheta == th[k - 1]
    ensures theta == th[k] && v == G[k]
  {
    ThetasAt(g.om, g.n, g.cexp, corrT, ts, k);
    theta := Theta(g.om, g.n, g.cexp, corrT, ts[k]);
    if k == 0 {
      v := seed;
    } else {
      GammasStep(seed, th, g.b, g.dt, |g.b|, k);
      v := Trap(prev, prevTheta, theta, StageWidth(g.b, g.dt, k));
    }
  }

  /**
   * The stage loop of coupling_operators_setup for one bath: stage 0 appends zero and theta
   * at time 0; stage k appends one trapezoid step and theta at b[k]*dt.
   */
  method SetupStageLoop(g: Grid, corrT: real -> Complex) returns (gn: seq<Matrix>, gn1: seq<Matrix>)
    requires GridOk(g)
    ensures gn == SetupStages(g, corrT)
    ensures gn1 == Thetas(g.om, g.n, g.cexp, corrT, SetupTimes(g.b, g.dt))
  {
    var zero, ts := ZeroMatrix(g.n, g.n), SetupTimes(g.b, g.dt);
    ghost var th := Thetas(g.om, g.n, g.cexp, corrT, ts);
    ghost var G := SetupStages(g, corrT);
    assert G == Gammas(zero, th, g.b, g.dt, |g.b|);
    gn, gn1 := [], [];
    for k := 0 to |g.b|
      invariant gn == G[..k] && gn1 == th[..k]
    {
      var theta, v := NextStage(g, corrT, zero, ts, k, if k == 0 then zero else gn[k - 1], if k == 0 then zero else gn1[k - 1], th, G);
      assert G[..k + 1] == G[..k] + [v] && th[..k + 1] == th[..k] + [theta];
      gn, gn1 := gn + [v], gn1 + [theta];
    }
    assert G[..|g.b|] == G && th[..|g.b|] == th;
  }

  /**
   * The stage loop of make_tcl2_operators(time) for one bath, overwriting in place: stage 0
   * takes the last stage's value, stage k one trapezoid step on theta at time + b[k]*dt.
   */
  method AdvanceStageLoop(g: Grid, corrT: real -> Complex, gn0: seq<Matrix>, gn10: seq<Matrix>, time: real)
    returns (gn: seq<Matrix>, gn1: seq<Matrix>)
    requires GridOk(g) && |gn0| == |g.b| && |gn10| == |g.b| && AllSquare(gn0, g.n) && AllSquare(gn10, g.n)
    ensures gn == AdvanceStages(g, corrT, gn0, time)
    ensures gn1 == Thetas(g.om, g.n, g.cexp, corrT, StepTimes(g.b, g.dt, time))
  {
    var ts := StepTimes(g.b, g.dt, time);
    ghost var th := Thetas(g.om, g.n, g.cexp, corrT, ts);
    ghost var G := AdvanceStages(g, corrT, gn0, time);
    gn, gn1 := gn0, gn10;
    if |g.b| == 0 {
      return;
    }
    var seed := gn[|g.b| - 1];
    assert G == Gammas(seed, th, g.b, g.dt, |g.b|);
    for k := 0 to |g.b|
      invariant |gn| == |g.b| && |gn1| == |g.b|
      invariant forall p :: 0 <= p < k ==> gn[p] == G[p] && gn1[p] == th[p]
    {
      var theta, v := NextStage(g, corrT, seed, ts, k, if k == 0 then seed else gn[k - 1], if k == 0 then seed else gn1[k - 1], th, G);
      gn, gn1 := gn[k := v], gn1[k := theta];
    }
  }

  /**
   * What solve's loop works with, fixed once setup is done: the mode, C, the
   * time-independent E, the dressing grid, each bath's bath_corr_t, markov_time, the
   * buffers setup left, the Hamiltonian and the integrator's step.
   */
  datatype Setting = Setting(timeDep: bool, C: seq<Matrix>, E: seq<Matrix>, g: Grid,
                             corrTs: seq<real -> Complex>, markov: real, s0: Buffers,
                             ham: Hamiltonians.Hamiltonian, step: (Matrix, Generator) -> Matrix)

  predicate SettingOk(st: Setting) {
    && GridOk(st.g)
    && (st.timeDep ==> Shaped(st.s0, |st.corrTs|, |st.g.b|, st.g.n))
    && |st.C| == |st.corrTs| && AllSquare(st.C, st.g.n)
  }

  /**
   * The operators the equation of motion reads at index p: in time-dependent mode the
   * dressed operators update_ops builds from the buffers as the times before p left them,
   * otherwise C and E as setup made them.
   */
  function Input(st: Setting, times: seq<real>, p: nat): (gen: Generator)
    requires SettingOk(st) && p <= |times|
    ensures gen.C == st.C
  {
    if st.timeDep then TdRfInputs(st.C, Dressed(st.C, Evolve(st.g, st.corrTs, st.markov, st.s0, times[..p]).gN, st.g.n))
    else RfInputs(st.C, st.E)
  }

  /** The generators of indices 0..m-1. */
  function Inputs(st: Setting, times: seq<real>, m: nat): (ins: seq<Generator>)
    requires SettingOk(st) && m <= |times|
    ensures |ins| == m
  {
    seq(m, p requires 0 <= p < m => Input(st, times, p))
  }

  lemma InputsSnoc(st: Setting, times: seq<real>, i: nat)
    requires SettingOk(st) && i < |times|
    ensures Inputs(st, times, i + 1) == Inputs(st, times, i) + [Input(st, times, i)]
  {
    assert Inputs(st, times, i + 1)[..i] == Inputs(st, times, i);
  }

  /** The states the integrator passes through from y0, one step per generator. */
  function States(step: (Matrix, Generator) -> Matrix, y0: Matrix, ins: seq<Generator>): (ys: seq<Matrix>)
    ensures |ys| == |ins| + 1 && ys[0] == y0
    ensures forall p :: 0 <= p < |ins| ==> ys[p + 1] == step(ys[p], ins[p])
    decreases |ins|
  {
    if |ins| == 0 then [y0]
    else
      var pre := States(step, y0, ins[..|ins| - 1]);
      pre + [step(pre[|ins| - 1], ins[|ins| - 1])]
  }

  lemma StatesSnoc(step: (Matrix, Generator) -> Matrix, y0: Matrix, ins: seq<Generator>, gen: Generator)
    ensures States(step, y0, ins + [gen]) == States(step, y0, ins) + [step(States(step, y0, ins)[|ins|], gen)]
  {
    assert (ins + [gen])[..|ins|] == ins;
  }

  /**
   * In time-dependent mode the generator stops changing at markov_time: when every time
   * from index p up to q is at or past it, index q integrates with the operators of index p.
   */
  lemma InputsFreeze(st: Setting, times: seq<real>, p: nat, q: nat)
    requires SettingOk(st) && p <= q <= |times|
    requires forall k :: p <= k < q ==> times[k] >= st.markov
    ensures Input(st, times, q) == Input(st, times, p)
  {
    if st.timeDep {
      var mid := Evolve(st.g, st.corrTs, st.markov, st.s0, times[..p]);
      assert times[..q] == times[..p] + times[p..q];
      EvolveAppend(st.g, st.corrTs, st.markov, st.s0, times[..p], times[p..q]);
      FrozenAfterMarkov(st.g, st.corrTs, st.markov, mid, times[p..q]);
    }
  }

  /** The states handed to analyze_state: those at the sampled indices ms, mapped back from the eigenbasis. */
  function SampleRun(ham: Hamiltonians.Hamiltonian, times: seq<real>, ys: seq<Matrix>, ms: seq<nat>): (ss: seq<Sample>)
    requires ham.Wellformed()
    requires forall k :: 0 <= k < |ms| ==> ms[k] < |times| && ms[k] < |ys| && ys[ms[k]].rows == ham.nstates
    ensures |ss| == |ms|
  {
    seq(|ms|, k requires 0 <= k < |ms| => Sample(ms[k], times[ms[k]], ham.FromEigenbasis(ys[ms[k]]).value))
  }

  /** Sampling reads only the states at the sampled indices, so later states change nothing. */
  lemma SampleRunGrow(ham: Hamiltonians.Hamiltonian, times: seq<real>, ys: seq<Matrix>, ys2: seq<Matrix>, ms: seq<nat>)
    requires ham.Wellformed() && |ys| <= |ys2| && ys2[..|ys|] == ys
    requires forall k :: 0 <= k < |ms| ==> ms[k] < |times| && ms[k] < |ys| && ys[ms[k]].rows == ham.nstates
    ensures SampleRun(ham, times, ys2, ms) == SampleRun(ham, times, ys, ms)
  {
    forall k | 0 <= k < |ms| ensures ys2[ms[k]] == ys[ms[k]] {
      assert ys2[..|ys|][ms[k]] == ys2[ms[k]];
    }
  }

  /** The samples index i adds: its state mapped back from the eigenbasis, when i is a multiple of every. */
  function Sampled(ham: Hamiltonians.Hamiltonian, times: seq<real>, every: int, i: nat, y: Matrix): (ss: seq<Sample>)
    requires ham.Wellformed() && every != 0 && i < |times| && y.rows == ham.nstates
    ensures |ss| <= 1
  {
    if Due(i, every) then [Sample(i, times[i], ham.FromEigenbasis(y).value)] else []
  }

  /** One index of solve's loop adds to the samples exactly what sampling the longer run adds. */
  lemma SamplesStep(ham: Hamiltonians.Hamiltonian, times: seq<real>, ys: seq<Matrix>, ys2: seq<Matrix>, i: nat, every: int)
    requires ham.Wellformed() && every != 0 && i < |times| && |ys| == i + 1 && |ys2| == i + 2 && ys2[..i + 1] == ys
    requires forall p :: 0 <= p < |ys| ==> ys[p].rows == ham.nstates
    ensures SampleRun(ham, times, ys2, Multiples(i + 1, every))
         == SampleRun(ham, times, ys, Multiples(i, every)) + Sampled(ham, times, every, i, ys[i])
  {
    var ms := Multiples(i, every);
    var ms2 := Multiples(i + 1, every);
    assert ms2 == ms + (if Due(i, every) then [i] else []);
    SampleRunGrow(ham, times, ys, ys2, ms2);
  }

  /** What solve's loop has produced so far: states, generators, samples, work done and buffers. */
  datatype Progress = Progress(ys: seq<Matrix>, ins: seq<Generator>, samples: seq<Sample>, trace: seq<Event>, bufs: Buffers)

  /** A setting solve can run in: the Hamiltonian matches the grid and the step keeps shapes. */
  ghost predicate RunOk(st: Setting) {
    SettingOk(st) && st.ham.Wellformed() && st.g.n == st.ham.nstates && KeepsShape(st.step)
  }

  /** The integrator keeps the shape of the state at every step. */
  lemma {:induction false} StatesShape(step: (Matrix, Generator) -> Matrix, y0: Matrix, ins: seq<Generator>)
    requires KeepsShape(step)
    ensures forall p :: 0 <= p < |States(step, y0, ins)| ==> States(step, y0, ins)[p].rows == y0.rows
    decreases |ins|
  {
    if |ins| > 0 {
      StatesShape(step, y0, ins[..|ins| - 1]);
    }
  }

  /**
   * solve's loop after its first i indices, from the state y0 and the samples smp0 already
   * held: index p integrates with Input(st, times, p) from the state index p-1 left, the
   * samples are the states at the multiples of every below i, the work done is Trace(i),
   * and in time-dependent mode the buffers are those update_ops leaves after times[..i].
   */
  function Run(st: Setting, times: seq<real>, every: int, y0: Matrix, smp0: seq<Sample>, i: nat): (r: Progress)
    requires RunOk(st) && every != 0 && i <= |times| && y0.rows == st.g.n
    ensures |r.ys| == i + 1 && |r.ins| == i
    ensures forall p :: 0 <= p < |r.ys| ==> r.ys[p].rows == st.g.n
    ensures st.timeDep ==> Shaped(r.bufs, |st.corrTs|, |st.g.b|, st.g.n)
  {
    var ins := Inputs(st, times, i);
    var ys := States(st.step, y0, ins);
    StatesShape(st.step, y0, ins);
    Progress(ys, ins, smp0 + SampleRun(st.ham, times, ys, Multiples(i, every)), Trace(i, every, st.timeDep),
             if st.timeDep then Evolve(st.g, st.corrTs, st.markov, st.s0, times[..i]) else st.s0)
  }

  /**
   * One pass of solve's loop body at index i on the run so far: update_ops moves the
   * buffers on (time-dependent mode) after the generator is built from them, the state is
   * sampled when i is due, and the integrator steps the state with the generator.
   */
  function Next(st: Setting, times: seq<real>, every: int, i: nat, r: Progress): (r2: Progress)
    requires SettingOk(st) && st.ham.Wellformed() && st.g.n == st.ham.nstates && every != 0
    requires i < |times| && i < |r.ys| && r.ys[i].rows == st.ham.nstates
    requires st.timeDep ==> Shaped(r.bufs, |st.corrTs|, |st.g.b|, st.g.n)
  {
    var gen := if st.timeDep then TdRfInputs(st.C, Dressed(st.C, r.bufs.gN, st.g.n)) else RfInputs(st.C, st.E);
    Progress(r.ys + [st.step(r.ys[i], gen)], r.ins + [gen], r.samples + Sampled(st.ham, times, every, i, r.ys[i]),
             r.trace + StepEvents(i, Due(i, every), st.timeDep),
             if st.timeDep then UpdateBuffers(st.g, st.corrTs, st.markov, r.bufs, times[i]) else r.bufs)
  }

  /** One pass of the loop body takes the run after i indices to the run after i + 1. */
  lemma RunNext(st: Setting, times: seq<real>, every: int, y0: Matrix, smp0: seq<Sample>, i: nat)
    requires RunOk(st) && every != 0 && i < |times| && y0.rows == st.g.n
    ensures Run(st, times, every, y0, smp0, i + 1) == Next(st, times, every, i, Run(st, times, every, y0, smp0, i))
  {
    var r, r2 := Run(st, times, every, y0, smp0, i), Run(st, times, every, y0, smp0, i + 1);
    var n := Next(st, times, every, i, r);
    assert r2.ins == n.ins by {
      InputsSnoc(st, times, i);
    }
    assert r2.ys == n.ys by {
      StatesSnoc(st.step, y0, r.ins, n.ins[i]);
    }
    assert r2.samples == n.samples by {
      SamplesStep(st.ham, times, r.ys, r2.ys, i, every);
    }
    assert r2.trace == n.trace by {
      TraceStep(i + 1, every, st.timeDep);
    }
    assert r2.bufs == n.bufs by {
      if st.timeDep {
        EvolveSnoc(st.g, st.corrTs, st.markov, st.s0, times, i);
      }
    }
  }

  /** The Redfield dynamics class for one Hamiltonian. */
  class Redfield {
    const ham: Hamiltonians.Hamiltonian
    const timeDep: bool
    /** Stored by the constructor; nothing in the modelled code reads it. */
    const isSecular: bool
    const env: Environment
    var dt: real
    var options: Option<Options>
    var results: Results?
    var ode: Integrator?
    /** Which equation of motion setup selected (equation_of_motion). */
    var eom: Option<EomKind>
    /** Coupling operators in the eigenbasis, one per bath. */
    var C: seq<Matrix>
    /** self.E as rf_eom reads it: one dressed operator per bath. */
    var E: seq<Matrix>
    /** self.E as td_rf_eom reads it: per bath, one dressed operator per integrator stage. */
    var Es: seq<seq<Matrix>>
    var gammaN: seq<seq<Matrix>>
    var gammaN1: seq<seq<Matrix>>
    /** The work solve's loop has done, in order. */
    ghost var trace: seq<Event>

    constructor Init(ham: Hamiltonians.Hamiltonian, timeDep: bool, isSecular: bool, env: Environment)
      ensures this.ham == ham && this.timeDep == timeDep && this.isSecular == isSecular && this.env == env
      ensures options.None? && results == null && ode == null && eom.None?
      ensures C == [] && E == [] && Es == [] && gammaN == [] && gammaN1 == [] && trace == []
    {
      this.ham := ham;
      this.timeDep := timeDep;
      this.isSecular := isSecular;
      this.env := env;
      dt := 0.0;
      options := None;
      results := null;
      ode := null;
      eom := None;
      C := [];
      E := [];
      Es := [];
      gammaN := [];
      gammaN1 := [];
      trace := [];
    }

    // -------------------------------------------------------------------------
    // What the engine computes, as values

    /** Every bath couples through an nstates x nstates operator. */
    predicate BathsSquare() {
      ham.baths.Some? ==> forall k :: 0 <= k < |ham.baths.value| ==> IsSquare(ham.baths.value[k].cOp, ham.nstates)
    }

    ghost predicate Ready()
      reads ham, ham.omegas
    {
      ham.Valid() && BathsSquare()
    }

    /** The coupling operators in the eigenbasis: to_eigenbasis(c_op) for each bath. */
    function Couplings(): (cs: seq<Matrix>)
      requires ham.Wellformed() && BathsSquare() && ham.baths.Some?
      ensures |cs| == |ham.baths.value| && AllSquare(cs, ham.nstates)
    {
      var baths := ham.baths.value;
      seq(|baths|, k requires 0 <= k < |baths| => ham.ToEigenbasis(baths[k].cOp).value)
    }

    /** theta_plus of make_redfield_operators: ft_bath_corr(-omegas[i][j]) entry by entry. */
    function FtTheta(ft: real -> Complex): (tp: Matrix)
      requires ham.Wellformed()
      ensures IsSquare(tp, ham.nstates)
      ensures forall i, j :: 0 <= i < ham.nstates && 0 <= j < ham.nstates ==>
        tp.data[i][j] == ft(-Hamiltonians.Omegas(ham.ev, ham.hbar)[i][j])
    {
      var n := ham.nstates;
      var om := Hamiltonians.Omegas(ham.ev, ham.hbar);
      var data := seq(n, i requires 0 <= i < n => seq(n, j requires 0 <= i < n && 0 <= j < n => ft(-om[i][j])));
      assert forall i :: 0 <= i < n ==> |data[i]| == n;
      Dense(n, n, data)
    }

    /** The dressed operators of the time-independent equation: C[k] * theta_plus of bath k. */
    function RedfieldOps(): (es: seq<Matrix>)
      requires ham.Wellformed() && BathsSquare() && ham.baths.Some?
      ensures |es| == |ham.baths.value| && AllSquare(es, ham.nstates)
    {
      var baths := ham.baths.value;
      seq(|baths|, k requires 0 <= k < |baths| => Hadamard(Couplings()[k], FtTheta(baths[k].ftCorr)))
    }

    /** The grid the dressing integrals use: omegas of this Hamiltonian, np.exp, b and dt. */
    function GridFor(b: seq<real>, dt: real): (g: Grid)
      requires ham.Wellformed()
      ensures GridOk(g) && g.n == ham.nstates && g.b == b && g.dt == dt
    {
      Grid(Hamiltonians.Omegas(ham.ev, ham.hbar), ham.nstates, env.cexp, b, dt)
    }

    /** bath_corr_t of each bath. */
    function CorrTs(): (fs: seq<real -> Complex>)
      requires ham.baths.Some?
      ensures |fs| == |ham.baths.value|
    {
      var baths := ham.baths.value;
      seq(|baths|, k requires 0 <= k < |baths| => baths[k].corrT)
    }

    /** The options setup settles on: the given ones, or the defaults. */
    function Chosen(options: Option<Options>): Options {
      if options.Some? then options.value else env.defaultOptions
    }

    /** The error setup raises, if any. */
    function SetupFailure(options: Option<Options>, results: Results?): (e: Option<Error>)
      requires ham.Wellformed()
      ensures e.Some? ==> e.value in {NotImplemented, AssertionFailed, MissingAttribute, NoBaths}
    {
      if options.Some? && options.value.methodName == "exact" then Some(NotImplemented)
      else if results != null && results.mapOps && !ham.multidimensional then Some(AssertionFailed)
      else if Chosen(options).methodName == "exact" then None
      else if timeDep then (if ham.nbaths.None? then Some(MissingAttribute) else None)
      else if ham.baths.None? then Some(NoBaths)
      else None
    }

    // -------------------------------------------------------------------------
    // The time-independent operators

    /** The theta_plus table of make_redfield_operators, filled entry by entry from omegas. */
    method ThetaPlus(ft: real -> Complex) returns (tp: Matrix)
      requires ham.Valid()
      ensures tp == FtTheta(ft)
    {
      tp := FillFromFrequencies(ham.nstates, ham.OmegaTable(), ft);
      MatrixExt(tp, FtTheta(ft));
    }

    /**
     * make_redfield_operators: C and E restart empty; then, bath by bath, C gets the coupling
     * operator in the eigenbasis and E the same operator times theta_plus entry by entry.
     * Without baths the loop raises after the reset.
     */
    method MakeRedfieldOperators() returns (o: Outcome)
      requires Ready()
      modifies this`C, this`E
      ensures ham.baths.None? ==> o == Fail(NoBaths) && C == [] && E == []
      ensures ham.baths.Some? ==> o == Pass && C == Couplings() && E == RedfieldOps()
      ensures ham.baths.Some? ==> forall k, i, j :: 0 <= k < |E| && 0 <= i < ham.nstates && 0 <= j < ham.nstates ==>
        E[k].data[i][j] == Mul(C[k].data[i][j], ham.baths.value[k].ftCorr(-Hamiltonians.Omegas(ham.ev, ham.hbar)[i][j]))
    {
      C := [];
      E := [];
      if ham.baths.None? {
        return Fail(NoBaths);
      }
      var baths := ham.baths.value;
      for k := 0 to |baths|
        invariant C == Couplings()[..k] && E == RedfieldOps()[..k]
      {
        var ga := ham.ToEigenbasis(baths[k].cOp).value;
        var tp := ThetaPlus(baths[k].ftCorr);
        C := C + [ga];
        E := E + [Hadamard(ga, tp)];
      }
      assert C == Couplings() && E == RedfieldOps();
      return Pass;
    }

    // -------------------------------------------------------------------------
    // The time-dependent (TCL2) operators

    /**
     * coupling_operators_setup: C restarts empty and gamma_n, gamma_n_1 get one empty list
     * per bath (nbaths is read here, so a Hamiltonian without baths raises); then C gets each
     * coupling operator in the eigenbasis, and each bath's stage loop fills its buffers.
     */
    method CouplingOperatorsSetup() returns (o: Outcome)
      requires ham.Wellformed() && BathsSquare() && ode != null
      modifies this`C, this`gammaN, this`gammaN1
      ensures ham.nbaths.None? ==> o == Fail(MissingAttribute) && C == [] && gammaN == old(gammaN) && gammaN1 == old(gammaN1)
      ensures ham.nbaths.Some? ==> o == Pass && C == Couplings()
      ensures ham.nbaths.Some? ==> Buffers(gammaN, gammaN1) == SetupBuffers(GridFor(ode.b, dt), CorrTs())
    {
      C := [];
      if ham.nbaths.None? {
        return Fail(MissingAttribute);
      }
      var baths := ham.baths.value;
      gammaN := seq(ham.nbaths.value, _ => []);
      gammaN1 := seq(ham.nbaths.value, _ => []);
      for op := 0 to |baths|
        invariant C == Couplings()[..op] && |gammaN| == |baths| && |gammaN1| == |baths|
      {
        C := C + [ham.ToEigenbasis(baths[op].cOp).value];
        gammaN := gammaN[op := []];
        gammaN1 := gammaN1[op := []];
      }
      var g := GridFor(ode.b, dt);
      ghost var s := SetupBuffers(g, CorrTs());
      for op := 0 to |baths|
        invariant C == Couplings() && |gammaN| == |baths| && |gammaN1| == |baths|
        invariant forall p :: 0 <= p < op ==> gammaN[p] == s.gN[p] && gammaN1[p] == s.gN1[p]
      {
        var gn, gn1 := SetupStageLoop(g, baths[op].corrT);
        gammaN := gammaN[op := gn];
        gammaN1 := gammaN1[op := gn1];
      }
      return Pass;
    }

    /**
     * make_tcl2_operators(time): bath by bath, the stage loop overwrites gamma_n and
     * gamma_n_1 in place.
     */
    method MakeTcl2Operators(time: real)
      requires ham.Wellformed() && ham.baths.Some? && ode != null
      requires Shaped(Buffers(gammaN, gammaN1), |ham.baths.value|, |ode.b|, ham.nstates)
      modifies this`gammaN, this`gammaN1
      ensures Buffers(gammaN, gammaN1) == Advance(GridFor(ode.b, dt), CorrTs(), old(Buffers(gammaN, gammaN1)), time)
    {
      var baths := ham.baths.value;
      var g := GridFor(ode.b, dt);
      ghost var s := Buffers(gammaN, gammaN1);
      ghost var r := Advance(g, CorrTs(), s, time);
      for op := 0 to |baths|
        invariant |gammaN| == |baths| && |gammaN1| == |baths|
        invariant forall p :: 0 <= p < op ==> gammaN[p] == r.gN[p] && gammaN1[p] == r.gN1[p]
        invariant forall p :: op <= p < |baths| ==> gammaN[p] == s.gN[p] && gammaN1[p] == s.gN1[p]
      {
        var gn, gn1 := AdvanceStageLoop(g, baths[op].corrT, gammaN[op], gammaN1[op], time);
        gammaN := gammaN[op := gn];
        gammaN1 := gammaN1[op := gn1];
      }
    }

    /**
     * update_ops(time): E becomes, per bath and per stage, gamma_n times C entry by entry;
     * then, before markov_time only, the buffers advance to the next interval.
     */
    method UpdateOps(time: real)
      requires ham.Wellformed() && ham.baths.Some? && ode != null && ode.order == |ode.b| && options.Some?
      requires |C| == |ham.baths.value| && AllSquare(C, ham.nstates)
      requires Shaped(Buffers(gammaN, gammaN1), |ham.baths.value|, |ode.b|, ham.nstates)
      modifies this`Es, this`gammaN, this`gammaN1
      ensures Es == Dressed(C, old(gammaN), ham.nstates)
      ensures Buffers(gammaN, gammaN1)
           == UpdateBuffers(GridFor(ode.b, dt), CorrTs(), options.value.markovTime, old(Buffers(gammaN, gammaN1)), time)
    {
      var n := ham.nstates;
      Es := seq(ham.nbaths.value, _ => []);
      for i := 0 to |C|
        invariant gammaN == old(gammaN) && gammaN1 == old(gammaN1) && |Es| == |C|
        invariant forall p :: 0 <= p < i ==> Es[p] == DressedRow(C[p], gammaN[p], n)
      {
        var row := [];
        for j := 0 to ode.order
          invariant row == DressedRow(C[i], gammaN[i], n)[..j]
        {
          row := row + [Hadamard(gammaN[i][j], C[i])];
        }
        Es := Es[i := row];
      }
      if time < options.value.markovTime {
        MakeTcl2Operators(time);
      }
    }

    // -------------------------------------------------------------------------
    // setup and solve

    /** The first step of setup: the given options, or the defaults; a given 'exact' is refused. */
    method StoreOptions(opts: Option<Options>) returns (o: Outcome)
      modifies this`options
      ensures options == Some(Chosen(opts))
      ensures o.Fail? <==> opts.Some? && opts.value.methodName == "exact"
      ensures o.Fail? ==> o.error == NotImplemented
    {
      if opts.None? {
        options := Some(env.defaultOptions);
      } else {
        options := opts;
        if opts.value.methodName == "exact" {
          return Fail(NotImplemented);
        }
      }
      return Pass;
    }

    /**
     * The second step of setup: the given results, or fresh defaults; map_ops demands a
     * multidimensional Hamiltonian and attaches compute_coordinate_surfaces.
     */
    method StoreResults(res: Results?) returns (o: Outcome)
      modifies this`results, res
      ensures o.Fail? <==> res != null && res.mapOps && !ham.multidimensional
      ensures o.Fail? ==> o.error == AssertionFailed
      ensures o.Pass? && res == null ==> results != null && fresh(results)
      ensures o.Pass? && res == null ==> results.every == env.defaultEvery && !results.mapOps && results.samples == []
      ensures o.Pass? && res != null ==> results == res && res.mapFunction == (old(res.mapFunction) || res.mapOps)
      ensures res != null ==> res.samples == old(res.samples)
    {
      if res == null {
        results := new Results.Init(env.defaultEvery, false);
      } else {
        results := res;
        if res.mapOps {
          if !ham.multidimensional {
            return Fail(AssertionFailed);
          }
          res.mapFunction := true;
        }
      }
      return Pass;
    }

    /**
     * The last step of setup: unless the method is 'exact', build the operators the
     * equation of motion reads and select that equation.
     */
    method BuildOperators() returns (o: Outcome)
      requires Ready() && ode != null && options.Some?
      modifies this`eom, this`C, this`E, this`gammaN, this`gammaN1
      ensures options.value.methodName == "exact" ==> o == Pass
      ensures options.value.methodName != "exact" && timeDep ==>
        (o.Fail? <==> ham.nbaths.None?) && (o.Fail? ==> o.error == MissingAttribute)
      ensures options.value.methodName != "exact" && !timeDep ==>
        (o.Fail? <==> ham.baths.None?) && (o.Fail? ==> o.error == NoBaths)
      ensures o.Pass? && options.value.methodName != "exact" ==>
        ham.baths.Some? && C == Couplings() && eom == Some(if timeDep then TdRf else Rf)
      ensures o.Pass? && options.value.methodName != "exact" && !timeDep ==> E == RedfieldOps()
      ensures o.Pass? && options.value.methodName != "exact" && timeDep ==>
        Buffers(gammaN, gammaN1) == SetupBuffers(GridFor(ode.b, dt), CorrTs())
      ensures !timeDep ==> gammaN == old(gammaN) && gammaN1 == old(gammaN1)
    {
      o := Pass;
      if options.value.methodName != "exact" {
        if timeDep {
          o := CouplingOperatorsSetup();
          if o.Pass? {
            eom := Some(TdRf);
          }
        } else {
          o := MakeRedfieldOperators();
          if o.Pass? {
            eom := Some(Rf);
          }
        }
      }
    }

    /**
     * setup(options, results): store the options, then the results, build the integrator,
     * then the operators.
     */
    method Setup(opts: Option<Options>, res: Results?) returns (o: Outcome)
      requires Ready()
      modifies this`options, this`results, this`ode, this`eom, this`C, this`E, this`gammaN, this`gammaN1, res
      ensures options == Some(Chosen(opts))
      ensures o.Fail? <==> SetupFailure(opts, res).Some?
      ensures o.Fail? ==> o.error == SetupFailure(opts, res).value
      ensures o.Pass? && res == null ==> results != null && fresh(results)
      ensures o.Pass? && res == null ==> results.every == env.defaultEvery && !results.mapOps && results.samples == []
      ensures o.Pass? && res != null ==> results == res && res.samples == old(res.samples)
      ensures o.Pass? && res != null ==> res.mapFunction == (old(res.mapFunction) || res.mapOps)
      ensures o.Pass? ==> ode != null && fresh(ode) && ode.dt == dt && ode.b == env.stages(Chosen(opts))
      ensures o.Pass? ==> ode.order == |ode.b| && ode.step == env.step && ode.ys == [] && ode.inputs == []
      ensures o.Pass? && Chosen(opts).methodName != "exact" ==>
        ham.baths.Some? && C == Couplings() && eom == Some(if timeDep then TdRf else Rf)
      ensures o.Pass? && Chosen(opts).methodName != "exact" && !timeDep ==> E == RedfieldOps()
      ensures o.Pass? && Chosen(opts).methodName != "exact" && timeDep ==>
        Buffers(gammaN, gammaN1) == SetupBuffers(GridFor(ode.b, dt), CorrTs())
      ensures !timeDep ==> gammaN == old(gammaN) && gammaN1 == old(gammaN1)
    {
      o := StoreOptions(opts);
      if o.Fail? {
        return;
      }
      o := StoreResults(res);
      if o.Fail? {
        return;
      }
      ode := new Integrator.Init(dt, env.stages(options.value), env.step);
      o := BuildOperators();
    }

    /**
     * One pass of solve's loop body at index i, for a nonzero results.every: update_ops
     * first in time-dependent mode, then analyze_state on the state mapped back from the
     * eigenbasis when i is divisible by every, and one integrator step with the operators as
     * they stand.
     */
    method SolveIndex(times: seq<real>, i: nat, ghost st: Setting)
      requires ham.Wellformed() && ham.baths.Some? && ode != null && results != null && options.Some?
      requires ode.order == |ode.b| && i < |times| && results.every != 0
      requires st == Setting(timeDep, C, E, GridFor(ode.b, dt), CorrTs(), options.value.markovTime, st.s0, ham, env.step)
      requires SettingOk(st) && st.g.n == ham.nstates && ode.step == env.step
      requires i < |ode.ys| && ode.y == ode.ys[i] && ode.y.rows == ham.nstates
      requires timeDep ==> Shaped(Buffers(gammaN, gammaN1), |st.corrTs|, |st.g.b|, st.g.n)
      requires eom == Some(if timeDep then TdRf else Rf)
      modifies this`Es, this`gammaN, this`gammaN1, this`trace, results`samples, ode`y, ode`t, ode`ys, ode`inputs
      ensures Progress(ode.ys, ode.inputs, results.samples, trace, Buffers(gammaN, gammaN1))
           == Next(st, times, results.every, i, old(Progress(ode.ys, ode.inputs, results.samples, trace, Buffers(gammaN, gammaN1))))
      ensures ode.y == ode.ys[|ode.ys| - 1]
    {
      if timeDep {
        UpdateOps(times[i]);
        trace := trace + [Update(i)];
      }
      // the operators the selected equation of motion reads
      var gen := if eom == Some(TdRf) then TdRfInputs(C, Es) else RfInputs(C, E);
      SampleAndStep(times, i, gen);
    }

    /**
     * The rest of the loop body at index i: analyze_state on the state mapped back from the
     * eigenbasis when i is divisible by every, then one integrator step with gen.
     */
    method SampleAndStep(times: seq<real>, i: nat, gen: Generator)
      requires ham.Wellformed() && ode != null && results != null && results.every != 0
      requires i < |times| && ode.y.rows == ham.nstates
      modifies this`trace, results`samples, ode`y, ode`t, ode`ys, ode`inputs
      ensures results.samples == old(results.samples) + Sampled(ham, times, results.every, i, old(ode.y))
      ensures trace == old(trace) + (if Due(i, results.every) then [Analyze(i)] else []) + [Integrate(i)]
      ensures ode.y == ode.step(old(ode.y), gen) && ode.ys == old(ode.ys) + [ode.y] && ode.inputs == old(ode.inputs) + [gen]
    {
      DueIsMod(i, results.every);
      if i % results.every == 0 {
        results.AnalyzeState(i, times[i], ham.FromEigenbasis(ode.y).value);
        trace := trace + [Analyze(i)];
      }
      ode.Integrate(gen);
      trace := trace + [Integrate(i)];
    }

    /**
     * The rest of solve once setup has passed and the method is not 'exact': the integrator
     * starts at rho and times[0], then the loop runs over the indices of times. A zero
     * results.every raises ZeroDivisionError at the first index, after its update_ops in
     * time-dependent mode.
     */
    method Propagate(rho: Matrix, times: seq<real>) returns (r: Result<Results>)
      requires ham.Wellformed() && ham.baths.Some? && ode != null && results != null && options.Some?
      requires ode.order == |ode.b| && ode.step == env.step && |times| > 0 && rho.rows == ham.nstates
      requires RunOk(Setting(timeDep, C, E, GridFor(ode.b, dt), CorrTs(), options.value.markovTime,
                             Buffers(gammaN, gammaN1), ham, env.step))
      requires eom == Some(if timeDep then TdRf else Rf)
      modifies this`Es, this`gammaN, this`gammaN1, this`trace, results`samples, ode`y, ode`t, ode`ys, ode`inputs
      ensures r.Err? <==> results.every == 0
      ensures r.Err? ==> r.error == ZeroDivision
      ensures r.Ok? ==> r.value == results && results.every != 0
      ensures r.Ok? ==>
        Progress(ode.ys, ode.inputs, results.samples, trace, Buffers(gammaN, gammaN1))
          == Run(Setting(timeDep, C, E, GridFor(ode.b, dt), CorrTs(), options.value.markovTime,
                         old(Buffers(gammaN, gammaN1)), ham, env.step),
                 times, results.every, rho, old(results.samples), |times|)
    {
      ghost var st := Setting(timeDep, C, E, GridFor(ode.b, dt), CorrTs(), options.value.markovTime,
                              Buffers(gammaN, gammaN1), ham, env.step);
      ode.SetYValue(rho, times[0]);
      trace := [];
      if results.every == 0 {
        if timeDep {
          UpdateOps(times[0]);
          trace := [Update(0)];
        }
        return Err(ZeroDivision);
      }
      ghost var s0 := results.samples;
      for i := 0 to |times|
        invariant Progress(ode.ys, ode.inputs, results.samples, trace, Buffers(gammaN, gammaN1)) == Run(st, times, results.every, rho, s0, i)
        invariant ode.y == ode.ys[i]
      {
        SolveIndex(times, i, st);
        RunNext(st, times, results.every, rho, s0, i);
      }
      return Ok(results);
    }

    /**
     * solve(rho0, times, options, results): dt is the first time step (times must hold two
     * points), then setup; rho0 goes to the eigenbasis; 'exact' is refused; otherwise the
     * integrator starts from rho at times[0] and the loop runs over every index of times.
     */
    method Solve(rho0: Matrix, times: seq<real>, opts: Option<Options>, res: Results?) returns (r: Result<Results>)
      requires Ready() && rho0.rows == ham.nstates && KeepsShape(env.step)
      modifies this, res
      ensures |times| < 2 ==> r == Err(IndexOutOfRange)
      ensures |times| >= 2 ==> dt == times[1] - times[0] && options == Some(Chosen(opts))
      ensures |times| >= 2 && SetupFailure(opts, res).Some? ==> r == Err(SetupFailure(opts, res).value)
      ensures |times| >= 2 && SetupFailure(opts, res).None? && Chosen(opts).methodName == "exact" ==> r == Err(NotImplemented)
      ensures |times| >= 2 && SetupFailure(opts, res).None? && Chosen(opts).methodName != "exact" ==>
        results != null && (r.Err? <==> results.every == 0) && (r.Err? ==> r.error == ZeroDivision)
      ensures r.Ok? ==> results != null && r.value == results && (res != null ==> results == res) && results.every != 0
      ensures r.Ok? ==> ode != null && ode.b == env.stages(Chosen(opts)) && ham.baths.Some? && C == Couplings()
      ensures r.Ok? && !timeDep ==> E == RedfieldOps()
      ensures r.Ok? ==>
        Progress(ode.ys, ode.inputs, results.samples, trace, Buffers(gammaN, gammaN1))
          == Run(Setting(timeDep, C, E, GridFor(ode.b, dt), CorrTs(), Chosen(opts).markovTime,
                         if timeDep then SetupBuffers(GridFor(ode.b, dt), CorrTs()) else old(Buffers(gammaN, gammaN1)),
                         ham, env.step),
                 times, results.every, ham.ToEigenbasis(rho0).value, if res == null then [] else old(res.samples), |times|)
    {
      if |times| < 2 {
        return Err(IndexOutOfRange);
      }
      dt := times[1] - times[0];
      var o := Setup(opts, res);
      if o.Fail? {
        return Err(o.error);
      }
      var rho := ham.ToEigenbasis(rho0).value;
      if options.value.methodName == "exact" {
        return Err(NotImplemented);
      }
      r := Propagate(rho, times);
    }
  }
}