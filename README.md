# qdyno Redfield core, modelled in Dafny

This project models the exact, index-level and control-level core of qdyno's Redfield
dynamics engine. It has three parts.

**Linear-algebra kernel** (`utils.dfy`, module `Utils`):
- adjoint, commutator and anticommutator;
- the vector/matrix/tensor shape tests;
- the trace norm;
- the dense Hermiticity check;
- Liouville-space flattening:
  - a matrix becomes a row-major vector;
  - a rank-4 tensor becomes an ns^2 x ns^2 matrix, filled by four nested loops into a preallocated array;
- unflattening.

**Hamiltonian** (`hamiltonian.dfy`, module `Hamiltonians`):
- the Hermiticity gate at construction;
- the transition-frequency table `omegas`, filled in place;
- the sorted unique frequencies;
- the shape-dispatched basis changes to and from the eigenbasis;
- the system commutator in either basis;
- the coordinate table of `MDHamiltonian`.

**Redfield engine** (`redfield.dfy` and `tcl2.dfy`, `schedule.dfy`):
- `setup` and its dispatch, including the refused `"exact"` method;
- the per-bath coupling and dressed operators;
- the time-dependent (TCL2) dressing, in `tcl2.dfy`:
  - a trapezoid recurrence over the per-bath, per-stage buffers `gamma_n` / `gamma_n_1`;
  - the buffers are overwritten in place at every step and frozen from `markov_time` on;
- both equations of motion;
- the main loop of `solve`:
  - in time-dependent mode, `update_ops` runs first;
  - then the state is sampled when `i % every == 0`;
  - then one integrator step.

The engine is imperative Dafny:
- `Redfield` is a class whose fields (`C`, `E`, `Es`, `gammaN`, `gammaN1`, ...) its methods reassign;
- each method is proved against a value-level specification.

The specifications are these:
- `Tcl2.Gammas`, `Tcl2.SetupBuffers`, `Tcl2.Advance` and `Tcl2.UpdateBuffers` for the dressing integrals;
- `Tcl2.Evolve` for the buffers over a run of times;
- `RedfieldDynamics.Run` for the whole loop of `solve`;
- `Schedule.Trace` for the order of work.

Lemmas prove what the source promises about those functions. Model-wide conventions:
- **Complex numbers** are pairs of `real`s, and matrices are a subset type over `seq<seq<Complex>>`.
- **Exact equality** replaces floating-point tolerance.
- **hbar** is an explicit field of the Hamiltonian rather than a process-wide global.
- **Exceptions** become the `Error` cases of `Result`/`Outcome` values.
- **External code** becomes parameters. This covers `np.exp` on complex numbers, the bath functions, the eigensolver's output (`ev`, `ek`), the integrator's stage grid `b` and its step map, and the defaults of `Options()`/`Results()`.
- **Integrator and Results**: the integrator and `Results` are small classes that record what the engine hands them.

A few places where the code behaves differently from what its design suggests are modelled as the code is written:
- **Hermiticity errors.** `is_hermitian` never returns False: it raises itself. So `check_hermiticity`'s own 'Hamiltonian is not Hermitian' error can never escape (`Hamiltonians.CheckHermiticity`).
- **`"exact"` method.**
  - `setup` refuses it only when options are passed in.
  - With default options, the refusal comes later, in `solve` (`RedfieldDynamics.Redfield.Solve`).
- **Coupling operators.** They are not checked for Hermiticity.
- **First TCL2 step.** `make_tcl2_operators` reseeds stage 0 with the previous final stage and integrates over `time + b[k]*dt`. So its first call at `times[0] == 0` integrates the setup interval a second time, and every stage becomes the setup value plus the setup's final stage (`Tcl2.FirstAdvanceRecovers`).
- **`update_ops`.** It builds `E` from the buffers *before* advancing them.
- **Number of samples.** The number of sampled time points is `ceil(len(times) / |every|)` (`Schedule.MultiplesCount`). A negative `every` samples the same indices as its absolute value.

## Model

| member | source | states |
|---|---|---|
| Utils.Dag | working_dir/sparse/qdynos/utils.py:15-16 | the adjoint swaps the row and column counts |
| Utils.DagInvolution | working_dir/sparse/qdynos/utils.py:15-16 | taking the adjoint twice gives back the operator, for every shape |
| Utils.Commutator | working_dir/sparse/qdynos/utils.py:18-19 | the commutator of two n x n operators is n x n (its algebra is in the lemmas below) |
| Utils.Anticommutator | working_dir/sparse/qdynos/utils.py:21-22 | the anticommutator of two n x n operators is n x n |
| Utils.CommutatorAntisymmetric | working_dir/sparse/qdynos/utils.py:18-19 | commutator(A, B) == -commutator(B, A) |
| Utils.CommutatorSelf | working_dir/sparse/qdynos/utils.py:18-19 | commutator(A, A) is the zero matrix |
| Utils.AnticommutatorSymmetric | working_dir/sparse/qdynos/utils.py:21-22 | anticommutator(A, B) == anticommutator(B, A) |
| Utils.CommutatorPlusAnticommutator | working_dir/sparse/qdynos/utils.py:18-22 | commutator(A, B) + anticommutator(A, B) == 2 A.B |
| Utils.IsVector | working_dir/sparse/qdynos/utils.py:52-56 | on every 2-D shape, is_vector holds exactly when is_matrix does not |
| Utils.IsTensor | working_dir/sparse/qdynos/utils.py:58-59 | is_tensor holds exactly for shapes of three or more dimensions |
| Utils.MatrixShapeClass | working_dir/sparse/qdynos/utils.py:52-59 | a 2-D array is never a tensor, is exactly one of vector or matrix, and is a matrix exactly when it is square |
| Utils.Norm | working_dir/sparse/qdynos/utils.py:32-36 | norm fails (IndexError) exactly on a vector shape with no columns, and otherwise yields a value |
| Utils.NormValue | working_dir/sparse/qdynos/utils.py:32-36 | the norm of a vector is the sum of the squared moduli of its first column, hence non-negative; the norm of a square matrix is the real part of its trace |
| Utils.IsHermitian | working_dir/sparse/qdynos/utils.py:38-50 | dense is_hermitian returns True exactly when op is square and equals its adjoint, never returns False, and raises 'must be Hermitian' for square and 'requires matrix' for non-square inputs otherwise |
| Utils.HermitianEntrywise | working_dir/sparse/qdynos/utils.py:45 | a square op equals its adjoint exactly when op[i][j] == conj(op[j][i]) for all i, j |
| Utils.ToLiouville | working_dir/sparse/qdynos/utils.py:61-64 | flattening an r x c matrix gives a vector of length r*c |
| Utils.ToLiouvilleAt | working_dir/sparse/qdynos/utils.py:61-64 | entry (i, j) lands at position i*c + j (row-major order) |
| Utils.FloorSqrt | working_dir/sparse/qdynos/utils.py:85 | int(sqrt(n)) is the r with r*r <= n < (r+1)*(r+1) |
| Utils.FromLiouville | working_dir/sparse/qdynos/utils.py:83-86 | unflattening gives an ns x ns matrix, with ns given or inferred as int(sqrt(len)), and fails with a reshape error exactly when ns*ns differs from the length |
| Utils.FromLiouvilleInfersSide | working_dir/sparse/qdynos/utils.py:84-85 | with ns=None and a length n*n, the inferred side is n and the reshape succeeds |
| Utils.LiouvilleRoundTrip | working_dir/sparse/qdynos/utils.py:61-86 | from_liouville(to_liouville(rho), ns) == rho for a square rho, with ns given or inferred |
| Utils.LiouvilleRoundTripVector | working_dir/sparse/qdynos/utils.py:61-86 | to_liouville(from_liouville(v, ns)) == v whenever the reshape succeeds |
| Utils.CellAt | working_dir/sparse/qdynos/utils.py:78 | cell (i*ns + j, k*ns + l) of the Liouville matrix holds rho[i][j][k][l] |
| Utils.CopyBlock | working_dir/sparse/qdynos/utils.py:76-79 | with I = i*ns + j and J = k*ns on entry, the l-loop writes cells (I, k*ns) .. (I, (k+1)*ns - 1) in column order, each once, with its tensor entry, leaves J at (k+1)*ns and leaves every other cell as it was |
| Utils.CopyRow | working_dir/sparse/qdynos/utils.py:74-80 | with J reset to 0, the k- and l-loops write the ns^2 cells of row I = i*ns + j in column order, each once, leave every other row as it was, and the loop state moves on to row I + 1 |
| Utils.TensorToLiouville | working_dir/sparse/qdynos/utils.py:66-81 | the tensor branch writes every cell of a fresh ns^2 x ns^2 matrix exactly once, with rho_mat[a, b] == rho[a/ns][a%ns][b/ns][b%ns], and the row counter I, started at 0 and stepped once per (i, j), ends at ns^2 |
| Hamiltonians.Omegas | hamiltonian.py:45-49 | the frequency table is nstates x nstates, with hbar * omegas[i][j] == ev[i] - ev[j] |
| Hamiltonians.OmegasAntisymmetric | hamiltonian.py:49 | omegas[i][j] == -omegas[j][i], and the diagonal is zero |
| Hamiltonians.Unique | hamiltonian.py:52 | np.unique yields a strictly ascending sequence with exactly the values of its input |
| Hamiltonians.AscendingDetermined | hamiltonian.py:52 | two strictly ascending sequences with the same values are equal, so the unique frequencies are determined by the set of entries |
| Hamiltonians.FrequencyMembership | hamiltonian.py:51-52 | x is a unique frequency exactly when some omegas[i][j] equals x |
| Hamiltonians.FrequenciesSymmetric | hamiltonian.py:49-52 | the unique frequencies are closed under negation |
| Hamiltonians.ZeroIsFrequency | hamiltonian.py:49-52 | with at least one level, 0 is a unique frequency |
| Hamiltonians.DiagCommutatorEntry | hamiltonian.py:72 | [diag(d), op][i][j] == (d[i] - d[j]) * op[i][j] |
| Hamiltonians.CheckHermiticity | hamiltonian.py:32-39 | the gate passes exactly for a square H equal to its adjoint, and its failure is is_hermitian's own error, never 'Hamiltonian is not Hermitian' |
| Hamiltonians.Hamiltonian.Init | hamiltonian.py:21-27 | construction stores H, ev, ek, hbar and the baths unchanged, sets is_hermitian, counts the baths when given, and fills omegas with the frequency table |
| Hamiltonians.Hamiltonian.Create | hamiltonian.py:11-27 | construction raises exactly when H is non-square or differs from its adjoint (with is_hermitian's error), and otherwise yields a valid Hamiltonian holding H, ev, ek and the baths |
| Hamiltonians.Hamiltonian.ComputeFrequencies | hamiltonian.py:45-49 | the double loop fills a fresh nstates x nstates array with omegas[i][j] = (ev[i] - ev[j]) / hbar |
| Hamiltonians.Hamiltonian.OmegaTable | hamiltonian.py:45-49 | the omegas array read back row by row is the frequency table |
| Hamiltonians.Hamiltonian.ComputeUniqueFreqs | hamiltonian.py:51-52 | frequencies becomes a strictly ascending sequence whose values are exactly the entries of omegas |
| Hamiltonians.Hamiltonian.ToEigenbasis | hamiltonian.py:54-60 | the basis change always succeeds on a 2-D operator with nstates rows ('Not a valid operator' is unreachable) and keeps its shape |
| Hamiltonians.Hamiltonian.FromEigenbasis | hamiltonian.py:62-68 | as ToEigenbasis, in the other direction |
| Hamiltonians.Hamiltonian.EigenbasisRoundTrip | hamiltonian.py:54-68 | with ek unitary, from_eigenbasis(to_eigenbasis(op)) == op and to_eigenbasis(from_eigenbasis(op)) == op, for vector and matrix shapes |
| Hamiltonians.Hamiltonian.HamiltonianInEigenbasis | hamiltonian.py:54-58 | when ek is unitary and diagonalises H, H in the eigenbasis is diag(ev) |
| Hamiltonians.Hamiltonian.Commutator | hamiltonian.py:70-74 | the system commutator of an nstates x nstates operator is nstates x nstates, in either basis |
| Hamiltonians.Hamiltonian.EigCommutatorEntry | hamiltonian.py:70-72 | in the eigenbasis, commutator(op)[i][j] == (ev[i] - ev[j]) * op[i][j] |
| Hamiltonians.Hamiltonian.EigCommutatorDiagonal | hamiltonian.py:70-72 | the eigenbasis commutator has a zero diagonal |
| Hamiltonians.Hamiltonian.CommutatorBasisChange | hamiltonian.py:70-74 | the lab-basis commutator taken to the eigenbasis is the eigenbasis commutator of the transformed operator |
| Hamiltonians.Hamiltonian.Conjugated | hamiltonian.py:58 | conjugation by a unitary ek is multiplicative |
| Hamiltonians.MDHamiltonian.Init | hamiltonian.py:115-117 | the new object holds its base Hamiltonian, nel and nmodes, with no coordinate table, potentials or couplings |
| Hamiltonians.MDHamiltonian.Create | hamiltonian.py:91-129 | construction raises on a non-Hermitian H or a coordinate list of the wrong length; otherwise it keeps H, the baths and the potentials (and couplings only with them), sets compute_adiabatic to False, and tabulates the coordinates |
| Hamiltonians.MDHamiltonian.SetupSystemOperators | hamiltonian.py:134-146 | given coordinates, their length must be nel (an assertion); the table then holds nel lists, each with the eigh pair of every operator in input order |
| Tcl2.Theta | redfield.py:97 | theta_plus at time t is nstates x nstates, exp(-1j*omegas*t)*bath_corr_t(t) entry by entry |
| Tcl2.Thetas | redfield.py:94-99 | one theta_plus per stage time |
| Tcl2.ThetasAt | redfield.py:97 | entry k is theta_plus at the k-th stage time |
| Tcl2.SetupTimes | redfield.py:91-94 | setup evaluates one stage time per entry of b, stage 0 at 0.0 |
| Tcl2.StepTimes | redfield.py:108 | a step evaluates one stage time per entry of b, at time + b[k]*dt |
| Tcl2.Trap | redfield.py:98 | one trapezoid step keeps the shape of gamma_n |
| Tcl2.Gammas | redfield.py:92-98 | the recurrence yields one matrix per stage, starting from the seed |
| Tcl2.GammasStep | redfield.py:98 | stage k > 0 is gamma_n[k-1] + 0.5*(b[k]-b[k-1])*dt*(theta_k + gamma_n_1[k-1]) |
| Tcl2.GammasConstant | redfield.py:92-98 | from zero with a constant integrand c, stage k holds (b[k]-b[0])*dt*c |
| Tcl2.GammasSeedShift | redfield.py:111-114 | reseeding stage 0 adds the seed to every stage of the run from zero |
| Tcl2.SetupStages | redfield.py:89-99 | one bath's setup gives ode.order stages of gamma_n, all nstates x nstates |
| Tcl2.SetupBuffers | redfield.py:78-99 | after setup, every bath has exactly ode.order stage entries in gamma_n and gamma_n_1 |
| Tcl2.AdvanceStages | redfield.py:106-115 | one bath's step keeps ode.order stages |
| Tcl2.Advance | redfield.py:101-115 | make_tcl2_operators keeps the number of baths and stages and the shapes |
| Tcl2.UpdateBuffers | redfield.py:126-127 | at or past markov_time the buffers are left unchanged |
| Tcl2.Evolve | redfield.py:180-182 | the buffers keep their shape over any run of update_ops calls |
| Tcl2.EvolveSnoc | redfield.py:180-182 | one more time point applies update_ops once more |
| Tcl2.FrozenAfterMarkov | redfield.py:126-127 | when every remaining time is at or past markov_time, the buffers do not change |
| Tcl2.EvolveAppend | redfield.py:180-182 | evolving over two runs of times in turn is evolving over their concatenation |
| Tcl2.StepTimesAtZero | redfield.py:91-108 | with b[0] == 0, a step at time 0 evaluates theta at the setup stage times |
| Tcl2.FirstAdvanceRecovers | redfield.py:108-114 | the first make_tcl2_operators at time 0 makes every stage the setup value plus the setup's final stage |
| Tcl2.Dressed | redfield.py:121-125 | update_ops builds nbaths rows of E, each with one nstates x nstates entry per stage |
| Tcl2.DressedRow | redfield.py:124-125 | one bath's row of E has one entry per stage of gamma_n |
| Tcl2.SystemTerm | redfield.py:133 | (-1j/hbar) * commutator(state) is nstates x nstates |
| Tcl2.SystemTermEntry | redfield.py:133 | entry (i, j) of the system term is -1j*((ev[i]-ev[j])/hbar)*state[i][j], zero on the diagonal |
| Tcl2.BathTerm | redfield.py:135 | one bath's term keeps the state's shape |
| Tcl2.AddAll | redfield.py:134-135 | accumulating the bath terms keeps the shape |
| Tcl2.RfEom | redfield.py:132-136 | rf_eom gives an nstates x nstates derivative |
| Tcl2.TdRfEom | redfield.py:138-142 | td_rf_eom, reading each bath's E at the given stage, gives an nstates x nstates derivative |
| Tcl2.NoBathsEom | redfield.py:132-142 | with no baths both equations of motion are the bare system term |
| Tcl2.StageConstantEom | redfield.py:138-142 | when each bath's stage entry equals its time-independent E, td_rf_eom equals rf_eom |
| Tcl2.Eom | redfield.py:129-130 | eom dispatches to the selected equation of motion and keeps the shape |
| Schedule.DueIsMod | redfield.py:183 | the sampling test Due(i, every) holds exactly when i % every == 0 |
| Schedule.TraceStep | redfield.py:180-186 | the work of n indices is the work of n-1 indices followed by the events of index n-1 |
| Schedule.TraceOrdered | redfield.py:180-186 | the loop's events are strictly ordered by index, and within an index update comes before analysis before integration |
| Schedule.StepOrdered | redfield.py:181-186 | one pass of the body carries its own index, in body order |
| Schedule.TraceEvents | redfield.py:180-186 | every index below n integrates, is analyzed exactly when i % every == 0, and updates exactly in time-dependent mode |
| Schedule.StepCounts | redfield.py:181-186 | one pass of the body integrates once and analyzes at most its own index |
| Schedule.IntegrationCount | redfield.py:186 | integrate runs exactly len(times) times |
| Schedule.Multiples | redfield.py:183 | the sampled indices lie below n |
| Schedule.MultiplesSpec | redfield.py:183 | the sampled indices are exactly the multiples of every below n, strictly increasing |
| Schedule.MultiplesCount | redfield.py:183 | there are ceil(n / abs(every)) sampled indices |
| Schedule.AnalyzedAreMultiples | redfield.py:183-185 | analyze_state is called at exactly the sampled indices, in increasing order |
| Schedule.AnalyzedStep | redfield.py:183-185 | one more index adds at most that index to the analyzed ones |
| RedfieldDynamics.Results.AnalyzeState | redfield.py:185 | analyze_state records the index, the time and the state it is handed |
| RedfieldDynamics.Integrator.Init | redfield.py:48 | the integrator is built with dt, its stage grid b (order == len(b)) and its step |
| RedfieldDynamics.Integrator.SetYValue | redfield.py:179 | _set_y_value restarts the integrator from rho at times[0] |
| RedfieldDynamics.Integrator.Integrate | redfield.py:186 | integrate takes one step of size dt with the equation of motion as it stands |
| RedfieldDynamics.FillFromFrequencies | redfield.py:66-69 | the double loop fills theta_plus[i][j] = ft_bath_corr(-omegas[i][j]) |
| RedfieldDynamics.NextStage | redfield.py:90-99 | one stage yields theta_plus at the stage time and gamma_n at that stage of the recurrence |
| RedfieldDynamics.SetupStageLoop | redfield.py:89-99 | one bath's setup loop appends exactly the recurrence's stages to gamma_n and theta_plus at b[k]*dt (0 for stage 0) to gamma_n_1 |
| RedfieldDynamics.AdvanceStageLoop | redfield.py:106-115 | one bath's step overwrites gamma_n in place with the recurrence reseeded from the last stage, and gamma_n_1 with theta_plus at time + b[k]*dt |
| RedfieldDynamics.Input | redfield.py:180-186 | the operators the equation of motion reads always use C |
| RedfieldDynamics.InputsSnoc | redfield.py:180-186 | the operators of i+1 indices are those of i indices plus those of index i |
| RedfieldDynamics.States | redfield.py:186 | the integrator's states start at rho, and state p+1 is one step from state p |
| RedfieldDynamics.StatesSnoc | redfield.py:186 | one more generator appends one step to the states |
| RedfieldDynamics.StatesShape | redfield.py:186 | when a step keeps shapes, every state has the shape of the first |
| RedfieldDynamics.InputsFreeze | redfield.py:126-127 | once the times reach markov_time, the operators the equation of motion reads stop changing |
| RedfieldDynamics.SampleRun | redfield.py:183-185 | one sample per sampled index |
| RedfieldDynamics.SampleRunGrow | redfield.py:183-185 | later states do not change earlier samples |
| RedfieldDynamics.Sampled | redfield.py:183-185 | one index adds at most one sample |
| RedfieldDynamics.SamplesStep | redfield.py:183-185 | the samples of i+1 indices are those of i indices plus the sample index i adds |
| RedfieldDynamics.Run | redfield.py:179-186 | after i indices there are i+1 states, all nstates x nstates, and i generators, and the buffers keep their shape |
| RedfieldDynamics.RunNext | redfield.py:180-186 | one pass of the loop body (update, sample, integrate) takes the run after i indices to the run after i+1 |
| RedfieldDynamics.Redfield.Init | redfield.py:18-30 | the engine keeps the Hamiltonian, the mode and the secular flag, and starts with no operators |
| RedfieldDynamics.Redfield.Couplings | redfield.py:64-65 | one nstates x nstates coupling operator in the eigenbasis per bath |
| RedfieldDynamics.Redfield.FtTheta | redfield.py:66-69 | theta_plus[i][j] == ft_bath_corr(-omegas[i][j]) |
| RedfieldDynamics.Redfield.RedfieldOps | redfield.py:70-72 | one nstates x nstates dressed operator per bath |
| RedfieldDynamics.Redfield.GridFor | redfield.py:91 | the dressing grid uses this Hamiltonian's size, b and dt |
| RedfieldDynamics.Redfield.CorrTs | redfield.py:89 | one bath_corr_t per bath |
| RedfieldDynamics.Redfield.SetupFailure | redfield.py:32-56 | setup can fail only with NotImplementedError, the map_ops assertion, a missing nbaths or a missing bath list |
| RedfieldDynamics.Redfield.ThetaPlus | redfield.py:66-69 | the filled theta_plus table is ft_bath_corr(-omegas) entry by entry |
| RedfieldDynamics.Redfield.MakeRedfieldOperators | redfield.py:58-72 | C and E get one entry per bath, with E[k][i][j] == C[k][i][j] * ft_bath_corr(-omegas[i][j]); with no baths they are left empty and it fails |
| RedfieldDynamics.Redfield.CouplingOperatorsSetup | redfield.py:74-99 | C gets each coupling operator in the eigenbasis and the buffers become the setup recurrence; without nbaths it fails after resetting C |
| RedfieldDynamics.Redfield.MakeTcl2Operators | redfield.py:101-115 | the buffers are overwritten with one step of the recurrence, reseeded from each bath's last stage, at time + b[k]*dt |
| RedfieldDynamics.Redfield.UpdateOps | redfield.py:117-127 | E becomes gamma_n * C per bath and stage from the buffers before they advance; the buffers advance only before markov_time |
| RedfieldDynamics.Redfield.StoreOptions | redfield.py:34-39 | options become the given ones or the defaults; 'exact' is refused only when options are given |
| RedfieldDynamics.Redfield.StoreResults | redfield.py:40-46 | results become the given ones (map_ops demands a multidimensional Hamiltonian and attaches the map function) or fresh defaults |
| RedfieldDynamics.Redfield.BuildOperators | redfield.py:50-56 | unless the method is 'exact', time-dependent mode runs coupling_operators_setup and selects td_rf_eom, otherwise make_redfield_operators and rf_eom |
| RedfieldDynamics.Redfield.Setup | redfield.py:32-56 | setup fails exactly with SetupFailure's error; otherwise it stores options, results and a fresh integrator and builds the operators of the chosen mode |
| RedfieldDynamics.Redfield.SampleAndStep | redfield.py:183-186 | the state is sampled (mapped back from the eigenbasis) exactly when i % every == 0, then the integrator steps once |
| RedfieldDynamics.Redfield.SolveIndex | redfield.py:180-186 | one pass of the loop body moves states, generators, samples, work done and buffers exactly as Next |
| RedfieldDynamics.Redfield.Propagate | redfield.py:179-188 | a zero every raises ZeroDivisionError; otherwise the loop over all of times leaves states, samples, work done and buffers equal to Run after len(times) indices |
| RedfieldDynamics.Redfield.Solve | redfield.py:144-188 | solve needs two time points and sets dt = times[1] - times[0], then fails as setup does, refuses 'exact', and otherwise runs the loop from rho0 in the eigenbasis as Run describes |

## Left out

- **np.linalg.eigh** (hamiltonian.py:41-43): it is a floating-point eigensolver. Its outputs `ev` and `ek` are inputs to construction. Lemmas that need `ek` unitary or diagonalising `H` say so in their `requires`.
- **Numerics and external functions.** Floating-point tolerance (`np.allclose`) becomes exact equality over `real`. `np.exp`, `bath_corr_t`, `ft_bath_corr`, the integrator's stepping scheme and `Results.analyze_state`'s computation are all uninterpreted:
  - the integrator is its stage grid `b` plus a step map;
  - `analyze_state` is recorded, not computed.
- **Sparse branches** of `is_hermitian` (working_dir/sparse/qdynos/utils.py:40-43) and `to_liouville` (working_dir/sparse/qdynos/utils.py:68-69): the first has an empty `if` body and the second calls a function that does not exist.
- **matmult** (working_dir/sparse/qdynos/utils.py:24-30): nothing in the core calls it. It returns its last argument rather than the product.
- **The body of solve's 'exact' branch** (redfield.py:164-177): it is unreachable after the `raise`, and it reads names that are never defined.
- **make_adiabatic_transform and compute_coordinate_surfaces** (hamiltonian.py:148-228): they are untested and read attributes that are never set. Attaching `compute_coordinate_surfaces` as the map function is kept as a flag.
- **The commented-out `thermal_dm`, `__repr__`, and progress printing.** Multidimensionality is kept as a flag.
- **Dynamics base class.** `Dynamics.__init__` is not part of this model.
- **Shape preconditions.** The shape errors numpy would raise on mismatched operands are preconditions.
- **isSecular** is stored but nothing in the modelled code reads it.
- **RedfieldDynamics.Redfield.CouplingOperatorsSetup**: the stage loop works on local lists and then stores each bath's finished lists. It does not append to `self.gamma_n[op]` one stage at a time; the final buffers are the same.
- **RedfieldDynamics.Redfield.MakeTcl2Operators**: the reseeding value is read once, before the stage loop. In the source, stage 0 reads `gamma_n[op][-1]` as its first action; the value is the same.
- **RedfieldDynamics.Redfield.UpdateOps**: each bath's row of `E` is built locally and then stored.
- **RedfieldDynamics.Redfield.Solve**: the loop body is split into `SolveIndex` and `SampleAndStep`. A zero `every` is handled before the loop; it raises at index 0 after that index's `update_ops`, as the source does.
- **Sampling test.** It is written as repeated subtraction (`Schedule.Due`). `Schedule.DueIsMod` proves it equal to `i % every == 0`, and the engine itself tests `i % every == 0`.
- Hamiltonians.Omegas, Hamiltonians.Hamiltonian.Init, Hamiltonians.Hamiltonian.Create, Hamiltonians.MDHamiltonian.Create, Tcl2.SystemTerm, Tcl2.RfEom, Tcl2.TdRfEom: require `hbar != 0.0`. The source accepts a zero hbar; numpy then fills `omegas` with inf/nan (hamiltonian.py:49) and `rf_eom`/`td_rf_eom` raise ZeroDivisionError (redfield.py:133, 139). Neither outcome is modelled, because the physical constant is never zero and real division by zero has no value in the model.
- Utils.IsMatrix, Utils.IsVector: require a shape of at least two dimensions. On a 1-D array the source raises IndexError at `shape[1]` (working_dir/sparse/qdynos/utils.py:54, 57); that error path is not modelled.
- Utils.TensorToLiouville: requires an ns x ns x ns x ns array. The source's tensor branch (working_dir/sparse/qdynos/utils.py:66-80) takes any array that is not 2-D and indexes it by its first dimension; for other shapes numpy raises IndexError or reads a prefix, which is not modelled.
- **The integrator's step map** stands for `integrate()` with `self.eom` (redfield.py:48, 129-130). `SolveIndex` hands it the operators that the selected equation reads, choosing them by the `eom` field. `Tcl2.Eom` gives the derivative for such a snapshot. The stepping scheme is uninterpreted, so the step map is not tied to `Tcl2.Eom` by a lemma.
