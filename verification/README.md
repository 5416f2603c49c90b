# A verified model of the truth-table SQL prover

The repository proves the results of SQL queries: a query plan becomes a graph of plan and gadget nodes, tables become
columns over Boolean cubes, and the claims about them reduce to sumchecks. This project models the parts of it with
the most state and branching, and proves what they promise.

* **LogUp keyed sumcheck and lookup** (`PrimeField`, `FieldSums`, `Bookkeeping`, `Polynomials`, `Columns`,
  `KeyedSumcheck`, `HonestProver`, `LogUp`, `Lookup`). Prover and verifier are classes over their trackers. The
  verifier's comparison of normalised sums, the honest prover's net-weight map and the statement "every value has the
  same weight on both sides" are proved to be one thing, by elimination in the Cauchy matrix of `1 / (value - gamma)`.
  Lookups follow: column inclusion is what the counted multiplicities prove, and no other multiplicities help.
* **Data-dependent hints** (`PlanTree`, `Rematerialize`, `Wrappers`, `CollectHints`, `Truncate`, `OptimizationHints`).
  Collecting hints and replaying them are classes with a mutable path and a shrinking set of hints. Replay has an exact
  success condition, does what wrapping or cutting node by node would do, and keeps the rows of the plan.
* **Node arena and pass engine** (`Arena`, `PassEngine`). The depth-first arena is a topological order of what is
  reachable, and sequential and parallel passes store the same payloads under every schedule.
* **Plan codec and join modes** (`DataTypeCodec`, `PlanAst`, `PlanNodes`, `PlanCodec`, `PlanRoundTrip`,
  `DecodedPlans`, `JoinModes`). Which plans
  encode, what they decode to, and why replayed join modes are collected again although setting a mode changes the
  tree that is being walked.
* **Padding, packing, framing, averages** (`PaddedWriter`, `PaddingInvisible`, `ColumnPacking`, `ProofFrame`,
  `AvgSupport`).

`Powers` and `Results` hold powers of two, options and results.

## What is assumed

* The field is the integers modulo `P`, an arbitrary odd prime: `P` is a constant without a value, so every result is
  for all odd primes. The inverse of zero is zero, as batch inversion leaves it.
* A sum claim and a zero claim registered with a tracker mean what they say on one common cube of `n` variables, at
  least as many as the largest column has. Sumcheck, zerocheck, commitments and the transcript are these contracts;
  the challenge `gamma` is a parameter. Claimed sums are sums over that cube, which is what the division by
  `2^(max_nv - nv)` relies on.
* A column has `2^nv` rows, and its activator and its multiplicities have as many. What the verifier accepts is
  settled for any activators, with rows weighted by multiplicity times activator. Activators are 0 or 1 where the
  theorems say `BooleanActivator`, `BooleanSide`, `BooleanInput` or `LookupColumns`, to relate that to the honest
  checks and the counters: the code filters by "is one", filters by "is not zero", and multiplies, and
  `LogUp.NonBooleanActivator` shows two of these apart.
* Executing a plan is a function `sem` of the operator and its input tables; an execution may fail. `with_new_exprs`
  follows the contract in the comment above `expressions_for_with_new_exprs`, other constructors succeed.
* Child relations of nodes are acyclic, and ids identify nodes. Every join node holds its join gadget as a child
  (crates/tt-core/src/irs/nodes/plan/lps/join/mod.rs:537, built at 1219-1224).
* The codec's surroundings are an `Env`: how hash maps list their entries, how table names and 256-bit decimals are
  written and read, which functions the decoding session knows. Decimals read back; nothing is assumed of names, so the
  round trip states when it holds.
* Encodings below the proof frame (hints, SNARK proofs, whole-artifact compression) are parameters that round-trip.

## Findings

* With the truncate rule switched on beside the default rule, hints collected from a plan may not replay on that plan.
  The comment at crates/tt-proof-planner/src/data_dependent_lp_optimizer/mod.rs:120-124 says truncation removes
  rematerialize targets that no longer need wrapping; the code removes the subtrees but keeps the hints, and the check
  for unapplied hints, or the target check, then fails. The walk can also fail on an equi-join that it keeps.
  `OptimizationHints.BothRulesReplay` gives the exact condition for all plans: nothing is truncated, or every kept node
  can be rebuilt and no chosen node lies in, or is, a truncated subtree. `OptimizationHints.BothRulesCanFail` and
  `OptimizationHints.EquiJoinCanFail` are an input for each failure. The default rule list alone always replays.
* A lookup of any number of included columns other than one is rejected by the keyed sumcheck's shape check
  (`Lookup.LookupArity`).
* `next_power_of_two_strict` is the least power of two above its argument exactly below `2^63`
  (`CollectHints.StrictlyNextPower`, `CollectHints.StrictPowerSaturates`).
* A lookup's computed multiplicities prove inclusion up to counts that are multiples of the characteristic
  (`Lookup.AdviceBalances`, `Lookup.MissingUnnoticed`); with fewer rows than that they prove it outright.
* Stripping wrappers leaves one behind where two are stacked (`Wrappers.StripIsComplete`, `Wrappers.StackedWrappers`);
  replay never stacks them.
* The truncate walk rebuilds joins from their flattened keys, so it fails on most equi-joins it passes through
  (`Truncate.TruncateReplay`, `OptimizationHints.EquiJoinCanFail`).
* Sequential and parallel passes can differ on nodes without a payload entry, which only the parallel one skips, and on
  entries that hold nothing, for which only the sequential one asks the pass for a fallback.
  `PassEngine.SequentialIsParallel` has the exact condition, `PassEngine.SkippedNodeDiffers` and
  `PassEngine.FallbackDiffers` an input for each.

## Model

| member | source | states |
|---|---|---|
| PrimeField.MulInv | crates/tt-col-toolbox/src/keyed_sumcheck/mod.rs:221-223 | the computed inverse of every nonzero element is its multiplicative inverse, for every odd prime modulus |
| PrimeField.InverseOfZero | crates/tt-col-toolbox/src/keyed_sumcheck/mod.rs:221-223 | inversion leaves zero at zero |
| PrimeField.PowerOfTwoNonzero | crates/tt-col-toolbox/src/keyed_sumcheck/mod.rs:137-138 | the normalising ratio is never zero in the field, so the division by it is sound |
| FieldSums.VanishingSum | crates/tt-col-toolbox/src/keyed_sumcheck/mod.rs:88-174 | a sum of `n` weighted fractions with distinct values that vanishes at `n` distinct points off the values has only zero weights |
| FieldSums.VanishingShiftedSum | crates/tt-col-toolbox/src/keyed_sumcheck/mod.rs:88-174 | the same with an added constant and one point more: constant and weights are zero |
| Bookkeeping.BookMeaning | crates/tt-col-toolbox/src/keyed_sumcheck/honest_prover.rs:101-196 | the map built entry by entry has the rows' values as keys and each value's total weight as entry |
| Bookkeeping.Regroup | crates/tt-col-toolbox/src/keyed_sumcheck/honest_prover.rs:101-196 | the sum of fractions over the rows is the sum over the map's entries, in any order |
| Bookkeeping.BalancedVanishes | crates/tt-col-toolbox/src/keyed_sumcheck/honest_prover.rs:198-211 | an all-zero map makes the sum of fractions vanish at every point |
| Bookkeeping.VanishingBalances | crates/tt-col-toolbox/src/keyed_sumcheck/honest_prover.rs:198-211 | a sum vanishing at as many points as there are values of nonzero net weight leaves no such value |
| Bookkeeping.BalancedSides | crates/tt-col-toolbox/src/keyed_sumcheck/honest_prover.rs:101-209 | the net map is all zero exactly when every value has the same weight on both sides |
| Polynomials.RepeatedSum | crates/tt-col-toolbox/src/keyed_sumcheck/mod.rs:137-139 | over a cube with more variables than the polynomial has, its sum doubles once per extra variable |
| Columns.ActiveSum | crates/tt-col-toolbox/src/keyed_sumcheck/honest_prover.rs:107-118 | for Boolean activators, multiplying by the activator and keeping the rows where it is one give the same sums |
| Columns.SideSumIsActive | crates/tt-col-toolbox/src/keyed_sumcheck/mod.rs:130-152 | a side's column-by-column sum is the sum over all its activated rows |
| Columns.SideSumIsRows | crates/tt-col-toolbox/src/keyed_sumcheck/mod.rs:130-152 | for any activators, a side's column-by-column sum is the sum over all its rows, weighted by multiplicity times activator |
| Columns.SideWeight | crates/tt-col-toolbox/src/keyed_sumcheck/honest_prover.rs:102-148 | for Boolean activators every value weighs the same over all rows as over the rows the honest prover keeps |
| KeyedSumcheck.ClaimedSum | crates/tt-col-toolbox/src/keyed_sumcheck/mod.rs:226-258 | in all four arms the loop's result is the sum of the very virtual polynomial that is claimed |
| KeyedSumcheck.HonestClaimIsTrue | crates/tt-col-toolbox/src/keyed_sumcheck/mod.rs:226-265 | the claim that is registered is true, at every gamma: its value is the sum of its polynomial and of the column's weighted fractions |
| KeyedSumcheck.ArgProver.ProveGenerateSubclaims | crates/tt-col-toolbox/src/keyed_sumcheck/mod.rs:211-268 | one column adds exactly one commitment to the inverses, one sum claim and one zero claim, in order; the claimed value is the sum of the claimed polynomial and the column's weighted sum of fractions |
| KeyedSumcheck.ArgProver.ProveSide | crates/tt-col-toolbox/src/keyed_sumcheck/mod.rs:68-75 | a side adds the commitments and claims of its columns in order, every sum claim true |
| KeyedSumcheck.ArgProver.Prove | crates/tt-col-toolbox/src/keyed_sumcheck/mod.rs:60-86 | the prover's whole new state: left side then right side, nothing else, every sum claim true |
| KeyedSumcheck.ArgVerifier.VerifyGenerateSubclaims | crates/tt-col-toolbox/src/keyed_sumcheck/mod.rs:270-295 | the verifier reads one commitment and one claimed sum, in that order, registers the two claims about them, and fails when either is missing |
| KeyedSumcheck.ArgVerifier.VerifySide | crates/tt-col-toolbox/src/keyed_sumcheck/mod.rs:130-152 | the accumulated value is the normalised sum of the claimed sums read, and every claim of the side is registered |
| KeyedSumcheck.ArgVerifier.Verify | crates/tt-col-toolbox/src/keyed_sumcheck/mod.rs:88-174 | the verdict is the shape error if there is one, else the shortage of the proof, else the comparison of normalised sums; acceptance leaves one sum claim and one zero claim per column |
| KeyedSumcheck.RefusedShapes | crates/tt-col-toolbox/src/keyed_sumcheck/mod.rs:92-119 | exactly which inputs are refused for their shape, each with its error, and that acceptance needs a commitment and a sum per column |
| LogUp.RegisteredMeaning | crates/tt-col-toolbox/src/keyed_sumcheck/mod.rs:289-292 | the claims an accepting verifier leaves with its tracker hold on a cube exactly when the claims the soundness results are about do |
| HonestProver.AddColumn | crates/tt-col-toolbox/src/keyed_sumcheck/honest_prover.rs:102-148 | one left column's loop extends the map by exactly its activated rows with their multiplicities |
| HonestProver.SubtractColumn | crates/tt-col-toolbox/src/keyed_sumcheck/honest_prover.rs:150-196 | one right column's loop extends it by the same rows with opposite weights |
| HonestProver.NetBook | crates/tt-col-toolbox/src/keyed_sumcheck/honest_prover.rs:101-196 | both passes together build the map of all net weights |
| HonestProver.HonestProverCheck | crates/tt-col-toolbox/src/keyed_sumcheck/honest_prover.rs:43-212 | on well-shaped input the check passes exactly when every value has equal weight on both sides; each malformed shape gives its own error |
| LogUp.ZerocheckPinsPhat | crates/tt-col-toolbox/src/keyed_sumcheck/mod.rs:260-266 | any `phat` that satisfies `p*phat - gamma*phat - 1 = 0` on the cube is the inverse of `p - gamma` everywhere, and gamma hits no evaluation |
| LogUp.HonestPhatPasses | crates/tt-col-toolbox/src/keyed_sumcheck/mod.rs:219-228 | the batch-inverted `phat` satisfies that check whenever gamma avoids the column |
| KeyedSumcheck.ColumnClaim | crates/tt-col-toolbox/src/keyed_sumcheck/mod.rs:280-294 | a true sum claim over `n` variables equals the column's weighted sum of fractions times `2^(n - nv)`, in all four arms |
| LogUp.Normalise | crates/tt-col-toolbox/src/keyed_sumcheck/mod.rs:137-139 | dividing a sum over the common cube by `2^(max - nv)` gives the same factor for every column |
| LogUp.NormalisedSide | crates/tt-col-toolbox/src/keyed_sumcheck/mod.rs:130-152 | a side's accumulated value is its true sum times one factor that does not depend on its columns' sizes |
| LogUp.VerdictMeaning | crates/tt-col-toolbox/src/keyed_sumcheck/mod.rs:124-171 | with true claims the verifier accepts exactly when the two sides' true sums at gamma agree |
| LogUp.HonestRun | crates/tt-col-toolbox/src/keyed_sumcheck/mod.rs:60-86 | an honest proof's claims are all true when gamma avoids the columns, and it is accepted exactly when the sums agree |
| LogUp.AcceptedMeaning | crates/tt-col-toolbox/src/keyed_sumcheck/mod.rs:88-174 | over all proofs: some proof is accepted at gamma exactly when gamma avoids all evaluations and the two true sums agree |
| LogUp.AcceptedVanishes | crates/tt-col-toolbox/src/keyed_sumcheck/mod.rs:88-174 | the same as one sum: accepted exactly when gamma avoids all evaluations and the net sum over both sides' rows vanishes |
| LogUp.Complete | crates/tt-col-toolbox/src/keyed_sumcheck/mod.rs:124-171 | for any activators, equal weights are accepted at every gamma off the evaluations, for any number of columns of any sizes |
| LogUp.Sound | crates/tt-col-toolbox/src/keyed_sumcheck/mod.rs:88-174 | for any activators, acceptance at as many gammas as there are values of unequal weight leaves no such value |
| LogUp.SoundnessError | crates/tt-col-toolbox/src/keyed_sumcheck/mod.rs:88-174 | for any activators, when some weight differs, fewer gammas are accepted than there are values whose weights differ |
| LogUp.BooleanWeights | crates/tt-col-toolbox/src/keyed_sumcheck/honest_prover.rs:101-209 | for Boolean activators these weights are the ones the honest check compares, and at most the activated values can be unequal |
| LogUp.BooleanComplete | crates/tt-col-toolbox/src/keyed_sumcheck/honest_prover.rs:43-212 | what the honest check passes is accepted at every gamma off the evaluations |
| LogUp.BooleanSound | crates/tt-col-toolbox/src/keyed_sumcheck/honest_prover.rs:43-212 | what is accepted at as many gammas as there are distinct activated values passes the honest check |
| LogUp.HonestProof | crates/tt-col-toolbox/src/keyed_sumcheck/mod.rs:60-86 | the prover leaves the inverses of both sides and the claimed sums over the common cube, in reading order |
| LogUp.Run | crates/tt-col-toolbox/src/keyed_sumcheck/mod.rs:60-174 | a whole run of prover, proof and verifier accepts exactly when the sums agree, so always when the weights do, and when the honest check passes on Boolean activators |
| LogUp.NonBooleanActivator | crates/tt-col-toolbox/src/keyed_sumcheck/honest_prover.rs:107-118 | without Boolean activators the honest check can pass while no proof is ever accepted |
| Lookup.MultiplicityCount | crates/tt-col-toolbox/src/util/multiplicity_count.rs:6-26 | the map has exactly the actively occurring values, each with its count |
| Lookup.NonzeroCounts | crates/tt-col-toolbox/src/util/multiplicity_count.rs:12-18 | a row counts for any nonzero activator, and not for zero |
| Lookup.CalcInclusionMultiplicity | crates/tt-col-toolbox/src/lookup/utils.rs:10-52 | a row gets its value's whole count if it is the value's first active occurrence, and zero otherwise, inactive rows included |
| Lookup.OnesWeight | crates/tt-col-toolbox/src/lookup/mod.rs:131-140 | under all-ones multiplicities a value weighs as many units as it has active rows |
| Lookup.AdviceWeight | crates/tt-col-toolbox/src/lookup/utils.rs:33-51 | over the active super rows a value's multiplicities add up to its count in the included column, if it occurs there at all |
| Lookup.AbsentWeight | crates/tt-col-toolbox/src/lookup/utils.rs:35-41 | a value without an active super row gets no weight from any multiplicities |
| Lookup.InclusionMeaning | crates/tt-col-toolbox/src/lookup/mod.rs:212-221 | inclusion of values is: each active included row has an active super row with its value |
| Lookup.EffectiveSet | crates/tt-arithmetic/src/col.rs:200-220 | the effective set holds exactly the actively occurring values |
| Lookup.HonestLookupCheck | crates/tt-col-toolbox/src/lookup/mod.rs:204-222 | the honest check passes exactly when every included column is included |
| Lookup.LookupProve | crates/tt-col-toolbox/src/lookup/mod.rs:224-244 | the prover commits the counted multiplicities, one vector per included column, and then what the keyed sumcheck commits |
| Lookup.LookupVerify | crates/tt-col-toolbox/src/lookup/mod.rs:246-263 | the verifier reads that many commitments and answers as the keyed sumcheck does on the rest of the proof |
| Lookup.LookupArity | crates/tt-col-toolbox/src/lookup/mod.rs:178-189 | with no or several included columns every proof is rejected, with the shape error of the keyed sumcheck |
| Lookup.LookupSides | crates/tt-col-toolbox/src/lookup/mod.rs:142-152 | the keyed-sumcheck claim of a lookup is: each value's active count equals the weight its super rows carry |
| Lookup.AdviceBalances | crates/tt-col-toolbox/src/lookup/utils.rs:33-51 | with the computed multiplicities the claim holds exactly when every value missing from the super column occurs a multiple of the characteristic times |
| Lookup.IncludedBalances | crates/tt-col-toolbox/src/lookup/mod.rs:224-244 | an included column's computed multiplicities make the claim true, whatever the sizes |
| Lookup.AdviceIsInclusion | crates/tt-col-toolbox/src/lookup/mod.rs:102-157 | with fewer rows than the characteristic the claim is exactly inclusion |
| Lookup.MissingUnnoticed | crates/tt-col-toolbox/src/lookup/utils.rs:33-51 | with as many rows as the characteristic, a value that occurs that often and is missing from the super column goes unnoticed |
| Lookup.HintedLookupSound | crates/tt-col-toolbox/src/lookup/mod.rs:122-157 | any multiplicities that make the claim true prove inclusion |
| Lookup.LookupComplete | crates/tt-col-toolbox/src/lookup/mod.rs:224-244 | an included column is accepted with the computed multiplicities at every gamma off the columns |
| Lookup.LookupSound | crates/tt-col-toolbox/src/lookup/mod.rs:246-263 | whatever multiplicities were committed, acceptance at enough gammas proves inclusion |
| PlanTree.RebuildIsExact | crates/tt-proof-planner/src/data_dependent_lp_optimizer/rematerialize.rs:126-154 | rebuilding any node, joins included, with the restored equalities changes its inputs and nothing else |
| PlanTree.FlatRebuild | crates/tt-proof-planner/src/data_dependent_lp_optimizer/truncate_empty_payload.rs:96 | rebuilding from the flattened expressions succeeds exactly when no equi-join is flattened (one degenerate key pair aside), and is then exact without key pairs |
| PlanTree.GuardedMeaning | crates/tt-proof-planner/src/data_dependent_lp_optimizer/rematerialize.rs:89-92 | a node is guarded exactly when its parent is a result check; the guard goes no further down |
| Rematerialize.Replay.ApplyWithGuard | crates/tt-proof-planner/src/data_dependent_lp_optimizer/rematerialize.rs:81-124 | at any node and any remaining hints: success exactly when every hint below it can be honoured, the wrapped plan, the path restored, and exactly the resolving hints consumed |
| Rematerialize.Replay.RewriteInputs | crates/tt-proof-planner/src/data_dependent_lp_optimizer/rematerialize.rs:97-112 | the same for the inputs of a node, in order |
| Rematerialize.ApplyRematerializeHints | crates/tt-proof-planner/src/data_dependent_lp_optimizer/mod.rs:164-175 | replay succeeds exactly when every path resolves to a filter, an aggregate or a direct child of a result check, and then wraps exactly the unguarded ones |
| Wrappers.OnePassIsLongestFirst | crates/tt-proof-planner/src/data_dependent_lp_optimizer/rematerialize.rs:94-123 | the one-pass result equals wrapping the paths one at a time, longest first, in any order among equals |
| Wrappers.WrappedNoAdjacent | crates/tt-proof-planner/src/data_dependent_lp_optimizer/rematerialize.rs:113-123 | from a wrapper-free plan replay never puts a wrapper directly on a wrapper |
| Wrappers.StripUndoes | crates/tt-proof-planner/src/data_dependent_lp_optimizer/mod.rs:193-213 | stripping a replayed wrapper-free plan returns the original plan, for every set of hints |
| Wrappers.StripIsComplete | crates/tt-proof-planner/src/data_dependent_lp_optimizer/mod.rs:193-213 | stripping leaves no wrapper exactly when none sits on another |
| Wrappers.StackedWrappers | crates/tt-proof-planner/src/data_dependent_lp_optimizer/mod.rs:193-213 | of two wrappers on a leaf, stripping leaves one |
| Wrappers.WrappedEval | crates/tt-proof-planner/src/data_dependent_lp_optimizer/rematerialize.rs:113-123 | replayed wrappers do not change what a plan evaluates to |
| Wrappers.StripEval | crates/tt-proof-planner/src/data_dependent_lp_optimizer/mod.rs:183-191 | neither does stripping, so row counts are those of the plan itself |
| CollectHints.StrictlyNextPower | crates/tt-proof-planner/src/data_dependent_lp_optimizer/rematerialize.rs:217-226 | the result is the least power of two strictly above the value exactly for values below `2^63` |
| CollectHints.StrictPowerSaturates | crates/tt-proof-planner/src/data_dependent_lp_optimizer/rematerialize.rs:221-222 | at `2^63` the saturated double is not a power of two |
| CollectHints.PickedByCounts | crates/tt-proof-planner/src/data_dependent_lp_optimizer/rematerialize.rs:182-215 | for counts below `2^63` a filter or aggregate is chosen exactly when its input has rows and its output fits a strictly smaller power of two |
| CollectHints.Collector.Collect | crates/tt-proof-planner/src/data_dependent_lp_optimizer/rematerialize.rs:43-71 | the walk restores the path and appends, under it, exactly the specified hints; it fails exactly when an execution on the way does |
| CollectHints.Collector.CollectInputs | crates/tt-proof-planner/src/data_dependent_lp_optimizer/truncate_empty_payload.rs:62-66 | the same for the loop over inputs, which both rules share |
| CollectHints.CollectedMeaning | crates/tt-proof-planner/src/data_dependent_lp_optimizer/rematerialize.rs:43-71 | a path is emitted exactly when its node is picked and every node above is descended through |
| CollectHints.EndsMeaning | crates/tt-proof-planner/src/data_dependent_lp_optimizer/truncate_empty_payload.rs:44-68 | a walk ends at a node in some way exactly when the path resolves, the rule does that there, and every node above is descended through |
| CollectHints.RematerializeCollected | crates/tt-proof-planner/src/data_dependent_lp_optimizer/rematerialize.rs:43-71 | a path is emitted exactly when its node should be rematerialized and is no direct child of a result check, and every node above is such a child or should not be |
| CollectHints.TruncateCollected | crates/tt-proof-planner/src/data_dependent_lp_optimizer/truncate_empty_payload.rs:44-68 | a path is emitted exactly when its node is no empty relation and has no rows, and every node above is none and has some |
| CollectHints.CollectionFailure | crates/tt-proof-planner/src/data_dependent_lp_optimizer/rematerialize.rs:50-69 | collecting fails exactly when an execution fails at a node that the walk reaches |
| CollectHints.CollectedInOrder | crates/tt-proof-planner/src/data_dependent_lp_optimizer/rematerialize.rs:59-69 | paths are emitted in walking order, so none twice |
| CollectHints.OnlyFiltersAndAggregates | crates/tt-proof-planner/src/data_dependent_lp_optimizer/rematerialize.rs:205-214 | no other node is ever chosen |
| CollectHints.EmptyInputNotPicked | crates/tt-proof-planner/src/data_dependent_lp_optimizer/rematerialize.rs:197-200 | over an empty input nothing is chosen, whatever the node's own execution does |
| CollectHints.CollectedShape | crates/tt-proof-planner/src/data_dependent_lp_optimizer/rematerialize.rs:50-55 | emitted paths resolve, are prefix-free, and point at nodes the rule picks |
| CollectHints.CollectedReplays | crates/tt-proof-planner/src/data_dependent_lp_optimizer/rematerialize.rs:81-124 | collected rematerialize hints always replay, for every plan and every row count function |
| CollectHints.HintBecomesWrapper | crates/tt-proof-planner/src/data_dependent_lp_optimizer/rematerialize.rs:115-123 | a prefix-free unguarded hint becomes a wrapper at its own path around the untouched subtree |
| Truncate.Truncation.ApplyTruncateHints | crates/tt-proof-planner/src/data_dependent_lp_optimizer/truncate_empty_payload.rs:73-97 | the walk's result, the path restored, and exactly the hints met on the walk consumed |
| Truncate.ApplyAllTruncateHints | crates/tt-proof-planner/src/data_dependent_lp_optimizer/mod.rs:149-162 | truncation is refused when a hint was not met |
| Truncate.MetMeaning | crates/tt-proof-planner/src/data_dependent_lp_optimizer/truncate_empty_payload.rs:73-95 | a hint is met exactly when it resolves and no other hint lies above it |
| Truncate.TruncateReplay | crates/tt-proof-planner/src/data_dependent_lp_optimizer/truncate_empty_payload.rs:73-97 | truncate replay succeeds exactly when the paths resolve, are prefix-free, and every node that is kept can be rebuilt |
| Truncate.SpineMeaning | crates/tt-proof-planner/src/data_dependent_lp_optimizer/truncate_empty_payload.rs:85-96 | a condition on the rebuilt spine is one on every node with no hint at it or above it |
| Truncate.TruncatedIsCut | crates/tt-proof-planner/src/data_dependent_lp_optimizer/truncate_empty_payload.rs:78-96 | without equi-joins on the rebuilt spine the result is the plan with the hinted subtrees emptied and nothing else changed |
| Truncate.TruncatedShape | crates/tt-proof-planner/src/data_dependent_lp_optimizer/truncate_empty_payload.rs:78-96 | whatever happens to join keys, a successful walk leaves the nodes of the cut plan in their places |
| Truncate.CutEval | crates/tt-proof-planner/src/data_dependent_lp_optimizer/truncate_empty_payload.rs:78-84 | emptying subtrees that have no rows keeps the plan's rows |
| Truncate.CollectedTruncateReplay | crates/tt-proof-planner/src/data_dependent_lp_optimizer/truncate_empty_payload.rs:44-97 | all collected truncate hints are met, the walk succeeds exactly when every node it keeps can be rebuilt, cutting there keeps rows and schema, and without a kept equi-join cutting is all the walk does |
| OptimizationHints.CollectHintsOfRules | crates/tt-proof-planner/src/data_dependent_lp_optimizer/mod.rs:85-96 | the rules' hints are concatenated in rule order, and one failing rule fails the whole |
| OptimizationHints.ApplyOptimizationHints | crates/tt-proof-planner/src/data_dependent_lp_optimizer/mod.rs:125-176 | duplicates collapse, truncation runs first, rematerialization on its result, and a leftover hint of either kind is an error |
| OptimizationHints.ReplaySucceeds | crates/tt-proof-planner/src/data_dependent_lp_optimizer/mod.rs:136-175 | for any plan and any hint list, the exact condition under which both phases succeed |
| OptimizationHints.AppliedResult | crates/tt-proof-planner/src/data_dependent_lp_optimizer/mod.rs:149-175 | what a successful replay returns: the plan, cut where it is truncated, with each unguarded hint a wrapper at its path |
| OptimizationHints.CutAt | crates/tt-proof-planner/src/data_dependent_lp_optimizer/truncate_empty_payload.rs:78-84 | at a hint that is met stands an empty relation without rows, of the old schema and without inputs |
| OptimizationHints.CutKeeps | crates/tt-proof-planner/src/data_dependent_lp_optimizer/truncate_empty_payload.rs:85-96 | every other node keeps its kind, expressions, schema and place |
| OptimizationHints.DefaultRulesReplay | crates/tt-proof-planner/src/data_dependent_lp_optimizer/mod.rs:102-118 | what the default rules collect replays, keeps the rows, puts a wrapper at each hinted path, and strips back to the plan |
| OptimizationHints.BothRulesReplay | crates/tt-proof-planner/src/data_dependent_lp_optimizer/mod.rs:120-176 | with both rules, for every plan, collected hints replay exactly when nothing is truncated, or every kept node can be rebuilt and no chosen node lies in or is a truncated subtree; the rows are kept when nothing is truncated or no equi-join is rebuilt |
| OptimizationHints.BothRulesCanFail | crates/tt-proof-planner/src/data_dependent_lp_optimizer/mod.rs:120-176 | a filter that keeps no row is chosen by both rules, and the collected hints do not replay |
| OptimizationHints.EquiJoinCanFail | crates/tt-proof-planner/src/data_dependent_lp_optimizer/mod.rs:149-162 | a join with an empty input: only that input is hinted, no chosen node is near it, and replay fails on the join's keys |
| OptimizationHints.TruncateRuleReplay | crates/tt-proof-planner/src/data_dependent_lp_optimizer/mod.rs:149-166 | with the truncate rule alone, collected hints replay exactly when there are none or every kept node can be rebuilt; rows and schema are kept when there are none or no equi-join is rebuilt |
| Arena.Builder.Visit | crates/tt-core/src/irs/tree.rs:22-34 | one visit keeps the listing duplicate-free and children-first, adds exactly what the node reaches, in post-order and where it is not there yet, and ends with the node if it was new |
| Arena.BuildArena | crates/tt-core/src/irs/tree.rs:18-39 | for every acyclic graph with sharing: exactly the reachable nodes, once each, every node after all its descendants, the root last; in the order in which the left-to-right post-order first meets them |
| Arena.SiblingsInOrder | crates/tt-core/src/irs/tree.rs:30-33 | children come from left to right, each after what its left siblings bring in |
| PassEngine.UnfoldingReaches | crates/tt-core/src/irs/ir.rs:183-197 | the pre-order walk visits exactly the reachable nodes, though shared ones several times |
| PassEngine.UnfoldingParentsFirst | crates/tt-core/src/irs/ir.rs:184-193 | the pre-order walk starts at the root and lists every node after a parent of it |
| PassEngine.SubtreesInOrder | crates/tt-core/src/irs/ir.rs:190-192 | it takes children from left to right, each with all below it |
| PassEngine.OrderedNodes | crates/tt-core/src/irs/ir.rs:175-199 | both orders cover exactly the arena |
| PassEngine.ApplySequential | crates/tt-core/src/irs/ir.rs:208-245 | the result has the arena's keys, and each node holds the transform of its own payload, or of the fallback where there is none, in either order |
| PassEngine.ApplyParallel | crates/tt-core/src/irs/ir.rs:252-299 | pre-order is refused; under every schedule the result has the arena's keys, each node with an entry holds the transform of its payload, and nodes without one hold nothing |
| PassEngine.SequentialIsParallel | crates/tt-core/src/irs/ir.rs:208-299 | for every pass, fallbacks included, the two agree exactly when nodes without an entry become nothing and entries holding nothing become the same with and without the fallback |
| PassEngine.CoveredAgree | crates/tt-core/src/irs/ir.rs:208-299 | so they always agree without a fallback on payloads that cover the arena |
| PassEngine.SkippedNodeDiffers | crates/tt-core/src/irs/ir.rs:280-284 | a node without an entry, on which they differ |
| PassEngine.FallbackDiffers | crates/tt-core/src/irs/ir.rs:217-223 | a node whose entry holds nothing, on which they differ under a pass with a fallback |
| PassEngine.NewEmpty | crates/tt-core/src/irs/ir.rs:53-60 | the first payload map has the arena's keys and holds nothing |
| PassEngine.RunChain | crates/tt-core/src/irs/ir.rs:170-300 | over any chain of passes, each sequential or parallel, with or without fallbacks: the keys become the arena's and each node holds what the passes in turn make of its own entry; refused exactly when a pre-order pass is to run in parallel |
| PassEngine.LastPass | crates/tt-core/src/irs/ir.rs:208-299 | the last pass of a chain is given what the passes before it left at the node, or its fallback where a sequential pass finds nothing |
| PassEngine.ChainOfIdentities | crates/tt-core/src/irs/ir.rs:170-300 | a chain of passes that hand payloads on returns every payload, under any schedule |
| PassEngine.AnySchedule | crates/tt-core/src/irs/ir.rs:170-300 | without fallbacks, which passes run in parallel makes no difference to a node that has an entry |
| DataTypeCodec.TypeRoundTrip | crates/tt-core/src/irs/codec.rs:144-288 | a data type encodes exactly when it is supported at every depth, and then decodes to itself |
| DataTypeCodec.FieldRoundTrip | crates/tt-core/src/irs/codec.rs:119-142 | so does a field, with its metadata, however hash maps list them |
| DataTypeCodec.SchemaRoundTrip | crates/tt-core/src/irs/codec.rs:92-117 | so does a schema |
| PlanRoundTrip.ScalarRoundTrip | crates/tt-core/src/irs/codec.rs:1093-1232 | a literal encodes exactly when its kind is known, and decodes to itself |
| PlanRoundTrip.SortRoundTrip | crates/tt-core/src/irs/codec.rs:830-846 | a sort key encodes exactly when its expression does, and decodes to itself, normalised, exactly when that is stable |
| PlanRoundTrip.ExprRoundTrip | crates/tt-core/src/irs/codec.rs:873-1090 | an expression, subqueries included, encodes exactly when it is supported, and decodes to itself, with null treatment dropped and scans emptied, exactly when its table and function names read back |
| PlanRoundTrip.ListExprRoundTrip | crates/tt-core/src/irs/codec.rs:904-966 | the same for expressions holding lists, options or a subquery plan |
| PlanRoundTrip.PlanRoundTrips | crates/tt-core/src/irs/codec.rs:557-809 | a plan encodes exactly when it is supported, and decodes to itself, with scan sources replaced by empty tables of the same schema and null treatment dropped, exactly when its names read back |
| PlanRoundTrip.WidePlanRoundTrip | crates/tt-core/src/irs/codec.rs:557-663 | the same for scans, aggregates, sorts, joins and limits |
| DecodedPlans.DecodedPlan | crates/tt-core/src/irs/codec.rs:557-809 | a plan of known nodes encodes, and is decoded to itself field by field but for empty scan sources and absent null treatments, subqueries included, exactly when its names read back |
| DecodedPlans.DecodesToItself | crates/tt-core/src/irs/codec.rs:557-809 | it is decoded to exactly itself if and only if its scans are empty already and no aggregate has a null treatment |
| DecodedPlans.SupportedPlanMeaning | crates/tt-core/src/irs/codec.rs:557-663 | the supported plans are those with only known nodes, literals and data types at every depth, inside subqueries too |
| DecodedPlans.NormPlanIs | crates/tt-core/src/irs/codec.rs:665-809 | the normal form used in the round trip is the one plan in that field-by-field relation |
| JoinModes.Gadget.SetJoinMode | crates/tt-core/src/irs/nodes/plan/lps/join/gadget/mod.rs:1509-1521 | the mode changes, and leaving many-to-many drops the children for good |
| JoinModes.SetModes | crates/tt-core/src/irs/codec.rs:1427-1437 | every join gadget among the children takes the mode once; its stack survives exactly if it had one and the mode is many-to-many |
| JoinModes.CollectJoinModes | crates/tt-core/src/irs/codec.rs:1399-1421 | one mode is appended per join, in pre-order over the children shown |
| JoinModes.FirstModeMeaning | crates/tt-core/src/irs/codec.rs:1403-1414 | a join's mode is that of its leftmost join gadget, and many-to-many without one |
| JoinModes.ApplyJoinModes | crates/tt-core/src/irs/codec.rs:1423-1444 | after the walk, collecting yields the listed modes from the start index on, and the index has advanced by as many as are collected, although setting modes changes the tree under the walk; a gadget of a visited join has its stack exactly if it had one and is many-to-many, and every other gadget is untouched |
| JoinModes.CollectedLength | crates/tt-core/src/irs/codec.rs:1399-1421 | as gadgets hold no joins, the number of modes is the number of joins, whatever the modes |
| JoinModes.SamePlanCount | crates/tt-core/src/irs/codec.rs:1380-1384 | trees of the same plan need equally many modes |
| JoinModes.ReplayJoinModes | crates/tt-core/src/irs/codec.rs:1399-1444 | modes collected from one tree and applied to any other tree of the same plan are collected from it again, and all are used; in a fresh tree every gadget then shows its children exactly when it is many-to-many |
| Powers.BitTest | crates/tt-tpch-data/src/lib.rs:621-623 | the bit test holds exactly for the powers of two |
| PaddedWriter.WriteParquet | crates/tt-tpch-data/src/lib.rs:639-741 | for every split into batches, empty ones included: the rows given, then null rows up to the least power of two at or above their number; no rows give no output |
| PaddedWriter.FlattenMeaning | crates/tt-tpch-data/src/lib.rs:671-713 | the rows written are the batches' rows, batch after batch |
| PaddedWriter.PaddedRows | crates/tt-tpch-data/src/lib.rs:679-734 | row ids count up from zero, the activator marks exactly the rows given, and padding less than doubles the table |
| PaddingInvisible.ScanFilters | crates/tt-front-end/src/prover.rs:424-447 | filtering by the activator above a scan with pushed-down filters and a fetch limit gives what the scan gives on the active rows alone |
| PaddingInvisible.PaddingIsInvisible | crates/tt-front-end/src/prover.rs:424-447 | for every query whose scans all project the activator, correlated subqueries included, the rewritten query on padded tables computes the original on the active rows |
| PaddingInvisible.CorrelatedPaddingIsInvisible | crates/tt-front-end/src/prover.rs:426 | a rewritten subquery agrees with the original at every outer row it can be evaluated at |
| PaddingInvisible.WrittenTables | crates/tt-tpch-data/src/lib.rs:689-741 | written tables have their padding last, and filtering them gives back the rows written |
| PaddingInvisible.WrittenDatabase | crates/tt-front-end/src/prover.rs:424-447 | over tables from the writer the rewritten query computes the original on the rows given to the writer |
| PaddingInvisible.PaddingFirstShows | crates/tt-front-end/src/prover.rs:424-447 | were padding not last, a fetch limit would let it show |
| ColumnPacking.WidestMeaning | crates/tt-arithmetic/src/encoding.rs:703-709 | the width used is an upper bound of all rows' widths and is attained |
| ColumnPacking.CollectByColumns | crates/tt-arithmetic/src/encoding.rs:690-722 | one column at least and as many as the widest row, each with one cell per row: the row's cell or zero, late columns included |
| ColumnPacking.PacksMeaning | crates/tt-arithmetic/src/encoding.rs:690-722 | the number of columns is one or attained by a row, and cell by cell a column holds the row's cell or zero |
| ColumnPacking.UnpackedRow | crates/tt-arithmetic/src/encoding.rs:711-714 | reading a row back across the columns gives the row followed by zeros |
| ProofFrame.LengthRoundTrip | crates/tt-front-end/src/structs.rs:260-265 | a length below `2^64` reads back from its eight little-endian bytes |
| ProofFrame.PrefixBytes | crates/tt-front-end/src/structs.rs:265 | byte `i` of the prefix is the `i`-th digit to the base 256, lowest first |
| ProofFrame.MarkIsAscii | crates/tt-front-end/src/structs.rs:228-229 | the mark is the letters TTH1 |
| ProofFrame.FrameLayout | crates/tt-front-end/src/structs.rs:214-272 | without hints the frame is eight zero bytes and the SNARK proof; otherwise the length, the mark, the encoded hints and the SNARK proof |
| ProofFrame.ReadPayload | crates/tt-front-end/src/structs.rs:295-300 | the payload is taken off exactly when the prefix and the announced length are there, and the reader stands right after it |
| ProofFrame.Serialize | crates/tt-front-end/src/structs.rs:254-272 | exactly the frame is appended to the writer, or nothing when the hints do not encode |
| ProofFrame.Deserialize | crates/tt-front-end/src/structs.rs:290-316 | the reader yields the proof at its front and stands right after it, or fails |
| ProofFrame.FrameRoundTrip | crates/tt-front-end/src/structs.rs:254-316 | a serialized proof, whatever follows it, decodes to the same hints and SNARK proof, and decoding stops at its end |
| ProofFrame.SizeIsBytesWritten | crates/tt-front-end/src/structs.rs:274-279 | the announced size is the number of bytes written |
| ProofFrame.LegacyPayload | crates/tt-front-end/src/structs.rs:300-310 | any payload that does not start with the mark, the empty one included, decodes to no hints and does not disturb the SNARK proof |
| ProofFrame.ParsedMeaning | crates/tt-front-end/src/structs.rs:290-316 | decoding succeeds exactly on a complete length-prefixed payload with readable hints before a readable SNARK proof |
| ProofFrame.FramesArePrefixFree | crates/tt-front-end/src/structs.rs:254-316 | no serialized proof is the beginning of the bytes of a different one |
| ProofFrame.ToBytes | crates/tt-front-end/src/structs.rs:127-131 | the artifact loads back to the proof |
| ProofFrame.FromBytes | crates/tt-front-end/src/structs.rs:134-158 | zipped bytes are unzipped, raw bytes are not, and either is tried compressed first and uncompressed second |
| ProofFrame.RawArtifact | crates/tt-front-end/src/structs.rs:133-158 | raw canonical bytes in either mode still load, unless they unzip or also read as the first mode |
| AvgSupport.AddAvgSupport | crates/tt-proof-planner/src/lp_analyzer/add_avg_support.rs:32-79 | the loop computes the expanded list and reports a change exactly when it added something |
| AvgSupport.KeepsOriginals | crates/tt-proof-planner/src/lp_analyzer/add_avg_support.rs:40-46 | the original aggregates remain as an ordered subsequence |
| AvgSupport.ExpandedContents | crates/tt-proof-planner/src/lp_analyzer/add_avg_support.rs:46-62 | the result is the originals and the additions, as multisets, and nothing else |
| AvgSupport.ExpandedSingle | crates/tt-proof-planner/src/lp_analyzer/add_avg_support.rs:46-62 | an average is directly followed by its sum, then its count, each unless present; anything else stands alone |
| AvgSupport.ExpandedSplit | crates/tt-proof-planner/src/lp_analyzer/add_avg_support.rs:40-63 | later expressions see what earlier ones added |
| AvgSupport.AvgSpellings | crates/tt-proof-planner/src/lp_analyzer/add_avg_support.rs:81-83 | an average is any spelling of the name in upper and lower case |
| AvgSupport.AdditionsFresh | crates/tt-proof-planner/src/lp_analyzer/add_avg_support.rs:48-62 | nothing present is added, nothing twice, and each addition is named sum or count and has an average's parameters |
| AvgSupport.AdditionsSuffice | crates/tt-proof-planner/src/lp_analyzer/add_avg_support.rs:48-62 | every average has its sum and count afterwards |
| AvgSupport.RewriteCloses | crates/tt-proof-planner/src/lp_analyzer/add_avg_support.rs:32-79 | the rewritten list is closed: every average in it has its sum and count in it |
| AvgSupport.ClosedUnchanged | crates/tt-proof-planner/src/lp_analyzer/add_avg_support.rs:65-75 | nothing is added exactly when the list is closed, and then it stays as it is |
| AvgSupport.RunTwice | crates/tt-proof-planner/src/lp_analyzer/add_avg_support.rs:32-79 | a second run reports no change and returns the same list |

## Left out

- The sumcheck and zerocheck protocols, polynomial commitments, the transcript and the trackers' own checks: contracts.
- The probability that a random challenge is accepted: the number of bad challenges is bounded instead.
- KeyedSumcheck.ArgVerifier.Verify: the ratio `2^(max_nv - nv)` is computed in unbounded integers; beyond 63 extra variables the machine word would overflow.
- HonestProver.HonestProverCheck: cloning the input onto a separate prover is not modelled.
- Lookup.LookupProve: the assertion that there are as many hints as columns holds by construction here; the separate entry point that takes hints from outside is covered by `HintedLookupSound` and `LookupArity`.
- CollectHints.StrictlyNextPower: a next power that does not fit the word is taken as zero, which is what an optimised build computes; a checked build stops instead.
- OptimizationHints.BothRulesReplay: the rows are claimed where no equi-join is rebuilt; a join rebuilt from one key pair whose left key is an equality is a different join.
- Rematerialize.ApplyRematerializeHints: expressions with subqueries are carried as they are; the walk does not enter them, as in the source.
- PassEngine.RunChain: passes are stateless; `begin_pass` and `end_pass`, tracing spans and passes that accumulate into a prover are not modelled. A refused pre-order pass is an absent result; the source panics.
- Arena.BuildArena: on cyclic child relations the source does not terminate; acyclicity is a requirement.
- PlanRoundTrip.PlanRoundTrips: operators, join types and join constraints are carried over as they are, since both translation tables list the same names one by one; the serde framing of the tree and its legacy JSON form are not modelled.
- JoinModes.ApplyJoinModes: the plan node's own copy of the mode is not part of the model, since the walk never touches it; poisoned locks are not modelled.
- PaddedWriter.WriteParquet: expanding and decimalizing a batch, which keep its rows, and the file format are not modelled; a row's values are opaque.
- PaddingInvisible.PaddingIsInvisible: operators are arbitrary functions of the enclosing rows, their inputs' rows and their subqueries; a scan that does not project the activator is left alone by the rewrite, and nothing is claimed about it.
- ColumnPacking.CollectByColumns: cells are integers; packing copies them and writes zeros of its own.
- ProofFrame.FrameRoundTrip: payloads are shorter than `2^64` bytes, as they are in any memory; allocation of a huge announced payload is not modelled.
- AvgSupport.AddAvgSupport: the walk over a whole plan and its subqueries is not modelled; functions are compared by name, all other parameters as one value.
- Numeric and hash encoders of columns, table serialization, gadget passes, materialization, statistics, benchmarks and command-line tools.
