# Verification of the modelling pipeline's core

This project models seven parts of the repository and proves properties of them for every input.

**The Case A contract.** A four-state ecosystem ODE is written down as formal equations:
expression trees for the sex-ratio rule, the ODE, its Jacobian, trace, determinant,
discriminant, four eigenvalues, a "maximum of four" formula and a squared residual.
`Expressions` has the trees and their evaluator, `Resolver` the program that recomputes one
derived scalar from the equations, `CaseA` the reviewed contract itself.

- `Slopes` and `Differentiation` give a symbolic differentiator and prove it correct, so
  "the entries are the derivative" is a theorem about the trees.
- `Spectrum` proves what the eigenvalue formulas are, `Stability` what the equilibria are.
- `Meaning` defines what a derived symbol means by recursive expansion; the recomputation's
  fixpoint is proved against it.
- `CaseAValues`, `CaseASolution`, `CaseAOutcome` and `CaseAPartial` put these together:
  what the recomputation returns for the whole contract, for every parameter list and raw
  state. `CaseAResults` and `CaseAReference` draw the conclusions about metrics, scenarios
  and the shipped reference state.

**Verification metrics of a scenario** (`ScenarioMetrics`), **the agent attempt loop** (`Usage`,
`AgentRun`, `AgentProperties`, `AgentReports`), **model identifiers** (`IdText`, `ModelIds`),
**the blind benchmark bundle** (`Ordering`, `BlindBundle`, `BundleReports`), **the promotion of
a verification policy** (`Promotion`, `PromotionProperties`, `PromotionReports`) and **four
database revisions** (`SchemaSteps`, `RevisionTables`, `Revisions`, `RoundTrips`,
`Applicability`, `RevisionResults`, `Migrator`).

`Refusals`, `AgentReports`, `IdText`, `BundleReports`, `PromotionReports` and `RevisionResults`
say what comes out in terms of what went in, without the functions the programs are proved
against: which attempt stage failed, which text an identifier has, what a digest covers, which
value each key of a written file has, which columns a schema has afterwards.

## Conventions

- Arithmetic is over the reals. The power function is a parameter `pw`; `LawfulPower` lists
  what is used of it: squares, the first power, square roots defined exactly for non-negative
  numbers, and x^g in the unit interval for x in the unit interval. `None` stands for the cases
  the evaluator rejects.
- Symbols of the contract are the constructors of `Name` (`RateJ` is `dJ_dt`, `FemaleRatio` is
  `female_ratio`, ...); `Other` keeps the name space open. An equation that defines a derived
  symbol is identified with that symbol. `StateJ`, `StateA`, `StateF`, `StateP` are J, A, F, P.
- The right-hand sides of the ODE are those of
  `benchmarks/case-003-mcm-2024-a/mathematical-model-v2.json`; the build script itself reads them
  from a database.
- What the router, the registry, a provider and the hooks of an agent do in one attempt is one
  `Attempt` value, so a run is determined by a list of attempts and a statement about all lists
  is one about all runs. Exceptions that leave the run are outcomes of their own.
- Lower-casing of a remote model name, SHA-256, canonical JSON hashing and the policy schema are
  parameters; a lemma that needs them injective or idempotent says so. `TellsVerdicts` is weaker
  than injectivity (`PromotionProperties.InjectiveTellsVerdicts`).
- A database step that would be refused has no result. Indexes are named by table and column.

## Where the code and its description differ

- The contract declares `disc_JA` non-negative. That holds up to the larval capacity and in
  general exactly under `Stability.DiscNonnegativeIff`; `CaseAReference.DiscriminantCanBeNegative`
  is a state within the declared domains where it fails, and there no algebraic metric can be
  recomputed (`CaseAReference.OvershootFaultsEverySymbol`).
- `EQ-DOMINANT-REAL` declares `lambda_JA_minus` among its symbols although its tree
  never mentions it; the value is the maximum of all four all the same.
- The usage an agent run reports is conserved exactly up to a stated discrepancy; a provider whose
  first usage reading fails is charged with its whole history.
- `is_mock` implies the mock provider in every successful run; otherwise exactly unless the last
  executed attempt got a mock response on the route of a real provider
  (`AgentProperties.MockImpliesMockProviderIff`).
- A review that ends in a rejection has rewritten both reports and keeps the policy of an earlier
  promotion. When that policy goes on matching the reports is `PromotionProperties.PolicyStaysBoundIff`.

## Model

| member | source | states |
|---|---|---|
| Refusals.CollectedInOrder | src/mathmodel_ai/verification/metric_recompute.py:98-106 | what is collected are the equations whose left side is a derived symbol, all of them, in list order, and none defines a symbol again |
| Refusals.FirstRepetition | src/mathmodel_ai/verification/metric_recompute.py:104-105 | otherwise the error names the symbol of the first equation that defines one again |
| Refusals.RefusalsIff | src/mathmodel_ai/verification/metric_recompute.py:89-105 | exactly when a recomputation refuses its input, and with which of the three reasons: no derived symbol, a raw value for a parameter, a symbol defined twice |
| Refusals.BaseValuesAre | src/mathmodel_ai/verification/metric_recompute.py:46-56 | definitions start from the parameters, the last one of a name, and from the raw values of decision and state variables only |
| Expressions.OnlyRefsMatter | src/mathmodel_ai/verification/evaluator.py:22-63 | the outcome of evaluating a tree, value or failure, depends on the symbols it refers to and nothing else |
| Resolver.RunPass | src/mathmodel_ai/verification/metric_recompute.py:108-118 | one sweep evaluates every ready definition against the values known so far, deletes it, and keeps the others in order; the first failure stops it |
| Resolver.CollectAssignments | src/mathmodel_ai/verification/metric_recompute.py:98-105 | the defining equations of derived symbols in list order, or an error at the first symbol defined twice |
| Resolver.AlgebraicValue | src/mathmodel_ai/verification/metric_recompute.py:86-124 | the recomputation with its loop over the remaining definitions equals the specification, error cases included |
| Meaning.MeaningIsUnique | src/mathmodel_ai/verification/metric_recompute.py:86-124 | recursive expansion gives a symbol at most one value |
| Meaning.PassSound | src/mathmodel_ai/verification/metric_recompute.py:110-118 | every value known after a sweep is the meaning of its symbol; a failing sweep has found a symbol whose operands have values while its own definition has none |
| Meaning.ResolveAgrees | src/mathmodel_ai/verification/metric_recompute.py:107-124 | the fixpoint returns the meaning of the symbol; "unresolved" means it has none, a fault means some definition cannot be evaluated |
| Meaning.RecomputationAgrees | src/mathmodel_ai/verification/metric_recompute.py:86-124 | the same for whole models |
| Meaning.OrderIsIrrelevant | src/mathmodel_ai/verification/metric_recompute.py:107-124 | without faulty definitions the order of the equations does not change the outcome |
| Meaning.ListOrderIsMeaning | scripts/build_case_a_modeling_contract.py:839-860 | evaluating a list in dependency order from first to last yields the meaning of every symbol |
| Slopes.SlopeIsUnique | scripts/build_case_a_modeling_contract.py:854 | a curve has at most one derivative at a point, so the entries below are the derivatives |
| Slopes.ProductSlope | scripts/build_case_a_modeling_contract.py:690-771 | the product rule for expansions with a bounded second-order remainder |
| Slopes.ReciprocalSlope | scripts/build_case_a_modeling_contract.py:690-771 | the reciprocal rule where the denominator is not zero |
| Differentiation.DerivativeCorrect | scripts/build_case_a_modeling_contract.py:77-110 | for every smooth tree that can be evaluated, the symbolic derivative evaluates to the derivative of its value along a symbol |
| CaseA.BodyRefs | scripts/build_case_a_modeling_contract.py:690-860 | every tree mentions exactly the symbols its equation declares, except that dominant_real_part never uses lambda_JA_minus |
| CaseA.DependenciesAreRanked | scripts/build_case_a_modeling_contract.py:839-860 | the declared dependencies are the defining equations of the derived symbols an equation declares, and each is listed earlier, so there is no cycle |
| CaseAValues.MaxTreeValue | scripts/build_case_a_modeling_contract.py:672-689 | the tree (a+b+sqrt((a-b)^2))/2 evaluates to the larger of its operands |
| CaseAJacobian.JacobianIsDerivative | scripts/build_case_a_modeling_contract.py:690-771 | for all sixteen entries: the listed entry is the partial derivative of the listed rate tree at every evaluable state, and every unlisted entry is zero |
| CaseAJacobian.SymbolicJacobian | scripts/build_case_a_modeling_contract.py:690-771 | the symbolic derivative of a rate tree evaluates to the listed entry |
| Spectrum.EigenvalueIffRoot | scripts/build_case_a_modeling_contract.py:772-815 | the real eigenvalues of the four-by-four matrix are exactly the roots of the larva-adult factor, jac_FF and jac_PP |
| Spectrum.CharPolyFactors | scripts/build_case_a_modeling_contract.py:772-808 | the characteristic polynomial, expanded by cofactors, is (l^2 - trace l + det)(l - jac_FF)(l - jac_PP) |
| Spectrum.SpectrumIsFourLambdas | scripts/build_case_a_modeling_contract.py:772-808 | with a real square root of the discriminant the four lambdas are exactly the real eigenvalues and the roots of the characteristic polynomial |
| Spectrum.DominantIsGreatestEigenvalue | scripts/build_case_a_modeling_contract.py:809-815 | the maximum of four is itself an eigenvalue and bounds every other one |
| Spectrum.StableIff | scripts/build_case_a_modeling_contract.py:1290-1299 | dominant_real_part < 0 iff trace_JA < 0, det_JA > 0, jac_FF < 0 and jac_PP < 0 |
| Stability.FieldExpansion | scripts/build_case_a_modeling_contract.py:690-771 | for every state and step the field changes by Jacobian times step plus an explicit quadratic remainder |
| Stability.DiscNonnegativeIff | scripts/build_case_a_modeling_contract.py:368-374 | disc_JA >= 0 iff 4 b f m (J/K - 1) <= (jac_JJ - jac_AA)^2 |
| Stability.DiscNonnegativeUpToCapacity | scripts/build_case_a_modeling_contract.py:368-374 | disc_JA >= 0 whenever J does not exceed the larval capacity |
| Stability.EquilibriumIsStar | scripts/build_case_a_modeling_contract.py:68-73 | a strictly positive state is an equilibrium iff it is the closed form |
| Stability.InteriorEquilibriumIff | scripts/build_case_a_modeling_contract.py:479-492 | a strictly positive equilibrium exists iff three thresholds on the parameters hold, and there is never more than one |
| Stability.InteriorEntries | scripts/build_case_a_modeling_contract.py:690-783 | at such a state det_JA = b f A muA / K, jac_FF = -rF F / KF and jac_PP = -rP P / KP |
| Stability.InteriorEquilibriumIsStable | scripts/build_case_a_modeling_contract.py:1290-1299 | every strictly positive equilibrium passes the contract's local asymptotic stability test |
| Stability.ExtinctionUnstableIff | scripts/build_case_a_modeling_contract.py:1290-1299 | without lampreys the larva-adult block is unstable exactly when the first threshold holds |
| Stability.FieldPointsInward | benchmarks/case-003-mcm-2024-a/mathematical-model-v2.json:1645-2015 | on every face of an explicit box the four rates point inwards or along the face |
| CaseASolution.ContractIsOrdered | scripts/build_case_a_modeling_contract.py:438-470 | every equation of the contract comes after the equations it depends on |
| CaseASolution.ContractAssignments | scripts/build_case_a_modeling_contract.py:438-516 | the defining equations of the contract are the twenty-six derived ones; initial values and switch bounds define nothing |
| CaseASolution.SolvesIsClosed | scripts/build_case_a_modeling_contract.py:402-470 | an environment that satisfies all twenty-six equations is the closed form of a well-posed state |
| CaseASolution.ClosedSolves | scripts/build_case_a_modeling_contract.py:402-470 | the closed form of a well-posed state satisfies all twenty-six equations |
| CaseAOutcome.FullStateOutcome | src/mathmodel_ai/verification/metric_recompute.py:86-124 | for every parameter list, full raw state and derived symbol the recomputation returns the closed form if the power, the three capacities and the discriminant permit, and a fault otherwise |
| CaseAOutcome.ContractOrderIsMeaning | scripts/build_case_a_modeling_contract.py:839-860 | evaluating the contract in list order agrees with recursive expansion for every assignment to the base symbols |
| CaseAPartial.FoodOnlyMaleRatio | scripts/review_case_a_modeling_contract.py:92-107 | with only the food level in the raw state male_ratio is recomputed exactly |
| CaseAPartial.FoodOnlyNeedsPower | scripts/review_case_a_modeling_contract.py:92-107 | and fails exactly where the power is undefined |
| CaseAResults.MaleRatioBounds | scripts/build_case_a_modeling_contract.py:402-420 | the sex-ratio rule stays between its two anchors for every switch position |
| CaseAResults.RecomputedAnchors | scripts/review_case_a_modeling_contract.py:92-107 | recomputed from the food level alone male_ratio is the low ratio at no food, the high one at full food and the midpoint with the mechanism off, and stays between the anchors for every switch position |
| CaseAResults.SwitchMovesOnlySexRatio | scripts/build_case_a_modeling_contract.py:415-449 | moving the switch leaves every recomputed symbol that does not depend on the female ratio as it was |
| CaseAResults.ReviewedWellPosedIff | scripts/build_case_a_modeling_contract.py:368-386 | in the reviewed domain the metrics can be recomputed iff the larval overshoot is small enough, and always up to the larval capacity |
| CaseAResults.DominantMetric | scripts/build_case_a_modeling_contract.py:961-977 | a recomputed dominant_real_part is the greatest eigenvalue of the ODE's Jacobian and its sign is the trace-determinant criterion |
| CaseAResults.ResidualMetric | scripts/build_case_a_modeling_contract.py:947-960 | the recomputed residual is zero iff the raw state is an equilibrium |
| CaseAResults.EquilibriumMetricsAreStable | scripts/build_case_a_modeling_contract.py:1290-1299 | a strictly positive raw state with residual zero always has a negative dominant_real_part |
| CaseAReference.ReferenceIsTheEquilibrium | scripts/build_case_a_modeling_contract.py:68-73 | at half food, for every position of the switch, a rational state is the only strictly positive equilibrium and it is stable |
| CaseAReference.PrintedReference | scripts/build_case_a_modeling_contract.py:68-73 | the shipped decimals agree with it to 1e-15 and leave a squared residual below 1e-28 |
| CaseAReference.ScenarioCoexistence | scripts/build_case_a_modeling_contract.py:1037-1083 | without food the adaptive mechanism loses the interior equilibrium and the fixed ratio keeps it; at full food both keep it |
| CaseAReference.AdaptiveLowResourceHasNoCoexistence | scripts/build_case_a_modeling_contract.py:1037-1083 | in the adaptive scenario without food no strictly positive state is an equilibrium |
| CaseAReference.ResidualCriterionAdmitsUnstable | scripts/build_case_a_modeling_contract.py:1292-1296 | the residual test alone does not decide stability: a fixed strictly positive state passes it, has real eigenvalues and a positive dominant one |
| CaseAReference.ResidualMetricAdmitsUnstable | src/mathmodel_ai/verification/metric_recompute.py:86-124 | the same on recomputed metrics, for a concrete parameter list and raw state |
| CaseAReference.DiscriminantCanBeNegative | scripts/build_case_a_modeling_contract.py:368-374 | a state in the declared domains with negative disc_JA |
| CaseAReference.OvershootFaultsEverySymbol | src/mathmodel_ai/verification/metric_recompute.py:110-118 | at such a state no derived symbol can be recomputed, not even male_ratio |
| CaseAReference.OvershootHappens | src/mathmodel_ai/verification/metric_recompute.py:110-118 | there is a parameter list and a raw state on which that happens |
| ScenarioMetrics.IdDeterminesParts | scripts/build_case_a_modeling_contract.py:905-978 | prefix and suffix can be read off a metric identifier, whatever the prefix |
| ScenarioMetrics.PolicyIdsDistinctIff | scripts/build_case_a_modeling_contract.py:1034-1128 | all metric identifiers of a policy are pairwise distinct iff the scenario identifiers are |
| ScenarioMetrics.GenerateScenarioMetrics | scripts/build_case_a_modeling_contract.py:905-978 | the fifteen metrics of a scenario in order; each reads the named series or symbol, a minimum accepts exactly the values from -1e-7 up, the residual exactly those up to 1e-10, male_ratio exactly those within 1e-7 of the expected ratio, and finals and eigenvalues every value |
| ScenarioMetrics.GeneratePolicy | scripts/build_case_a_modeling_contract.py:1034-1128 | the metrics of all scenarios, each accepting what it should, and the distinctness of their identifiers |
| Usage.Plus | src/mathmodel_ai/providers/schemas.py:77-85 | fieldwise sum with an absent token count as zero; refused iff a sum exceeds the schema's bounds |
| Usage.DifferenceRecovers | src/mathmodel_ai/agents/base.py:343-356 | two readings of a counter around an increment give back the increment in every field |
| Usage.SpendTotal | src/mathmodel_ai/agents/base.py:343-356 | spending at one provider raises the total over all providers by that amount |
| AgentRun.TraceError | src/mathmodel_ai/agents/base.py:359-387 | no error iff the response agrees with everything the route fixes |
| AgentRun.Account | src/mathmodel_ai/agents/base.py:229-243 | accounting for an attempt adds exactly what its provider's counter moved plus a stated discrepancy, in every field, or raises; it sees only what the attempt left behind |
| AgentRun.Run | src/mathmodel_ai/agents/base.py:126-311 | the run stops at the first attempt that does not merely fail or when attempts run out; its outcome, the provider counters and what router and hooks were shown are functions of the attempts made |
| AgentProperties.StopIsUnique | src/mathmodel_ai/agents/base.py:142-296 | the number of attempts is determined by the events |
| AgentProperties.SuccessIff | src/mathmodel_ai/agents/base.py:142-294 | a finished run succeeds iff some attempt passes digest, preparation, checkout, reading, execution, both validators and the trace check after only failing ones; that is the last attempt made and its draft the output |
| AgentProperties.RunBudget | src/mathmodel_ai/agents/base.py:141-173 | at most max_retries+1 routes; one error per failed attempt in order; errors are one fewer than routes except on exhaustion; executed attempts do not exceed routes |
| AgentProperties.SuccessIsFirstAccepted | src/mathmodel_ai/agents/base.py:236-294 | success returns the first draft that passed, and nothing is attempted after it |
| AgentProperties.SuccessTraceAgrees | src/mathmodel_ai/agents/base.py:236-294 | the reported trace agrees with the route wherever the route fixes it, and is_mock implies the mock provider |
| AgentProperties.UnsuccessfulTrace | src/mathmodel_ai/agents/base.py:296-341 | without success the trace is that of the last executed attempt's route |
| AgentProperties.MockImpliesMockProviderIff | src/mathmodel_ai/agents/base.py:217-221 | exactly when a run marked mock reports the mock provider |
| AgentProperties.RetryCounts | src/mathmodel_ai/agents/base.py:142-148 | the routed retry count is the profile's for two attempts and then grows by one per attempt |
| AgentProperties.GuidanceIsOriginalPlusLatest | src/mathmodel_ai/agents/math_modeler.py:44-64 | feedback never accumulates: the original guidance plus one entry about the attempt just before |
| AgentProperties.UsageConservation | src/mathmodel_ai/agents/base.py:217-243 | reported usage minus the movement of all provider counters is the sum of the attempts' discrepancies |
| AgentProperties.HonestConservation | src/mathmodel_ai/agents/base.py:217-243 | with readable counters and truthful responses the two are equal, also across providers and failures |
| AgentProperties.FailedReadingChargesHistory | src/mathmodel_ai/agents/base.py:190-243 | a run that executes nothing, with every counter unmoved, reports the provider's whole history as its usage when the first reading failed |
| AgentProperties.EscalatedCanBeMock | src/mathmodel_ai/agents/base.py:217-221 | an escalated run can be marked mock and traced to a real provider |
| AgentReports.StatusIs | src/mathmodel_ai/agents/base.py:149-172 | a finished run awaits a human iff the last route asks for human review, succeeds iff that attempt executes and none of sixteen stages fails, and is escalated iff the route asks for a multi-model review or a stage failed with no attempt left |
| AgentReports.ErrorsAreFirstFailures | src/mathmodel_ai/agents/base.py:173-225 | each recorded error is the text of the first stage that failed in that attempt |
| AgentReports.AttemptsAreExecutions | src/mathmodel_ai/agents/base.py:190-194 | the reported number of attempts is the number of attempts in which the five stages before execution passed |
| AgentReports.SuccessReport | src/mathmodel_ai/agents/base.py:236-294 | draft, prompt version, mock flag and all thirteen trace fields of a successful run, from the last attempt's route and response |
| AgentReports.FailureReport | src/mathmodel_ai/agents/base.py:296-341 | the same without success: nothing if no attempt executed, else the route of the last one that did |
| AgentReports.ShownGuidance | src/mathmodel_ai/agents/math_modeler.py:44-64 | what an attempt is shown about the one before: the prefix and the first 4096 characters of what its first failing stage said |
| AgentReports.StopsIff | src/mathmodel_ai/agents/base.py:142-235 | a run stops at the first attempt that is not to be executed, passes every stage or cannot be paid for, or when attempts run out |
| AgentReports.EndsIff | src/mathmodel_ai/agents/base.py:217-243 | an exception leaves the run iff the last route raised, or a counter could not be read again or a total exceeds the schema's bounds; otherwise the reported usage is the total cost of the attempts |
| IdText.SlugIsUnique | frontend/src/pages/ModelsApiPage.tsx:356 | one text only has the letters and digits of the name in order, single dashes exactly where two of them were separated, and is "model" when there are none |
| ModelIds.SlugIsSlug | frontend/src/pages/ModelsApiPage.tsx:356 | the replacements and the trimming yield that text |
| IdText.NumeralIsUnique | frontend/src/pages/ModelsApiPage.tsx:362 | one digit string only is the decimal numeral of a number |
| IdText.FreshIdIsUnique | frontend/src/pages/ModelsApiPage.tsx:355-367 | one text only is the identifier: the provider and the slug cut at one hundred characters without a final dash if that is free, else cut further and ended with the least counter from 2 that makes it free |
| ModelIds.FirstFreeIsFresh | frontend/src/pages/ModelsApiPage.tsx:355-367 | the specification the loop is proved against is that identifier |
| ModelIds.SlugIsClean | frontend/src/pages/ModelsApiPage.tsx:356 | the slug is never empty, has single dashes only and none at its ends |
| ModelIds.CandidatesAreDistinct | frontend/src/pages/ModelsApiPage.tsx:360-364 | different counters give different candidates in spite of truncation |
| ModelIds.TakenAreCounted | frontend/src/pages/ModelsApiPage.tsx:360-364 | if the counters below k are all taken there are at least k-2 used identifiers |
| ModelIds.FirstFreeIsUnique | frontend/src/pages/ModelsApiPage.tsx:355-367 | the specification below determines the identifier, which is new |
| ModelIds.UsedIds.GeneratedModelId | frontend/src/pages/ModelsApiPage.tsx:355-367 | the loop ends; it returns the base if free and otherwise the candidate with the least free counter, which is the one text IdText describes, and adds exactly that |
| ModelIds.FreshIdsAreValid | frontend/src/pages/ModelsApiPage.tsx:377-395 | the identifiers of a batch are pairwise distinct, new, at most one hundred characters, and match the backend's pattern whenever the provider's identifier does |
| ModelIds.AddCandidates | frontend/src/pages/ModelsApiPage.tsx:377-395 | the batch requests the first free identifier for each candidate in turn, with the text IdText describes, and stops at the first refusal |
| BlindBundle.Registry.Load | src/mathmodel_ai/benchmark/manifests.py:35-43 | the registry is filled, or refused at the first invalid or repeated manifest |
| BlindBundle.RegisteredIff | src/mathmodel_ai/benchmark/manifests.py:35-43 | loading succeeds iff every manifest is valid and no identifier repeats |
| BlindBundle.Registry.LoadBlindSolveBundle | src/mathmodel_ai/benchmark/manifests.py:58-85 | the loop builds the specified bundle or reports the first failing resource |
| BundleReports.LoadsIff | src/mathmodel_ai/schemas/benchmark.py:206-226 | the registry loads iff no manifest identifier repeats and in every manifest resource identifiers are distinct, the problem is to be solved, only rules and external data come with it, required literature has a query and every fact names a resource |
| BundleReports.ArtifactsAreInOrder | src/mathmodel_ai/benchmark/manifests.py:60-67 | the artifacts are the SOLVE resources, each once, with lexicographically ascending identifiers |
| BundleReports.DigestCoversArtifacts | src/mathmodel_ai/benchmark/manifests.py:68-85 | the digest is that of the manifest's digest and, per artifact, its identifier, its pinned hash and its size |
| BundleReports.FirstFailureIsReported | src/mathmodel_ai/benchmark/manifests.py:88-110 | a failing load reports, for the first resource in identifier order that is not as pinned, the first of six conditions it violates |
| Ordering.LessEqIff | src/mathmodel_ai/benchmark/manifests.py:60-65 | the order sorted by is the lexicographic one |
| BlindBundle.BundleContents | src/mathmodel_ai/benchmark/manifests.py:58-110 | a load succeeds iff every SOLVE file is inside the cache, regular, no link or reparse point, and has the pinned size and hash; the artifacts are exactly those resources, once each, in identifier order, with the contents of their files |
| BlindBundle.BundleIsBlind | src/mathmodel_ai/schemas/benchmark.py:206-226 | no evaluation material is in a bundle, the official problem is, and every file is pinned |
| BlindBundle.RegistryServesBlindBundles | src/mathmodel_ai/benchmark/manifests.py:35-85 | whatever a loaded registry serves is the blind bundle of one of its files |
| BlindBundle.NonInterference | src/mathmodel_ai/benchmark/manifests.py:58-110 | no file other than those of SOLVE resources influences the outcome, error or bundle |
| BlindBundle.LoadsAgree | src/mathmodel_ai/benchmark/manifests.py:58-110 | any two successful loads of a manifest return the same bundle and digest |
| BlindBundle.ResourceOrderIsIrrelevant | src/mathmodel_ai/benchmark/manifests.py:60-65 | the order in which a manifest lists its resources does not change the artifacts |
| BlindBundle.DigestBinds | src/mathmodel_ai/benchmark/manifests.py:75-85 | equal solve-input digests mean equal manifests and equal bytes |
| Promotion.SealVerifies | scripts/review_case_a_modeling_contract.py:55-56 | a sealed object verifies, whatever digest it carried before |
| Promotion.SealFixesFields | scripts/review_case_a_modeling_contract.py:55-56 | under an injective hash equal seals mean equal objects |
| Promotion.ScoreReachesOnlyAtFull | scripts/review_case_a_modeling_contract.py:286-307 | 85 points are reached at 100 only, iff every scored check holds and the targets are Q1 to Q5 |
| Promotion.Folder.ReviewCase | scripts/review_case_a_modeling_contract.py:237-354 | the review's writes, file by file, in every outcome |
| PromotionProperties.OutcomeIff | scripts/review_case_a_modeling_contract.py:308-322 | a policy is promoted iff every check holds, the targets are Q1 to Q5 and the schema accepts the candidate with the digests of these reports; which rejection otherwise |
| PromotionProperties.RejectionKeepsPolicy | scripts/review_case_a_modeling_contract.py:312-318 | a rejection writes the two reports, one of which says FAIL, and leaves every other file |
| PromotionProperties.PromotionBinds | scripts/review_case_a_modeling_contract.py:319-354 | after a promotion every sealed file verifies and policy, draft and summary carry the digests of the reports on disk |
| PromotionProperties.PromotionIsFixedPoint | scripts/review_case_a_modeling_contract.py:237-354 | reviewing a promoted folder again promotes it and changes no file |
| PromotionProperties.RejectionLeavesStalePolicy | scripts/review_case_a_modeling_contract.py:312-318 | a rejection after a promotion leaves a policy that no longer matches the reports |
| PromotionProperties.PolicyStaysBoundIff | scripts/review_case_a_modeling_contract.py:237-354 | after a review of a promoted folder policy, draft and summary match the reports on disk iff the review could not be performed, or every check holds for Q1 to Q5 and the schema accepts the policy or the reports kept their digests |
| PromotionProperties.AlteredContractBreaksBinding | scripts/review_case_a_modeling_contract.py:308-318 | a contract altered after the promotion and not sealed anew is rejected and leaves the policy unmatched |
| PromotionProperties.PromotedFolderCanGoStale | scripts/review_case_a_modeling_contract.py:237-354 | a concrete environment and folder on which this happens |
| PromotionReports.ReportsAreWritten | scripts/review_case_a_modeling_contract.py:214-311 | both reports of every reviewable case key by key: contract digest, every check as found, the five limitations and their counts, status, own hash; the jury's four dimensions by the checks they rest on, their sum, and the decision at 85 points |
| PromotionReports.PassingScoreIsFull | scripts/review_case_a_modeling_contract.py:286-310 | a jury that passes has awarded 100 points |
| PromotionReports.PromotionIsWritten | scripts/review_case_a_modeling_contract.py:319-354 | a promotion writes a draft that is REVIEWED, eligible, without blockers, with the policy on disk and the digests of reports and policy, and otherwise the draft as it was; a policy the schema made of the drafted one with four fields set; and a summary citing contract, model, reports and policy; contract and archive stay |
| PromotionReports.UnreviewableOutcome | scripts/review_case_a_modeling_contract.py:237-247 | a case that cannot be reviewed keeps every file; the archive is blamed iff all inputs are there and its digest or content is not the known one |
| SchemaSteps.ApplyKeepsWellFormed | migrations/versions/20260828_0006_phase_5_verification_repair.py:24-408 | no step leaves a dangling foreign key, index or key |
| SchemaSteps.InverseUndoes | migrations/versions/20260828_0006_phase_5_verification_repair.py:24-32 | every building step is undone by its inverse, which is never refused |
| SchemaSteps.UndoRestores | migrations/versions/20260828_0006_phase_5_verification_repair.py:24-408 | building steps followed by their inverses in reverse order restore the schema |
| SchemaSteps.ReversesCompose | migrations/versions/20260830_0010_custom_provider_registry.py:15-17 | reversible revisions compose |
| RoundTrips.RoundTrip0003 | migrations/versions/20260826_0003_data_execution_foundation.py:24-168 | the downgrade of revision 0003 succeeds and restores the schema wherever the upgrade succeeded |
| RoundTrips.RoundTrip0005 | migrations/versions/20260827_0005_phase_4_1_hardening.py:26-170 | the same for revision 0005, whose temporary defaults leave no trace |
| RoundTrips.RoundTrip0006 | migrations/versions/20260828_0006_phase_5_verification_repair.py:34-408 | the same for revision 0006 |
| RoundTrips.RoundTrip0010 | migrations/versions/20260830_0010_custom_provider_registry.py:22-230 | the same for revision 0010, which drops tables without dropping their indexes first |
| RoundTrips.ChainRoundTrip | migrations/versions/20260830_0010_custom_provider_registry.py:22-230 | the same for the chain of the four with any reversible revisions between them |
| RoundTrips.TablesSucceedIff | migrations/versions/20260828_0006_phase_5_verification_repair.py:34-312 | a table-creating revision succeeds iff its tables fit the schema one after another |
| Applicability.SeriesSucceedsIff | migrations/versions/20260828_0006_phase_5_verification_repair.py:34-312 | a series of tables that refer back to earlier ones can be created iff no name is taken and the outside columns referred to exist; then nothing else changes |
| Applicability.Upgrade0003SucceedsIff | migrations/versions/20260826_0003_data_execution_foundation.py:24-145 | the revision applies iff its five tables are new and problems and projects exist; the late key is never refused |
| Applicability.Upgrade0005SucceedsIff | migrations/versions/20260827_0005_phase_4_1_hardening.py:26-130 | it applies iff each table is there without the columns it gets, agent runs exist and the key's name is free; the indexes are never refused |
| Applicability.Upgrade0006SucceedsIff | migrations/versions/20260828_0006_phase_5_verification_repair.py:34-312 | it applies iff its six tables are new and the seven tables they refer to exist |
| Applicability.Upgrade0010SucceedsIff | migrations/versions/20260830_0010_custom_provider_registry.py:22-192 | it applies iff its four tables are new and the two run tables exist without the trace columns |
| Applicability.AppliesAndReturns | migrations/versions/20260830_0010_custom_provider_registry.py:22-230 | each of the four applies exactly to the schemas that are ready for it and is undone by its downgrade |
| Applicability.AppliesSomewhere | migrations/versions/20260830_0010_custom_provider_registry.py:22-230 | each of them applies to a schema of bare tables |
| RevisionResults.Result0003 | migrations/versions/20260826_0003_data_execution_foundation.py:24-145 | the schema afterwards: five tables as listed, their references and indexes, the one late key, and nothing else changed |
| RevisionResults.Result0005 | migrations/versions/20260827_0005_phase_4_1_hardening.py:26-130 | the schema afterwards: exactly thirteen more columns, one more key and twelve more indexes; five required columns end without the default that served existing rows, the three origins keep theirs |
| RevisionResults.Result0006 | migrations/versions/20260828_0006_phase_5_verification_repair.py:34-312 | the schema afterwards: six tables as listed, their references and indexes, and nothing else changed |
| RevisionResults.Result0010 | migrations/versions/20260830_0010_custom_provider_registry.py:22-192 | the schema afterwards: four tables as listed, and optional trace columns on the two run tables, with an index on the marked ones |
| Migrator.Database.CreateIndexes | migrations/versions/20260828_0006_phase_5_verification_repair.py:24-26 | the loop has the effect of the index steps in order |
| Migrator.Database.DropIndexes | migrations/versions/20260828_0006_phase_5_verification_repair.py:29-31 | the loop over the reversed columns has the effect of the reversed drops |
| Migrator.Database.Upgrade3 | migrations/versions/20260826_0003_data_execution_foundation.py:24-145 | performs the steps of revision 0003 |
| Migrator.Database.Downgrade3 | migrations/versions/20260826_0003_data_execution_foundation.py:148-168 | performs its downgrade |
| Migrator.Database.Upgrade5 | migrations/versions/20260827_0005_phase_4_1_hardening.py:26-130 | performs the steps of revision 0005 |
| Migrator.Database.Downgrade5 | migrations/versions/20260827_0005_phase_4_1_hardening.py:133-170 | performs its downgrade |
| Migrator.Database.Upgrade6 | migrations/versions/20260828_0006_phase_5_verification_repair.py:34-312 | performs the steps of revision 0006 |
| Migrator.Database.Downgrade6 | migrations/versions/20260828_0006_phase_5_verification_repair.py:315-408 | performs its downgrade |
| Migrator.Database.Upgrade10 | migrations/versions/20260830_0010_custom_provider_registry.py:22-192 | performs the steps of revision 0010 |
| Migrator.Database.Downgrade10 | migrations/versions/20260830_0010_custom_provider_registry.py:153-230 | performs its downgrade |
| Migrator.Database.UpgradeAndDowngrade | migrations/versions/20260828_0006_phase_5_verification_repair.py:34-408 | running either half of a revision after the other leaves the database as it was, whenever the revision applies |

## Left out

- Resolver.AlgebraicValue: does not model floating point, so the source's finiteness and overflow checks never apply; a raised arithmetic error is the `Fault` outcome without its text.
- CaseAOutcome.FullStateOutcome: speaks of raw states with all four levels; with the food level alone only male_ratio is treated (`CaseAPartial`).
- AgentRun.Run: leaves out timing, run identifiers, logging and the validation of the run's own input; cancellation of a run is not an event.
- AgentProperties.HonestConservation: counts what this run adds to the provider counters; a provider shared with a concurrent run is not modelled.
- BlindBundle.Registry.LoadBlindSolveBundle: reads each file once, so a file that changes between the checks and the read is not modelled.
- Promotion.Folder.ReviewCase: takes the review checks other than the two digest checks as a function of the contract, the candidate's scenarios and metrics, and the open obligations; the texts of findings and dispositions are reduced to severity and code.
- RoundTrips.RoundTrip0005: leaves out the data update of revision 0005, which only touches a column the downgrade removes; column order and server-side names of unnamed constraints are not part of a schema.
- The search for one interior equilibrium's basin of attraction, trajectories and RK45 integration: no claim is made about solutions of the ODE in time.
- The remaining derived texts of the contract (units, assumptions, LaTeX, provenance), its sensitivity contract and the constraints on initial values.
- The router, the providers, prompt rendering, quality gates and the pydantic schemas beyond the bounds named above.
- The other revisions of the migration chain, React components, the API server and the command line.
