# CHAINBREAK in Dafny

CHAINBREAK compiles a delegation scenario into a rooted graph of identities, executes a plan against a provider
(probe, mutate, poll, wait, deferred execution, task) while writing evidence, and analyses that evidence for drift
from the authority each identity was meant to have. This project models what lies between the provider and the
files, and proves what that machinery promises.

- **Graph and compiler** (`Acyclicity`, `Graphs`, `Trees`, `Scenarios`, `Walks`, `Recursion`, `Compiler`,
  `CompiledTrees`, `OnePass`, `Builder`, `Plans`): the recursive walk over delegations and when it ends, Kahn's check,
  path enumeration, G-1 to G-5, and snapshot insertion.
- **Authority analysis** (`Authority`, `Divergence`, `Rules`, `Claims`, `Pipeline`, `Phases`): observations become
  cells, cells become observed sets, sets become node, edge and path verdicts, and the origin of every gain is threaded
  down its chain. `Claims` says what each finding means in terms of the raw trials.
- **Revocation** (`Polling`, `Timing`, `Revocation`): the stability-counting poll loop, the window arithmetic, and
  the two composed.
- **Execution** (`Delegation`, `Renewals`, `Probes`, `Matrix`, `Deferred`, `ProbeReports`, `Reverts`, `Tasks`,
  `TaskContract`, `TaskReports`): materialization and renewals, probe matrices, deferred probes, mutations and their
  reverts, and the four task workers against the objective check.
- **The run** (`Logs`, `Runs`, `Traces`, `Undone`, `Orchestrator`, `EndToEnd`): the orchestrator as a class that
  updates its sink, sequence and pending reverts. Its contract says that what it leaves in the sink is the log of a
  `Trace`, record by record at that trace's counts of calls, and that the policy changes it asked for are that trace's;
  the theorems about every run, wherever it ends, are lemmas about traces. `Undone` says what every run undoes and what
  that restores; `EndToEnd` goes from the log of a run to the analysis of that log.
- **Identifiers** (`Ulid`): the monotonic generator.

The provider, the run clock and the random draws are one adversary, a `Script` of answers indexed by call
(`Adapters`). Every call may answer anything or raise; exceptions are a `Result`. The adapter keeps what it was asked:
each probe, each delegation's edge, and each policy change with its contents. Classes stand for the source's
mutable objects (`GraphBuilder`, `PathCollector`, `Invoker`, `MaterializedGraph`, `CredentialStore`, `Run`,
`Generator`); loops that update variables are methods with loops, proved equal to a specification function or
relation, about which the lemmas then speak. Times are integer nanoseconds or reals, coverage is a real, capabilities
and identities are opaque names, and the digest behind finding ids is an arbitrary function.

## Where the code and its documentation part

The model follows the code.

- `execution/revert.py` says in its opening text that a trust-policy update needs no revert; the code makes it
  actionable, provided the adapter offers its hook.
- `execution/polling.py` describes sleeping between polls; with a clock the code sleeps only when less time remains
  than one interval. Nothing here is claimed about the spacing of polls, only about their number.
- `execution/orchestrator.py` says in a comment that a deferred execution always has just minted the credential it
  writes; when the provider refuses to mint, the code writes the one current before (`Runs.DeferralRight`).
- `analysis/pipeline.py` says a phase's path analysis reflects everything measured up to that phase. Phases are
  taken in the order of their names, so the final phase is folded in before the phase after delegation
  (`Phases.FinalGivesWay`).
- Empty survived and dropped sets do not make a hop attenuation-correct
  (`Divergence.SurvivedAndDroppedAreNotEnough`); `Divergence.CorrectIff` gives the missing condition.
- The schema checks neither that delegation ids are unique nor that no delegation chain re-enters the root. The
  compiler's recursion goes on for ever if and only if some chain of its lookups by id comes back to an identity with
  the authority derived there before, and nothing the walk comes to before is refused (`Recursion.NeverReturnsIff`);
  that it does not is all the model asks of a specification, and only if no identity is targeted twice, for else the
  walk is never begun. With repeated ids the walk may never return although the root is not re-entered, return
  although it is, and compile to a graph with parallel edges that is no tree, and that one pass need not materialize
  (`Recursion.RepeatedIdsNeverReturn`, `Scenarios.ReenteredYetLoopless`, `CompiledTrees.TreeIffUniqueIds`,
  `OnePass.MaterializesIff`).
- `execution/delegation.py` says a single forward pass always delegates a source before any edge that needs it; with
  repeated ids it need not (`OnePass.AheadMissesSource`).
- A finding's id omits its phase, and the type it had before gating: two findings may share one
  (`Rules.IdsCollideIff`, `Rules.PhasesCollideIff`).
- An honest worker whose contract declares one step twice in a row is accused of substituting
  (`TaskContract.RepeatedStepAccused`), and one whose adapter cannot confirm markers is accused of silent narrowing
  (`TaskContract.NeverNarrowsIff`).
- A mutation phase whose name ends in the post-snapshot suffix does not get its own pre-snapshot
  (`Plans.PreSnapshotFindsIff`).
- The generator has no overflow check on the branch for a clock that steps back (`Ulid.StepIncreasesIff`).

## Model

| member | source | states |
|---|---|---|
| Acyclicity.AssertAcyclic | src/chainbreak/core/models.py:559-577 | Kahn's check, over any known endpoints and with parallel edges allowed, accepts a graph if and only if it has no directed cycle. |
| Acyclicity.Pigeonhole | src/chainbreak/core/models.py:559-577 | A sequence longer than the set it draws from repeats an element: why a queue that runs dry too early leaves a cycle. |
| Acyclicity.StuckHasCycle | src/chainbreak/core/models.py:559-577 | If every remaining identity still has an unprocessed predecessor, some cycle exists. |
| Acyclicity.AcyclicWalkBounded | src/chainbreak/core/models.py:597-617 | In an acyclic graph no walk is longer than the number of identities, so following children ends. |
| Graphs.Construct | src/chainbreak/core/models.py:535-557 | The constructor accepts exactly the graphs with distinct ids, one root, known endpoints, no edge into the root and no cycle; on refusal the error names the first check that fails, and the first edge with an unknown endpoint. |
| Graphs.PathCollector.Visit | src/chainbreak/core/models.py:604-615 | The recursive walk appends exactly the completions of its prefix to the shared result list, in edge order, and it terminates. |
| Graphs.Paths | src/chainbreak/core/models.py:604-617 | Path enumeration terminates on every valid graph and returns the root-to-leaf paths. |
| Graphs.PathsExact | src/chainbreak/core/models.py:604-617 | A sequence is among the enumerated paths if and only if it is a walk from the root that cannot be extended. |
| Graphs.PathsOnce | src/chainbreak/core/models.py:604-617 | Without parallel edges no path is enumerated twice. |
| Trees.TreeIsValid | src/chainbreak/core/models.py:535-577 | A delegation tree passes every check of the constructor and has no parallel edges. |
| Trees.WalkDetermines | src/chainbreak/scenarios/compiler.py:172-188 | Along any walk from the root, hop index is the walk's length, the parent is the previous identity, and expected authority is the root's capabilities intersected with every intent on the way. |
| Trees.WalkUnique | src/chainbreak/scenarios/compiler.py:144-199 | Exactly one walk leads from the root to an identity. |
| Trees.EveryNodeOnPath | src/chainbreak/core/models.py:604-617 | On a tree every identity lies on some enumerated path. |
| Trees.PathCountIsLeafCount | src/chainbreak/core/models.py:604-617 | On a tree there are exactly as many paths as leaves. |
| Compiler.IndexDelegations | src/chainbreak/scenarios/compiler.py:127-139 | Indexing fails exactly when two delegations share a target, and then names such a clash; otherwise it yields the child ids of every identity in document order, and the last delegation of each id. |
| Compiler.GraphBuilder.Visit | src/chainbreak/scenarios/compiler.py:144-190 | Wherever the recursion ends, by returning or by raising, looping lookups and repeated ids included: one call makes exactly the visits of its subtree of lookups, in order, up to the first disagreement, which it raises; otherwise it leaves their nodes (a later visit replacing an earlier one) and one edge per call. |
| Compiler.StackVisited | src/chainbreak/scenarios/compiler.py:172-190 | Every chain of lookups that extends a visit is visited under it. |
| Compiler.VisitsAreStacks | src/chainbreak/scenarios/compiler.py:172-190 | Nothing else is: every visit is a chain of lookups extending the one it was called from. |
| Compiler.BuildNodesAndEdges | src/chainbreak/scenarios/compiler.py:116-199 | On every specification on which the code returns or raises: compilation succeeds if and only if no identity is targeted twice, the lookups reach every identity, and on no chain of lookups does a declared authority differ from the derived one; then there is one node per identity, and every edge is that of a declared delegation, with its id, ends, lifetime and own intent, granting at its target what the root holds and every intent along some chain of lookups passes on; a disagreement raised is that of a visit before which, in the order of the walk, none is refused; each other error names its first instance, or exactly the identities not reached. |
| Recursion.NeverReturnsIff | src/chainbreak/scenarios/compiler.py:144-190 | The exact condition, for every specification the schema accepts: the recursion never ends if and only if some chain of lookups comes back to an identity with the authority derived there before, and no visit up to it, in the order of the walk, is refused. Whether it ends shows at a nesting of as many calls as there are identities, times one more than the root has capabilities. (It is begun only if no identity is targeted twice.) |
| Recursion.NeverReturnsIffTwoLaps | src/chainbreak/scenarios/compiler.py:127-190 | With unique delegation ids and targets two laps decide: the recursion never ends if and only if a chain of declared delegations leads from the root back into it and the walk comes through it twice without a refusal. |
| Recursion.UnrefusedReturnIff | src/chainbreak/scenarios/compiler.py:144-190 | Where no declared authority disagrees, the recursion returns if and only if no chain of lookups comes back to an identity it is still visiting. |
| Scenarios.LooplessIffRootNotReentered | src/chainbreak/scenarios/schema.py:285-339 | With unique ids and targets lookups loop if and only if some chain of declared delegations leads back into the root. The schema checks neither that nor the uniqueness of ids. |
| Recursion.LoopNeverReturns | src/chainbreak/scenarios/compiler.py:144-190 | An instance with unique ids and targets: root and child delegate to each other, nothing is declared, and the recursion never ends. |
| Recursion.LoopIsRefused | src/chainbreak/scenarios/compiler.py:147-158 | The same loop where the child declares an authority that is not the derived one: the recursion ends, and the disagreement is raised. |
| Walks.WalkFromMeans | src/chainbreak/scenarios/compiler.py:144-190 | How a visit ends, at any bound on nesting: it returns only if no visit under it is refused and none is deeper than the bound; else it stops at a visit such that every one before it, in the order of the walk, is met. |
| Walks.RefusalIs | src/chainbreak/scenarios/compiler.py:147-158 | A visit is refused if and only if its identity declares an authority other than what the root holds and every intent along the chain passes on, capability by capability; the error names the identity and both. |
| Recursion.RepeatedIdsNeverReturn | src/chainbreak/scenarios/compiler.py:127-173 | Counterexample: with two delegations of one id the walk never returns although no chain of declared delegations re-enters the root. |
| Scenarios.ReenteredYetLoopless | src/chainbreak/scenarios/compiler.py:127-173 | Counterexample the other way: the declared delegations re-enter the root and no lookup loops, the delegation into the root being hidden behind a later one of its id. |
| CompiledTrees.CompiledIsValid | src/chainbreak/core/models.py:535-577 | Whatever compiles passes every check of the graph constructor, repeated ids or not: one root, known endpoints, no edge into the root, no cycle. |
| CompiledTrees.CompiledIsTree | src/chainbreak/scenarios/compiler.py:144-199 | With unique delegation ids whatever compiles is a delegation tree: one root, unique targets, every edge's source the root or an earlier target, each child's record following from its parent's, and no two edges of one id. |
| CompiledTrees.TreeIffUniqueIds | src/chainbreak/scenarios/compiler.py:144-199 | The exact condition: a compiled graph is a delegation tree, has no parallel edges, and has distinct edge ids, each if and only if delegation ids are unique. |
| CompiledTrees.HiddenIntoRoot | src/chainbreak/scenarios/compiler.py:127-173 | A specification with repeated ids compiles only if every delegation hidden behind a later one leads into the root. |
| CompiledTrees.RepeatedIdsCompile | src/chainbreak/scenarios/compiler.py:127-199 | Such specifications exist: an instance on which the walk ends, reaches everything and disagrees with nothing, so that it compiles to a graph with parallel edges. |
| CompiledTrees.CompileGraph | src/chainbreak/scenarios/compiler.py:55-70 | Walk and graph builder composed, on every specification on which the code returns or raises: the constructor's own checks never fail on what the walk produces; the result is valid, within the depth bound, and every edge of it that of a declared delegation with its own intent; G-3 refuses (or, downgraded, warns) if and only if some delegation on a chain of lookups intends more than its source is to hold; the result is a tree if and only if ids are unique, and then, unless G-3 was downgraded, every edge's effective authority is its intended one. |
| CompiledTrees.OverreachingIff | src/chainbreak/graph/builder.py:54-76 | With unique ids, what G-3 looks for is a chain of lookups whose last delegation intends some capability that the root lacks or an intent before it does not pass on: stated on the declared delegations alone. |
| OnePass.MaterializesIff | src/chainbreak/execution/delegation.py:65-112 | With repeated ids or without: given a provider that refuses nothing, one pass over the compiled edges materializes the graph if and only if every delegation the walk looks up leaves an identity the walk has come to before. |
| OnePass.AheadMissesSource | src/chainbreak/scenarios/compiler.py:127-199 | An instance that compiles and does not: a hidden delegation makes the walk look up one that leaves an identity still to come. |
| Builder.CheckMonotoneIntent | src/chainbreak/graph/builder.py:54-76 | G-3 refuses if and only if some edge intends more than its source is expected to hold and the check is not downgraded, naming the first such edge and the excess; downgraded, it warns of exactly these edges, each with its excess, in order. |
| Builder.CheckClosure | src/chainbreak/graph/builder.py:79-99 | G-4 reports exactly the capabilities that some node expects or was observed to hold, or some edge requests, intends or passes on, and the catalog lacks. |
| Builder.BuildGraph | src/chainbreak/graph/builder.py:31-51 | A graph is built if and only if the constructor, G-3 (unless downgraded), G-4 and G-5 all hold; an error is that of the first check to fail: the constructor's own, the first edge that exceeds its source, the unresolved set, or the depth. |
| Builder.MonotoneIntentMeansEffective | src/chainbreak/graph/builder.py:54-76 | On a tree, G-3 holds if and only if every edge's effective authority equals its intent. |
| Plans.BuildPlan | src/chainbreak/scenarios/plan.py:20-50 | The plan built by the loop is the declared phases with a numbered snapshot before and after every mutation. |
| Plans.PlanIsThePhases | src/chainbreak/scenarios/plan.py:20-50 | Round trip: dropping the auto-inserted steps gives back the declared phases in document order. |
| Plans.MutationsBracketed | src/chainbreak/scenarios/plan.py:24-48 | Every mutation step has its own pre- and post-snapshot as its immediate neighbours. |
| Plans.StepsNumbered | src/chainbreak/scenarios/plan.py:20-50 | Positions are consecutive from zero, and nothing but snapshots is inserted. |
| Plans.PreSnapshotFindsIff | src/chainbreak/execution/orchestrator.py:307-313 | Stripping the suffixes off a pre-snapshot's name recovers its mutation phase if and only if that phase's own name does not end in the post-snapshot suffix. |
| Plans.PreSnapshotCanMiss | src/chainbreak/execution/orchestrator.py:307-313 | Counterexample: a mutation phase named like a post-snapshot has its first snapshot attributed to another phase. |
| Authority.AggregateObservations | src/chainbreak/analysis/authority.py:52-73 | The grouping loop yields, for every (identity, capability, phase), the cell of exactly the observations with that key, sorted by trial. |
| Authority.AggregationConserves | src/chainbreak/analysis/authority.py:52-73 | A cell's trials are, as a multiset, the outcomes of the observations with its key: none is lost or duplicated. |
| Authority.ResolutionIs | src/chainbreak/core/models.py:717-731 | A cell resolves to ALLOWED or a denial only on unanimous trials of that kind; every other cell carries an exclusion reason. |
| Authority.BuildObservedAuthority | src/chainbreak/analysis/authority.py:76-113 | The loop computes the observed set, exclusions and counts of the probe universe, independently of the order in which it is visited. |
| Authority.ObservedPartitions | src/chainbreak/analysis/authority.py:76-113 | The universe splits disjointly into allowed, denied and excluded, and attempted minus classified is the number of exclusions. |
| Authority.PopulateObservedAuthority | src/chainbreak/analysis/authority.py:116-153 | Every node with observations at the phase is given what they say, read on the raw trials: it holds exactly what was allowed in every trial, excludes, with a reason, exactly what came out neither allowed nor denied throughout, and counts what was attempted and classified; every other node is returned unchanged. |
| Authority.PopulateIdempotent | src/chainbreak/analysis/authority.py:116-153 | Populating twice from the same observations changes nothing more. |
| Authority.ObservedForgetsOrder | src/chainbreak/analysis/authority.py:52-153 | Permuting the observations changes neither what a populated node is held to hold, nor its counts, nor which capabilities are excluded. |
| Authority.ReasonForgetsOrderIff | src/chainbreak/analysis/authority.py:42-49 | The reason a cell is excluded for is the same under every permutation if and only if the cell is not all errors, or all its observations of the least trial number map to one reason. |
| Authority.ReasonDependsOnOrder | src/chainbreak/analysis/authority.py:42-49 | An instance where it is not: a transient and an infrastructure error under one trial number. |
| Authority.NodeForgetsOrderIff | src/chainbreak/analysis/authority.py:116-153 | With distinct trial numbers in each of a node's cells, permuting the observations keeps all its cells; the populated node is the same if and only if the matrix it names, that of the first observation, is. |
| Authority.PopulatedForgetsOrder | src/chainbreak/analysis/authority.py:116-153 | Where each identity was probed by one matrix of its own at the phase, with distinct trial numbers, the populated graph forgets the order altogether. |
| Divergence.VerdictReads | src/chainbreak/graph/divergence.py:24-55 | A hop has a verdict if and only if both its ends were measured (an error names the first that was not), and it says, capability by capability, whether and where what the target holds differs from what the hop intends of what its source holds, and of what its source was expected to. |
| Divergence.CorrectIff | src/chainbreak/graph/divergence.py:24-55 | A hop is attenuation-correct if and only if nothing survived, nothing was dropped, and whatever it intended and the target holds was held by the source; likewise against what the source was expected to hold. |
| Divergence.SurvivedAndDroppedAreNotEnough | src/chainbreak/graph/divergence.py:24-55 | Counterexample: both difference sets can be empty on a hop that is not attenuation-correct. |
| Divergence.DriftMeans | src/chainbreak/graph/divergence.py:96-120 | Each drift class holds if and only if the stated relation between the node's and its parent's gains does. |
| Divergence.FirstDivergence | src/chainbreak/graph/divergence.py:58-93 | Returns the earliest unmeasured or diverging node of the path, or none if and only if every node is measured and agrees. |
| Divergence.PointMeans | src/chainbreak/graph/divergence.py:58-93 | What a divergence point says: gain and loss are the capabilities held and not expected, and expected and not held; expansion and narrowing are strict inclusions, mixed is neither, and unmeasured is the kind of exactly the nodes without a measurement. |
| Divergence.AnalyzePath | src/chainbreak/graph/paths.py:16-43 | The two flags hold if and only if consecutive measured sets only shrink, as sets and in size; terminal gain is the last node's. |
| Divergence.NeverGrowsAnywhere | src/chainbreak/graph/paths.py:29-35 | Set monotonicity between neighbours implies containment between all measured pairs, and the size flag. |
| Divergence.AttenuationDetermines | src/chainbreak/graph/divergence.py:24-55 | If every hop of a walk is attenuation-correct, each observed set is the root's intersected with all intents so far; a root without a gain then has no gain anywhere below it. |
| Divergence.NoDivergenceIsMonotone | src/chainbreak/graph/divergence.py:58-93 | On a compiled graph a path without a first divergence is monotone in both senses and ends without a gain. |
| Rules.AllowedCellsGateOnCoverage | src/chainbreak/analysis/confidence.py:33-47 | Over cells that are all unanimously ALLOWED, confidence is a function of coverage alone. |
| Rules.RulesFire | src/chainbreak/analysis/rules.py:167-301 | Before gating: agreement is reported if and only if observed equals expected, a narrowing if and only if something expected is missing, an expansion or drift if and only if something unexpected is held, and both only at a non-root origin. |
| Rules.GainConfidence | src/chainbreak/analysis/rules.py:190-301 | The cells behind a gain are all unanimously ALLOWED, so an expansion's or drift's confidence depends on coverage alone. |
| Rules.IdsCollideIff | src/chainbreak/analysis/rules.py:133-142 | Ids are not distinct: with a digest that tells the two apart, the expansion and the drift of one originating non-root node carry the same id if and only if its coverage is below 0.7, both being inconclusive then. |
| Rules.IdsCollideReached | src/chainbreak/analysis/rules.py:133-142 | Such a node exists: below a measured parent without a gain, with one ALLOWED cell and one error. |
| Rules.PhasesCollideIff | src/chainbreak/analysis/rules.py:65-98 | Nor are ids distinct across phases, which they omit: two narrowings of one identity at two phases, with observations numbered apart, carry the same id if and only if no lost capability was probed at either; both are then inconclusive. |
| Claims.GateReads | src/chainbreak/analysis/confidence.py:27-47 | The gate, read on the raw trials and in integers: no trial of the claim's capabilities is insufficient; full coverage with every one tried unanimous and free of errors is high; nine tenths with each allowed, denied or failing throughout is medium; seven tenths is low. |
| Claims.NodeReports | src/chainbreak/analysis/pipeline.py:111-143 | What a measured node contributes, by its observed and expected sets and its parent's gain alone: an expansion exactly at an originating gain, a drift exactly at a gain below the root, a narrowing exactly at a loss, agreement exactly at neither; each with its gain or loss, its confidence on the trials behind it, and its id over exactly their numbers. |
| Claims.EdgeReports | src/chainbreak/analysis/rules.py:304-343 | An edge contributes a survival finding if and only if both ends were measured and its target holds something the edge does not intend; that difference is the finding's gain, and its id names the edge, the target and exactly the trials behind it. |
| Claims.SurvivalIsCertain | src/chainbreak/analysis/rules.py:311-316 | If the target was measured at this very phase a survival always has high confidence, so it is never turned into an inconclusive finding. |
| Pipeline.OriginIsNearest | src/chainbreak/analysis/pipeline.py:99-134 | On the walk to a node with a gain there is a last originating ancestor-or-self; its expansion is the node's origin, and every node strictly below it down to the node is propagated or amplified, so a corrected hop cuts the chain. |
| Pipeline.OriginIff | src/chainbreak/analysis/pipeline.py:111-134 | A node has an origin if and only if it has a gain. |
| Pipeline.AnalyzeNode | src/chainbreak/analysis/pipeline.py:111-143 | One turn of the loop appends exactly the node's findings, citing the origin above it, and leaves its own origin entry if it has a gain. |
| Pipeline.AuthorityFindings | src/chainbreak/analysis/pipeline.py:88-154 | The phase's findings are every node's, parents before children, then every edge's. Of each measured node and each edge they are exactly those its sets call for, stated on the populated graph and the raw trials: of an edge one if both ends were measured and the target holds more than the edge intends, else none; nothing is reported of anything else. The origin table ends with an entry for exactly the nodes with a gain, equal to their origin. |
| Pipeline.FindsOwn | src/chainbreak/analysis/pipeline.py:145-152 | With distinct edge ids, looking an edge's divergence up by id finds that edge's own, or none if an endpoint was not measured. |
| Pipeline.PopulatedIsTree | src/chainbreak/analysis/pipeline.py:88-98 | Populating observed authority keeps the delegation tree. |
| Phases.AnalyzePhases | src/chainbreak/analysis/pipeline.py:285-306 | Each observed authority phase contributes its own findings, which report of each node and edge of the graph populated at that phase exactly what its sets call for; path analyses and the final graph are those of the graph accumulated phase by phase. |
| Phases.PhasesPresentAre | src/chainbreak/analysis/pipeline.py:295-301 | The phases analyzed are exactly those of five kinds with an observation, each once, in the alphabetical order of their names. |
| Phases.AnalyzeAllPaths | src/chainbreak/graph/paths.py:46-48 | Every enumerated path is analyzed, in order. |
| Phases.LastMeasurementWins | src/chainbreak/analysis/pipeline.py:285-306 | In the accumulated graph every node carries the measurement of the last phase by name that has one for it, and of no other. |
| Phases.SurvivesIffLastByName | src/chainbreak/analysis/pipeline.py:281-306 | Phases are taken by name, not by time: a phase's measurement of a node survives accumulation if and only if no phase later by name measured the node. |
| Phases.FinalGivesWay | src/chainbreak/analysis/pipeline.py:281-306 | So a capability held after delegation and found refused at the very end is reported as held: a log where the final measurement comes last and is lost. |
| Timing.CountTransitions | src/chainbreak/analysis/timing.py:101-113 | The loop counts exactly the changes of the allow/deny projection. |
| Timing.ComputeRevocationWindow | src/chainbreak/analysis/timing.py:31-126 | The loops compute a measurement that reports exactly what the samples show, in seconds from the sending of the mutation at a thousand million nanoseconds each: the length to the latest sample, whether there was a transition, the bracket around it, and whether an ALLOWED came back after a denial; a malformed one is refused. |
| Timing.MeasuredIff | src/chainbreak/analysis/timing.py:31-126 | A measurement is well formed if and only if the poll interval is positive and, when there are samples at all, some sample is no earlier than the mutation. |
| Timing.MeasurementReports | src/chainbreak/analysis/timing.py:31-126 | Every well-formed measurement says of its samples: how many there are; how long after the sending the latest was taken; that a transition was observed if and only if there is an ALLOWED and a denial later than every ALLOWED; a window from the last ALLOWED to the first denial after it, multiplied out to nanoseconds; and the note that fits. |
| Timing.TransitionReportedIff | src/chainbreak/analysis/timing.py:76-126 | A transition is reported if and only if an ALLOWED exists and some denial is later than every ALLOWED; its window, in seconds at a thousand million nanoseconds each, runs from the last ALLOWED to the first denial after it, with the point halfway. |
| Timing.WindowBrackets | src/chainbreak/analysis/timing.py:84-117 | Multiplied out to nanoseconds since the mutation was sent, the reported window opens at an ALLOWED sample and closes at a later denial; no ALLOWED lies after its low end, and neither an ALLOWED nor a denial strictly inside it. |
| Timing.NonMonotonicIff | src/chainbreak/analysis/timing.py:101-117 | Given a transition, the flip-flop flag is set if and only if, in the order of time, some ALLOWED comes after a denial. |
| Timing.PermutationInvariant | src/chainbreak/analysis/timing.py:31-126 | With distinct timestamps the result is invariant under permuting the samples. |
| Polling.RunPollPhase | src/chainbreak/execution/polling.py:58-157 | Barring a raise the loop ends: on stability at the first poll where the last stability_count outcomes match, otherwise after exactly ceil(max_ms/interval_ms) polls with no such window anywhere; numbers are contiguous from the start value; a raise is the first failing round's own error. |
| Polling.LimitIsCeiling | src/chainbreak/execution/polling.py:82-157 | Time has run out after n polls if and only if n reaches ceil(max_ms/interval_ms). |
| Revocation.GroupPolls | src/chainbreak/analysis/pipeline.py:168-177 | Every polled cell is grouped with exactly its own samples, in order of first appearance. |
| Revocation.RevocationMeasurements | src/chainbreak/analysis/pipeline.py:157-212 | What is returned reports, for every polled cell in order of first appearance, exactly what its own samples show against the first mutation of the run, in seconds since that was sent; without a mutation there is nothing. |
| Revocation.MeasureAllIs | src/chainbreak/analysis/pipeline.py:199-212 | All polled cells are measured against the first mutation, each once and in order of first appearance, if and only if each measurement is well formed. |
| Revocation.MeasurementsFailIff | src/chainbreak/analysis/pipeline.py:199-212 | The analysis of a mutated run fails if and only if some polled cell has no sample from when the mutation was sent or later. |
| Revocation.WarmThenDeniedIsMeasured | src/chainbreak/analysis/pipeline.py:157-212 | A warm poll ending stable-allow, a mutation, then a poll ending in a stable denial always give a valid observed transition, opening no earlier than the last warm sample, closing after the mutation and no later than the first sample of the final stable run, with a non-negative high end. |
| Tasks.Invoker.Invoke | src/chainbreak/execution/task_runner.py:125-178 | identity.delegate is counted and refused without reaching the provider; anything else is probed once, numbered, and logged with its outcome. |
| Tasks.RunSequential | src/chainbreak/execution/workers/deterministic.py:49-100 | The loop does what working through the declared steps in order does, with retry and abort. |
| Tasks.RunSubstituting | src/chainbreak/execution/workers/deterministic.py:155-192 | The loop replaces the last step's invocation by identity.whoami and reports the declared steps. |
| Tasks.RunRedelegating | src/chainbreak/execution/workers/deterministic.py:205-259 | The loop asks for a delegation first, then works through the steps. |
| Tasks.CollapseConsecutiveRepeats | src/chainbreak/execution/task_runner.py:69-82 | Editing the list in place keeps one entry per run of equal capabilities, with the latest outcome. |
| TaskReports.CollapsedRuns | src/chainbreak/execution/task_runner.py:69-82 | The collapsed log has one entry for each longest run of one capability, with the outcome of its last invocation. |
| TaskContract.SubstitutionsEmptyIff | src/chainbreak/execution/task_runner.py:85-94 | Nothing counts as substituted if and only if the collapsed log agrees with the declared steps at every position both have. |
| Tasks.RunTask | src/chainbreak/execution/task_runner.py:97-230 | The runner's result is the worker's draft with refusals, substitutions and marker verification overwritten by what the invoker and the store recorded. |
| TaskReports.TaskReads | src/chainbreak/execution/task_runner.py:97-230 | What a task leaves, for each worker and whatever the provider answers: one event per refused delegation, one observation with the provider's own answer per other try, one number each; turns of one try, or two where a retried step was first not allowed, up to a step that aborts; then one outcome that tells those turns as that worker tells them, counts the refusals, names exactly the capabilities seen where another was declared, and is confirmed exactly by a live read or a stored marker. |
| TaskContract.TaskContractFindings | src/chainbreak/analysis/task_contract.py:39-65 | The loop reports, for every recorded outcome with a plan, exactly the findings its contract calls for. |
| TaskReports.ContractReads | src/chainbreak/analysis/task_contract.py:39-65 | Outcome by outcome, held to the last plan of its task or to both contracts if there is none: narrowing is reported if and only if completion or output is claimed that was not reached, substitution and redelegation if and only if seen and forbidden, each once, and nothing else is. |
| TaskContract.HonestOutcome | src/chainbreak/execution/workers/deterministic.py:49-100 | Whatever the provider answers, the sequential worker's COMPLETE implies every step succeeded, its marker claim implies the recorded marker, and without a delegate step it has no refusals. |
| TaskContract.NeverNarrowsIff | src/chainbreak/execution/side_effects.py:39-62 | No provider makes the honest worker look as if it had narrowed its task if and only if its marker is confirmed by a live read, or kept in the scratch store that is looked into, or already there, or can never be claimed (the last step is `identity.delegate`, or an aborting one comes before it). |
| TaskContract.NeverSubstitutesIff | src/chainbreak/execution/task_runner.py:69-94 | The honest worker is never seen substituting, for any provider, if and only if the collapsed full log of its declared steps is a prefix of them. |
| TaskContract.PlainStepsLineUp | src/chainbreak/execution/task_runner.py:69-94 | Adjacent declared capabilities distinct and no delegate step suffice for that. |
| TaskContract.RepeatedStepAccused | src/chainbreak/execution/task_runner.py:69-94 | Counterexample: a step declared twice in a row gets the honest worker accused of substituting. |
| TaskContract.HonestNeverFlagged | src/chainbreak/analysis/task_contract.py:39-65 | Under those conditions no task finding is ever raised against the honest worker. |
| TaskContract.NeverFlaggedIff | src/chainbreak/analysis/rules.py:501-586 | The exact condition under which no provider gets the honest worker any finding, over every mix of continue, abort and retry: the logs line up, no `identity.delegate` can be attempted, and the marker is kept or never claimed; each as far as the plan forbids it. |
| TaskContract.AlwaysCompleteCaughtIff | src/chainbreak/execution/workers/deterministic.py:112-142 | The worker that claims completion without acting is flagged if and only if its marker cannot be confirmed; on a scratch store, unless it was already there. |
| TaskContract.SubstitutingCaught | src/chainbreak/execution/workers/deterministic.py:155-192 | With plain steps the substituting worker's recorded substitutions are exactly identity.whoami, so the default contract flags it, and the missing marker is flagged unless already stored. |
| TaskContract.SubstitutionShowsIff | src/chainbreak/execution/workers/deterministic.py:155-192 | In general the substituting worker is seen substituting if and only if what it invokes, collapsed, is not a prefix of what it declared. |
| TaskContract.RedelegatingCaught | src/chainbreak/execution/workers/deterministic.py:205-259 | The redelegating worker always has a positive count of refused attempts and is flagged when the contract forbids it. |
| TaskContract.WorkerOrderly | src/chainbreak/execution/task_runner.py:125-141 | For every worker, no probe for identity.delegate reaches the provider, and numbering stays in order. |
| TaskContract.TaskNumbered | src/chainbreak/execution/task_runner.py:183-230 | A task's observations and events are numbered within its stretch of the run, and its events are refusals and its one outcome. |
| Ulid.EncodeBase32 | src/chainbreak/core/ids.py:44-49 | The shifting loop yields the fixed-length base32 encoding, most significant digit first. |
| Ulid.DecodesEncoding | src/chainbreak/core/ids.py:44-49 | Round trip: reading the characters back as base-32 digits gives the value encoded, modulo what the field holds. |
| Ulid.EncodingPreservesOrder | src/chainbreak/core/ids.py:44-49 | On values that fit, the encoding is strictly order-preserving, hence injective. |
| Ulid.EncodingWraps | src/chainbreak/core/ids.py:44-49 | A value one past the field's capacity encodes like zero: there is no overflow check. |
| Ulid.Generator.NewUlid | src/chainbreak/core/ids.py:58-89 | On a later clock the first ten characters read back as the clock and the last sixteen as half the draw; on an equal or earlier one, randomness not at its maximum, they read back as the timestamp before and the randomness before plus one. |
| Ulid.StepIncreasesIff | src/chainbreak/core/ids.py:58-89 | The next identifier sorts after the last one if and only if the step is not an exhausted one: randomness at its maximum and the clock behind, or at the last representable instant. |
| Ulid.RunStrictlyIncreases | src/chainbreak/core/ids.py:58-89 | Over fewer than 2^79 calls, for every clock sequence, backward steps included, every identifier sorts after every earlier one. |
| Ulid.RunCarriesClock | src/chainbreak/core/ids.py:58-89 | Over fewer than 2^79 calls each identifier carries the greatest clock read so far, and the draw made when that was first read, halved, plus one for each call since. |
| Ulid.RenderIsUlid | src/chainbreak/core/ids.py:58-89 | Every identifier is 26 characters of the alphabet. |
| Sorting.SortStable | src/chainbreak/analysis/timing.py:50 | Sorting by time keeps samples with equal timestamps in their original order. |
| Delegation.MaterializeGraph | src/chainbreak/execution/delegation.py:65-112 | The root is registered, then one delegation is asked for per edge, along that edge and in edge order; the handles are those the provider minted, and the pass stops at the first missing source or refusal. |
| Delegation.CredentialsAre | src/chainbreak/execution/orchestrator.py:208-214 | The opening writes the credential of every delegated identity, each once, in the order the identities are first delegated to. |
| Delegation.MaterializeChain | src/chainbreak/execution/chain.py:26-48 | A graph deeper than the bound is refused before any call is made. |
| Delegation.OnePassIff | src/chainbreak/execution/delegation.py:84-112 | With a provider that refuses nothing, the single forward pass succeeds if and only if every edge's source is the root or an earlier edge's target. |
| Delegation.TreeMaterializes | src/chainbreak/execution/delegation.py:65-112 | On a compiled tree no source is ever missing: materialization fails only with the provider's own error, and otherwise covers every identity, the root without a credential. |
| Delegation.EdgeHandle | src/chainbreak/execution/delegation.py:84-112 | Each delegated identity holds the credential minted for its own edge. |
| Delegation.EnsureFreshCredential | src/chainbreak/execution/delegation.py:128-177 | A credential is renewed, by one delegation along the identity's own edge, and an event returned, exactly when there is an edge and a credential with less than twice the estimated duration left; otherwise nothing changes and nothing is asked. |
| Matrix.RunProbeMatrix | src/chainbreak/execution/matrix.py:76-192 | The matrix raises at exactly the first probe that stops it (a provider error, or a control capability not allowed); otherwise every request of every row is recorded in order under contiguous numbers, with one order event per row. |
| Matrix.Calibrate | src/chainbreak/execution/control.py:34-98 | Every control capability is probed once, in order, and the first that is not ALLOWED raises. |
| Matrix.MatrixNumbered | src/chainbreak/execution/matrix.py:104-192 | Observation numbers are contiguous from the start value and order events stay within the stretch without advancing it. |
| Matrix.EveryTrialAsked | src/chainbreak/execution/matrix.py:139-190 | Whatever the shuffle draws, each trial 1..T of each non-control capability of each materialized identity is asked exactly as often as the matrix lists the pair. |
| ProbeReports.MatrixReads | src/chainbreak/execution/matrix.py:104-192 | What a matrix that is not discarded leaves, under any draws: row by row over its materialized identities, the controls, an event that announces an order of the other capabilities, each as often as listed, and then all trials of each in that very order; every observation the provider's own answer under the next number. |
| ProbeReports.MatrixRaises | src/chainbreak/execution/matrix.py:76-192 | A matrix whose preconditions hold raises if and only if some probe of it raises or some control is not allowed, and then what the first of these calls for. |
| Deferred.RunDeferredExecutionPhase | src/chainbreak/execution/deferred.py:102-272 | The pinned leg is probed before the fresh credential is asked for, along the target's own edge, and the fresh leg after it; a refused delegation ends the phase with the pinned leg and its own event; any other failure raises; credentials change only by that minting. |
| Deferred.DeferredNumbered | src/chainbreak/execution/deferred.py:142-272 | Either way the phase numbers its observations and its one event within its stretch, without reusing a number for two observations. |
| ProbeReports.DeferralIs | src/chainbreak/execution/deferred.py:142-272 | What a deferral leaves: the target's capabilities in order, under consecutive numbers and with the provider's answers; one event that names the pinned credential, and the fresh one if one was minted; and, only then, the same capabilities again under the next numbers. |
| ProbeReports.DeferralRaises | src/chainbreak/execution/deferred.py:142-272 | Why a deferral raises: the first probe of a leg that raises, a source not materialized, or a failed minting that is no refusal. |
| ProbeReports.PinnedBy | src/chainbreak/execution/credential_store.py:24-61 | A deferral that names a phase is pinned to a credential if and only if that is what was recorded for its target when the phase ran. |
| ProbeReports.DeferralMints | src/chainbreak/execution/deferred.py:216-220 | After a deferral the target holds what was minted, if anything was, even where the deferral then raises; credentials change only if the whole first leg was probed and something was minted. |
| Reverts.ApplyMutation | src/chainbreak/execution/mutation.py:53-103 | An unmaterialized target is refused without a call; an unconfirmed mutation that asked for a receipt raises although it was sent; otherwise the event carries the receipt. |
| Reverts.RevertMutation | src/chainbreak/execution/revert.py:121-153 | Nothing is called for a plan that is not actionable or whose trust-policy hook is missing; otherwise exactly one restoring call is made and reported. |
| Orchestrator.Run.DoMutate | src/chainbreak/execution/orchestrator.py:326-348 | The revert log is written before the one call that sends the planned mutation, with its own denies and grants, whose answer the applied event records; only a mutation that returned is queued and recorded; one that raises leaves its log entry alone; nothing is sent without a log entry. |
| Orchestrator.Run.DoProbe | src/chainbreak/execution/orchestrator.py:228-305 | Exactly the stale credentials are renewed first and the current ones recorded; the matrix is discarded, with one event and no observation, exactly when its preconditions or a control fail; any other failure of the matrix, and no such one, cuts the step after its renewals. |
| Orchestrator.Run.RenewIdentity | src/chainbreak/execution/delegation.py:128-177 | One identity's turn: its credential is replaced, by one delegation along its own edge, if and only if it is stale, and the renewal is written only after the provider has returned; no other identity's credential changes. |
| Orchestrator.Run.RenewCredentials | src/chainbreak/execution/orchestrator.py:239-262 | Exactly the stale credentials are renewed, in the matrix's order, each asked for along its own edge, stopping at the first failure; the renewals written are numbered consecutively; the credential recorded under the phase for every materialized identity is the one then current. |
| Orchestrator.Run.Open | src/chainbreak/execution/orchestrator.py:186-216 | Nothing is written before the safety gate and the preflight have passed; the opening is scenario, environment and graph, then each minted credential once, in edge order; a failure is the provider's, or names a graph that is too deep or an edge whose source no earlier edge reaches. |
| Delegation.RenewalStops | src/chainbreak/execution/orchestrator.py:239-262 | Once a renewal has failed, no later identity changes anything: no call, no credential, no event. |
| Renewals.RenewalIs | src/chainbreak/execution/orchestrator.py:237-262 | Renewing before a matrix, for every provider and whatever identities it lists: unless something stops it, a turn renews if and only if its identity is materialized, was delegated, and holds a credential with less than a tenth of a second left per probe; each renewal asks along the last edge into the identity; afterwards each identity holds what its last renewal minted, or what it held before. |
| Renewals.RenewalFails | src/chainbreak/execution/delegation.py:143-177 | If something stops it, all turns before were completed so, and the failing one was due and found its edge's source missing, or met the provider's own error. |
| Orchestrator.Run.DoSnapshot | src/chainbreak/execution/orchestrator.py:307-324 | A snapshot step records the policy of its mutation's target, and nothing if it finds none. |
| Orchestrator.Run.DoPoll | src/chainbreak/execution/orchestrator.py:350-383 | A poll's observations are written, then its stop event under the next number. |
| Orchestrator.Run.DoDefer | src/chainbreak/execution/orchestrator.py:398-436 | The deferral is pinned to what the store recorded for its source phase and uses the target's own edge; its observations and events are written, then the credential current for the target after it, which is the one minted if one was. |
| Orchestrator.Run.DoTask | src/chainbreak/execution/orchestrator.py:438-460 | A task's observations and events are written as the runner returned them. |
| Orchestrator.Run.RunPlan | src/chainbreak/execution/orchestrator.py:225-471 | The plan is walked in order with a deadline check before every step, until one of them raises. |
| Orchestrator.Run.RevertAll | src/chainbreak/execution/orchestrator.py:472-481 | Queued mutations are restored last first, by one call each, until one raises; each revert recorded is a call that returned, with the answer it returned. |
| Orchestrator.Run.Orchestrate | src/chainbreak/execution/orchestrator.py:149-487 | Whatever the provider answers, the sink ends as the log of a valid trace, each record written at that trace's count of calls, and the policy changes asked of the provider are that trace's and no others; anything in the sink was written after the preflight passed; the final record is written if and only if nothing raised; and a run that ends early does so only for an error of the provider's or something the scenario itself lacks. |
| Runs.StepSound | src/chainbreak/execution/orchestrator.py:225-471 | Every completed step numbers its records within its stretch; only a mutation step mentions mutations, and then as an announced pair. |
| Traces.RunNumbered | src/chainbreak/execution/orchestrator.py:179-481 | Over the whole log of every run, across all phase kinds and wherever it ends, observation numbers strictly increase and event numbers never decrease. |
| Traces.LoggedBeforeSent | src/chainbreak/execution/orchestrator.py:326-348 | Write-ahead against the calls made: in every run, the mutations asked of the provider, those that raised included, are the revert-log entries one for one and in order, and each entry was written when exactly the calls before that request had been made; one entry more stands only for a last mutation whose target was never materialized, and that was never sent. |
| Traces.RunWritesAhead | src/chainbreak/execution/orchestrator.py:326-348 | In the log itself, in every run, each applied mutation directly follows its own revert-log entry; a log entry without its mutation is the last record before the reverts of a run cut short; reverts come after all mutations; the final record is last and only on clean completion. |
| Traces.AtMostOneLoose | src/chainbreak/execution/orchestrator.py:326-348 | At most one log entry lacks its mutation, and then the run was not finalized. |
| Traces.RunReverts | src/chainbreak/execution/orchestrator.py:472-486 | In every run's log, however it ended, the recorded reverts are exactly the plans due for the mutations recorded as applied, in reverse order, each a restoring call that returned with the recorded answer; they stop early only at a revert call that itself raised. |
| Undone.LogDeclares | src/chainbreak/execution/revert.py:60-105 | In every run, each entry of the revert log is for a mutation the scenario plans and declares exactly what the compiled graph expects its target to hold; it is actionable for every kind but the removal of a session policy's scope. |
| Undone.RunRestores | src/chainbreak/execution/orchestrator.py:472-481 | Every run, and every policy change it asks of the provider: first the mutations its scenario plans; then, one for each mutation that returned and is of a kind to be undone, the last first, a call about the same target that restores exactly what the graph expects it to hold, through the hook for its kind or else by a fresh mutation granting it; none is missing unless one raises. Which kinds are undone is decided by the kind and the trust hook alone. |
| Undone.RestoresIntent | src/chainbreak/execution/revert.py:60-145 | On a compiled graph what such a call restores is what the specification intends: the root's capabilities that every intent on the last chain of lookups to the target passes on. |
| Undone.ReceiptKept | src/chainbreak/execution/mutation.py:53-103 | In every run what a completed mutation recorded is the provider's own receipt for that call, and if the scenario asks for a receipt it was confirmed. |
| Undone.MutationRaises | src/chainbreak/execution/orchestrator.py:334-348 | Why a run stops at a mutation it has announced: the target was never materialized, the provider raised, or it confirmed nothing though a receipt was asked for. |
| Undone.RevertsAnswered | src/chainbreak/execution/orchestrator.py:472-481 | Every revert recorded carries the provider's answer to its own call, a hook's or a fresh mutation's; of the restoring calls made only the last can have raised. |
| Traces.RevertsDueReverse | src/chainbreak/execution/orchestrator.py:477-481 | What is due for later mutations comes before what is due for earlier ones. |
| Traces.RevertsDueAreActionable | src/chainbreak/execution/revert.py:121-153 | With a trust-policy hook the plans due are exactly the actionable ones. |
| Traces.PinnedAsOfSource | src/chainbreak/execution/credential_store.py:24-61 | In every run, the credential a deferred execution is pinned to is the one that was current for its target when its source phase last ran a matrix over it, whatever was minted since. |
| EndToEnd.DiscardedForCause | src/chainbreak/execution/orchestrator.py:277-300 | In every run, a matrix is discarded only for preconditions that failed or a control that did, and then the log has its one event and no observation under any number the step used up. |
| EndToEnd.FinalCounts | src/chainbreak/execution/orchestrator.py:483-487 | The final record of a clean run counts exactly the matrices its log says were discarded. |
| Orchestrator.OnlyTheProviderFails | src/chainbreak/execution/orchestrator.py:149-487 | On a compiled tree with a complete plan and a provider that neither raises nor leaves a mutation unconfirmed, a run can end early only at a deferred execution: one whose credential source names nothing to pin, or one of an identity that nothing delegates to. |
| Orchestrator.RevertsCannotFail | src/chainbreak/execution/orchestrator.py:472-481 | With such a provider every revert due is made. |
| EndToEnd.MutationsAreSnapshotted | src/chainbreak/execution/orchestrator.py:307-348 | In a run of a built plan the steps right before and after a mutation record the policy of the mutation's own target, unless the phase is named like a snapshot. |
| EndToEnd.OnlyPollsPoll | src/chainbreak/analysis/pipeline.py:168-177 | No step but a poll leaves an observation that the revocation analysis would read. |
| EndToEnd.RunIsMeasured | src/chainbreak/execution/orchestrator.py:326-383 | From the run to what its analysis returns: if a run polls a cell warm to stable-allow, mutates, and polls it again to a stable denial, other cells being polled freely and the run possibly cut short afterwards, then the analysis returns measurements if and only if every polled cell was also sampled after the mutation was sent, and among them an observed transition of this cell whose window, multiplied out to nanoseconds, opens and closes at its own samples, and whose length reaches to the latest. |

## Left out

- The AWS and fake provider bindings: the adapter is an oracle.
- Evidence files, manifests, archives, integrity hashes, the SQLite index, redaction, export and report text: I/O.
- Command line, logging, configuration, figures, scoring, cross-run comparison and the depth sweep.
- Scenario parsing and field validation: what they guarantee appears as preconditions (positive intervals and trial
  counts, non-empty step lists, a well-formed specification).
- Hashes and seeds: finding ids come from an arbitrary digest, and the shuffle's draws from the adversary.
- Binary floating point: coverage, credential lifetimes and seconds are exact reals.
- Concurrency: the runner is serial, and the lock around the identifier generator is not modelled.
- Sink failures: writing evidence always succeeds; every other call may raise.
- Actual waiting: waits and sleeps are calls that may raise, with no duration.
- Provider handles: only whether an identity has one is kept, not its value; the provider's enable-caching hook and
  capability bindings are not modelled.
- The environment description, cost estimate and allowlists of the safety gate: each is a call that may raise.
- The interpreter's recursion limit: a walk that ends is taken to return, and for one that does not, that it does not
  is all that is proved.
- Plans by phase name: the dictionaries the orchestrator builds are given as maps, so repeated phase names are not
  represented.
- Stale-authority classification (`analysis/stale.py`, `classify_stale_authority`), the delay, expiry, lifetime,
  configuration and execution-error rules, and the negative-control check: branching over a few fields.
- The compiled capability universe and the plan builders of `scenarios/compiler.py` other than the graph: filtered
  copies of the specification.
- Finding texts, evidence references other than observation numbers, and severities.
- The run deadline: each check is a call that may raise, without a clock reading behind it.
- Orchestrator.Run.Orchestrate: a run whose revert call raises ends with that call's error; the error it replaces is
  not kept.
