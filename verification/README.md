# Verification of operator-toolkit

A Dafny model of the parts of operator-toolkit in which operators are ordered, executed, finalized,
cached, certified and authorized, with proofs about all inputs, all runs and all schedules.

- **Operand orders** (`Operands`, `Graphs`, `Dag`, `DagOrder`, `DagBuild`). Operands name what they
  require. The scheduler layers the requirement graph into steps with a frontier loop that tests each
  root against the map it is writing. The model proves that the loop ends, where every operand lands, and
  exactly when a requirement shares the step of the operand that needs it.
- **Execution** (`Errors`, `Executor`, `Goroutines`, `Schedules`, `Execution`, `Agreement`,
  `Convergence`, `HookCalls`). Steps run serially or with one goroutine per operand, two buffered channels and a wait
  group. What an operand call does is any function of the operand and the world. The concurrent step is a
  state machine over goroutine moves, proved safe, free of deadlock, terminating and lossless under every
  schedule; both strategies are compared, and repeated runs are shown to settle.
- **The composite operator and its reconciler** (`Operator`, `EnsureConvergence`, `RequirementOrder`,
  `Cleanup`, `Reconciler`, `ReconcilePass`, `Finalization`). Ensure and Cleanup run the order forwards and reversed. The
  reconciler is a state machine over every stored version of the object, with edits by others, conflicting
  and failing updates and cached reads that never go back. One pass, written as the code is, is proved to
  make moves of that machine only.
- **Caches** (`Informers`, `FieldIndex`). The informer map with its double-checked locking, under any
  interleaving of Get callers and Start; field indexes against the plain filter.
- **Webhook certificates** (`Certificates`, `CaBundles`, `CommonBundles`, `CertRefresh`). Managers racing for one secret, and the CA
  bundles of webhook configurations and CRDs.
- **Rewrites** (`Rbac`, `Images`). Grouping recorded RBAC rules and adding images to a kustomization.
- **Counterexamples**: inputs that are accepted and on which the code does not do what it is for.

`Collections` and `Strings` hold shared facts about sequences, sums and joined strings. Code that updates
things in place is written as methods and classes, each proved against a function whose properties are the
theorems. The runs that lemmas take as given exist: `ExecuteOperands`, `Ensure`, `Cleanup`, `ConcurrentExec`
and `Reconcile` are proved to return one for every input, `Schedules.AnyOrder` constructs schedules and
`RequirementOrder.RunFrom` whole runs.

## What the code does differently from what it says

- An operand can share a step with something it requires, because a pass tests against the map it is
  writing; some schedule then calls it first (`OperandDagOrder.StrictIffNoneOvertaken`,
  `RequirementOrder.SomeRunViolates`, `RequirementOrder.SomeSerialRunViolates`,
  `OperandDagOrder.SameStepWitness`). Which it is can depend on how the successors are enumerated.
- A cycle that can be reached from a source keeps the loop from ending, and operands behind any other cycle
  are left out of the order without an error (`OperandDag.SolveEndsIff`, `Counterexamples.LoopNeverEnds`,
  `OperandDag.SolutionKeys`, `Counterexamples.BothDropped`).
- Reversing an order of odd length loses its middle step, so those operands are never deleted
  (`Operands.ReverseInvolution`, `Cleanups.MiddleStepLost`, `Counterexamples.MiddleStepWitness`).
- A cleanup that asks for a requeue without an error still leads to the removal of the finalizer
  (`Finalization.FinalizerRemoved`, `Counterexamples.RemovedBeforeDeleted`).
- The comment on the reconciler says that initialization and adding the finalizer return a requeue. The
  finalizer block returns an empty result (`ReconcilePass.Reconciled.Reconcile`).
- Under a root scope, which a cache over all namespaces has, Get drops the namespace of the key: it never
  finds an object that has a namespace, although List returns it (`FieldIndex.GetFinds`,
  `Counterexamples.ListedNotFound`).
- A read of the secret that fails is not reported. It is treated as a secret without data, and the secret is
  overwritten (`Certificates.FailedReadWitness`, `Certificates.CAUnchangedIff`).
- When bundles differ, the common bundle is said to be empty. Webhooks without a bundle are overlooked at
  the beginning, and CRDs that follow a difference can supply the common bundle; exactly when is
  `CommonBundles.CommonIsHeldIff` with `CommonBundles.CommonIff` (`CaBundles.WebhooksInCommonIff`,
  `CaBundles.DifferenceForgotten`, `CommonBundles.LastTwoSupply`).
- Groups and resources are joined by an underscore, so groups that contain one can lose grants
  (`Rbac.GrantsKeptIff`, `Counterexamples.KeyCollision`). The namespace `__all_namespaces` is read as all
  namespaces (`FieldIndex.IndexMatches`).
- A comment on AddImages says that duplicates among the existing images are removed. Only entries that are
  overridden are (`Images.DuplicatesGoneIff`, `Images.DuplicateStays`).

## Model

| member | source | states |
|---|---|---|
| Operands.Reverse | operator/v1/operand/order.go:42-49 | the two-index loop gives the steps in reverse, except that the middle step of an odd-length order is left empty |
| Operands.ReverseInvolution | operator/v1/operand/order.go:42-49 | reversing twice gives the order back if and only if its length is even or its middle step is empty |
| Operands.StepRequeueStrategy | operator/v1/operand/order.go:55-64 | a step requeues on every change if and only if one of its operands does |
| Graphs.AcyclicIffGrounded | operator/v1/dag/dag.go:71-89 | the requirements form no cycle if and only if the chains into every operand are bounded, so that its level, the longest chain into it, exists |
| Graphs.WalksBounded | operator/v1/dag/dag.go:71-89 | the walks from the sources are bounded, which is what the loop needs to end, if and only if no walk from a source repeats an operand |
| Graphs.LevelWalk | operator/v1/dag/dag.go:71-89 | the longest chain into an operand is reached by a walk from a source, so some frontier lists the operand at its level |
| OperandDag.AddSuccessorsToNewRoots | operator/v1/dag/dag.go:144-158 | the successors that are not listed yet are appended, each once |
| OperandDag.VertexExists | operator/v1/dag/dag.go:160-167 | found if and only if the vertex is in the list |
| OperandDag.SolveStep | operator/v1/dag/dag.go:93-139 | one pass returns the next frontier and the map after testing every root against the map the pass is writing |
| OperandDag.Solve | operator/v1/dag/dag.go:71-89 | for every graph whose walks from the sources are bounded, the loop ends after exactly the passes with a frontier that is not empty |
| OperandDag.FrontierIsWalks | operator/v1/dag/dag.go:71-158 | the frontier of step k lists, each once, exactly the operands that end a walk of k edges from a source |
| OperandDag.SolveEndsIff | operator/v1/dag/dag.go:71-89 | the loop comes to an empty frontier if and only if no walk from a source repeats an operand; on an acyclic graph it does within as many passes as there are operands |
| Counterexamples.LoopNeverEnds | operator/v1/dag/dag.go:71-89 | a requires nothing, b requires a and c, c requires b: the graph is built and no pass has an empty frontier |
| Counterexamples.BothDropped | operator/v1/dag/dag.go:71-89 | two operands that require each other: an operator is made without an error and its order is empty |
| OperandDag.Placement | operator/v1/dag/dag.go:98-127 | a placed operand was placed by the pass of its step, at its place in the frontier list, when everything it requires was in the map |
| OperandDag.RequirementNotLater | operator/v1/dag/dag.go:93-139 | for any enumeration a requirement is never at a later step than the operand, and at the same step only if it precedes the operand in the frontier list of that step |
| OperandDag.PlacedByLevel | operator/v1/dag/dag.go:93-139 | an operand is placed no later than at the length of the longest chain into it |
| OperandDag.PlacedOnce | operator/v1/dag/dag.go:93-139 | an operand keeps the step it was given in every later pass |
| OperandDag.SolutionKeys | operator/v1/dag/dag.go:71-139 | the solution holds exactly the operands with no cycle on or before them, each at a step that is at most its level; the others are dropped silently |
| OperandDagOrder.StepsAreLongestChain | operator/v1/dag/dag.go:71-89 | on an acyclic graph the loop runs exactly as many times as the longest chain has operands, and every operand gets a step |
| OperandDagOrder.StrictIffNoneOvertaken | operator/v1/dag/dag.go:93-139 | every requirement lands at a strictly earlier step if and only if no operand is listed one step before its level behind all its requirements of that level; and if and only if every operand lands exactly at its level |
| OperandDagOrder.SnapshotIsLevel | operator/v1/dag/dag.go:93-139 | the variant that tests requirements against the map as it stood when the pass began places every operand exactly at its level |
| OperandDagOrder.SnapshotIsStrict | operator/v1/dag/dag.go:93-139 | that variant puts every requirement at a strictly earlier step, on every graph |
| OperandDagOrder.SameStepWitness | operator/v1/dag/dag.go:98-127 | b requires a, c requires a and b: with b enumerated before c both land at step 1, so the solution is not strict |
| OperandDagOrder.LaterStepWitness | operator/v1/dag/dag.go:98-127 | the same operands with c enumerated before b land at three different steps |
| OperandDagOrder.Order | operator/v1/dag/dag.go:50-67 | whatever the iteration order of the map, every placed operand is in exactly one step, once, the one the solution gives it; and the placed operands are exactly those with no cycle on or before them |
| OperandDagBuild.NewOperandDAG | operator/v1/dag/dag.go:16-48 | the graph is built if and only if the names are distinct, every requirement names an operand and (where the library refuses a repeated edge) no requirement is repeated; its vertices are the operands and its edges exactly their requirements |
| Errors.NotReadyRoot | operator/v1/operand/operand.go:27-28 | an error counts as not ready if and only if ErrNotReady itself is left when every wrapper and aggregate in it is taken away |
| Errors.NotReadyUnwrapped | operator/v1/operand/operand.go:27-28 | where no aggregate is wrapped, an error counts as not ready if and only if ErrNotReady is the error under its wrappers |
| Errors.WrappedAggregate | operator/v1/operand/operand.go:27-28 | a wrapped aggregate that holds ErrNotReady counts as not ready, although ErrNotReady is not the error under the wrappers |
| Errors.NotReadyLeaf | operator/v1/composite_operator.go:167-167 | an error counts as not ready if and only if ErrNotReady is at the root of one of the leaves of its aggregates |
| Errors.AccumulateLeaves | operator/v1/executor/executor.go:199-208 | adding an error to the accumulated one keeps the leaves of both, as a multiset |
| Executor.CallEnsureSucceedsIff | operator/v1/operand/operand.go:74-96 | ensuring an operand succeeds if and only if Ensure, the ready check and PostReady all do; the event of Ensure is reported only then; otherwise the first error of the three is returned, ErrNotReady for an operand that is not ready, in the world left by what ran |
| Executor.SerialExec | operator/v1/executor/executor.go:122-160 | the loop makes the calls up to and including the first that fails, threads the world through them and reports a change or the aggregated error |
| Execution.SerialIsConcurrent | operator/v1/executor/executor.go:122-160 | a serial step that does not fail is one of the outcomes the concurrent step allows |
| HookCalls.SerialFailure | operator/v1/executor/executor.go:140-151 | a serial step makes a prefix of the calls on one thread of worlds; if it fails, only the last of them failed and its error is the one returned |
| Goroutines.InvKept | operator/v1/executor/executor.go:164-250 | every move of every goroutine and of the executor keeps the program counters in phase, the wait group and channel loads counting goroutines, and every error, event and call conserved |
| Goroutines.SchedulesAreSafe | operator/v1/executor/executor.go:164-250 | in every state of every schedule no send blocks, no goroutine is left to send once the error channel is closed, and the executor is past Wait only when every goroutine is gone |
| Goroutines.NeverStuck | operator/v1/executor/executor.go:164-250 | until the executor has returned, some move is enabled: no schedule deadlocks |
| Goroutines.MovesRunOut | operator/v1/executor/executor.go:164-250 | every move decreases a measure, so every schedule ends |
| Goroutines.ReturnedOutcome | operator/v1/executor/executor.go:200-222 | when the executor returns, every operand was called exactly once, the leaves of the error are exactly the multiset of the operand errors, and a result is returned if and only if some call had an event |
| Goroutines.ConcurrentExec | operator/v1/executor/executor.go:164-250 | a scheduler that picks any enabled move terminates with such an outcome |
| Schedules.AnyOrder | operator/v1/executor/executor.go:176-198 | for every order of the operands some schedule calls them in that order and returns |
| Schedules.EitherFirst | operator/v1/executor/executor.go:176-198 | of any two operands of a step either one may be called before the other |
| Execution.ExecuteStep | operator/v1/executor/executor.go:81-92 | a step runs under the strategy it was configured with |
| Execution.ExecuteOperands | operator/v1/executor/executor.go:55-117 | the executed steps are a prefix of the order in which only the last step may have failed or asked for a requeue; the error and the requeue are those of the last step; an unknown strategy runs nothing |
| Execution.EarlierStepsSucceeded | operator/v1/executor/executor.go:69-112 | a step starts only after every operand of every earlier step was called exactly once, without error |
| Execution.SettledIffAllClean | operator/v1/executor/executor.go:94-117 | no requeue and no error if and only if every step ran, none failed and no requeue-always step reported a change |
| HookCalls.RunAnswered | operator/v1/executor/executor.go:69-117 | every call of a run returns what the operand answered on the world that the answers before it left, the run leaves the world of the last answer, and it fails if and only if one of the answers did or the strategy is unknown |
| HookCalls.EnsureAnswered | operator/v1/operand/operand.go:74-96 | the run that Ensure makes fails if and only if the hooks of some operand it called did not succeed on the world that the calls before it left |
| Agreement.StepsAgree | operator/v1/executor/executor.go:122-222 | if the operands of a step do not depend on one another, the serial step and every schedule of the concurrent one fail together, and otherwise return the same result and leave the same world |
| Agreement.SameWorld | operator/v1/executor/executor.go:164-222 | independent operands leave the same world whatever the order of their calls |
| Agreement.StrategiesAgree | operator/v1/executor/executor.go:55-222 | over such operands runs under both strategies agree step for step, stop at the same step with the same requeue, fail together, and leave the same world if they do not fail |
| Convergence.GoesFurther | operator/v1/executor/executor.go:106-111 | over such operands a run that requeues after another run stops at a strictly later step |
| Convergence.RequeueCount | operator/v1/composite_operator.go:154-179 | in a row of requeues the n-th run stops beyond n requeue-always steps |
| Convergence.ExecutionConverges | operator/v1/executor/executor.go:69-112 | over operand calls that are ready and idempotent once the work of the earlier steps is done, runs one after the other requeue at most once per requeue-always step before one that does not |
| EnsureConvergence.HooksSettle | operator/v1/operand/operand.go:74-96 | an operand whose hooks are ready and idempotent, once the work of given operands is done, gives an ensure call that is |
| EnsureConvergence.StrictNeedsAreEarlier | operator/v1/dag/dag.go:93-139 | with a strict solution everything an operand requires is at an earlier step |
| EnsureConvergence.EnsureConverges | operator/v1/composite_operator.go:154-179 | calls of Ensure one after the other, over operands that are ready and idempotent once what they require at earlier steps is done: none returns an error, at most one per requeue-always step (so at most one per step) asks for a requeue before one that does not; that one leaves every operand ensured that has no cycle on or before it, and the next asks for no requeue and changes nothing |
| CompositeOperators.NewCompositeOperator | operator/v1/composite_operator.go:91-133 | an operator is made if and only if there is an event recorder and the graph can be built; its order layers exactly the operands given by the finished solution |
| CompositeOperators.Ensure | operator/v1/composite_operator.go:154-179 | a suspended operator does nothing; otherwise the order is executed and its result, its error or a delayed retry is returned |
| CompositeOperators.SilentRetryIffNotReady | operator/v1/composite_operator.go:160-172 | a failed run becomes a silent retry after the retry period if and only if some call of the step that failed returned an error with ErrNotReady at its root, whatever other errors the step had; any other failure is returned as it is, without a delay |
| CompositeOperators.RequirementsFirst | operator/v1/composite_operator.go:150-160 | when an operand is called, everything it requires has a step that is no later, and whatever has an earlier step was called there without error; with a strict solution that is everything it requires |
| RequirementOrder.StrictIffNoClash | operator/v1/dag/dag.go:93-139 | the solution is strict if and only if no step holds both an operand and something it requires |
| RequirementOrder.RunViolates | operator/v1/executor/executor.go:69-112 | whatever the operands do and however the earlier steps went, as long as they were clean: at a step that holds an operand and something it requires, some parallel run of the whole order goes on by calling the operand first |
| RequirementOrder.SomeRunViolates | operator/v1/executor/executor.go:55-117 | if the solution is not strict, some parallel run of the whole order, over operands that neither fail nor report an event, calls an operand before something it requires |
| RequirementOrder.SomeSerialRunViolates | operator/v1/dag/dag.go:56-65 | if the solution is not strict, a serial operator over the same operands and graph, whose steps were filled in another map iteration order, makes a run that calls an operand before something it requires |
| Cleanups.Cleanup | operator/v1/composite_operator.go:182-190 | a suspended operator deletes nothing; otherwise the reversed order is executed and its result and error are returned |
| HookCalls.CleanupAnswered | operator/v1/operand/operand.go:100-108 | every call of a cleanup returns the event and the error of the Delete of the operand on the world that the Deletes before it left; the cleanup returns no error if and only if every Delete it called returned none and the strategy is known |
| HookCalls.FailedDelete | operator/v1/executor/executor.go:94-98 | a Delete that fails on an operand that is called makes the cleanup fail |
| Cleanups.CleanupCalls | operator/v1/composite_operator.go:182-190 | whether it fails or not, a cleanup calls an operand only in the turn of its step, and never one without a step or in the lost middle step |
| Cleanups.CleanupDeletesExactly | operator/v1/composite_operator.go:182-190 | after a cleanup without an error, an operand of the operator was called if and only if it was deleted without error, and if and only if no cycle lies on or before it and its step was reached; all were deleted if and only if there is no cycle and the steps that were not reached are empty |
| Cleanups.CleanupComplete | operator/v1/executor/executor.go:94-112 | the cleanup comes to every step if and only if no requeue-always step before its last reported a change |
| Cleanups.LaterStepsFirst | operator/v1/composite_operator.go:182-190 | whether the cleanup fails or not, when an operand is called the operands of every step whose turn came before, unless it was lost in the middle, were deleted without error |
| Cleanups.DependentsFirst | operator/v1/composite_operator.go:182-190 | whether the cleanup fails or not, when an operand is called an operand that requires it has a turn that is no later, always earlier with a strict solution, and if that is earlier and not lost it was deleted there without error |
| Cleanups.NeverCalled | operator/v1/composite_operator.go:182-190 | no cleanup calls an operand that has no step or whose step is lost in the middle |
| Cleanups.MiddleStepLost | operator/v1/operand/order.go:42-49 | with an odd number of steps no cleanup, failing or not, ever calls an operand of the middle one |
| Counterexamples.MiddleStepWitness | operator/v1/operand/order.go:42-49 | b requires a, c requires a and b, b enumerated before c: three steps, and no cleanup calls b or c |
| Counterexamples.RemovedBeforeDeleted | controller/composite/v1/reconcile.go:190-201 | b requires a and requeues on every change: a cleanup whose deletion of b reports a change stops there without an error, a is never deleted, and the finalizer is removed |
| Reconciler.VersionsKept | controller/composite/v1/reconcile.go:27-77 | every move keeps the stored versions and the deletion mark, and reads never go back |
| Reconciler.OperateBeforeCleanup | controller/composite/v1/reconcile.go:27-156 | over every run with conflicting, failing and foreign updates: Operate runs only on a version that is initialized and, under finalizer cleanup, unmarked and carrying the finalizer; Cleanup only on a marked one that carries it; no Operate follows a Cleanup |
| Reconciler.RunHeld | controller/composite/v1/reconcile.go:165-208 | until some Cleanup returns no error, the finalizer stays once it is there, and with it the object |
| Reconciler.GoneOnlyAfterCleanup | controller/composite/v1/reconcile.go:165-208 | if nobody else strips the finalizer, an object on which Operate ran under finalizer cleanup is gone only after some Cleanup returned no error |
| ReconcilePass.Reconciled.constructor | controller/composite/v1/reconcile.go:18-27 | an object that was just created, with no pass running, is a start state of the runs |
| ReconcilePass.Reconciled.Update | controller/composite/v1/reconcile.go:175-177 | an update is accepted if and only if it is not refused and nothing was stored since the version it was made from |
| ReconcilePass.Reconciled.Reconcile | controller/composite/v1/reconcile.go:18-156 | a pass makes moves of the state machine only, for every answer of the cluster and the hooks; its result and error, the version it stores and the hooks it ran are given exactly; without failures it is one read, one hook, one write |
| ReconcilePass.Reconciled.InitializeObject | controller/composite/v1/reconcile.go:61-77 | an object without a status is initialized and its status written, accepted or not, with a requeue; an error of the hook is returned |
| ReconcilePass.Reconciled.HandleInitialized | controller/composite/v1/reconcile.go:88-156 | the part under the deferred status update: the finalizer first, then Operate unless the object is being deleted or was just updated |
| ReconcilePass.Reconciled.HandleFinalizers | controller/composite/v1/reconcile.go:129-146 | the pass ends in the finalizer block if and only if the object is not one to operate on; the status update is skipped if and only if the finalizers were updated |
| ReconcilePass.Reconciled.RunOperate | controller/composite/v1/reconcile.go:148-156 | Operate runs on the version that was read, and the deferred status update follows |
| ReconcilePass.Reconciled.AddMissingFinalizer | controller/composite/v1/reconcile.go:169-182 | a live object without the finalizer gets it, whether or not the update is accepted the pass counts as an update |
| ReconcilePass.Reconciled.CleanUp | controller/composite/v1/reconcile.go:183-205 | Cleanup runs if and only if the finalizer is there, and the finalizer goes if and only if Cleanup returned no error |
| ReconcilePass.Reconciled.RunCleanup | controller/composite/v1/reconcile.go:188-201 | Cleanup runs on the version that was read; the object without the finalizer is stored if and only if Cleanup returned no error and the update is neither refused nor stale |
| ReconcilePass.Reconciled.CleanupHandler | controller/composite/v1/reconcile.go:165-208 | a live object without the finalizer gets it; a marked one that has it is cleaned up and loses it if and only if Cleanup returned no error, whatever its requeue; which of the two happened is reported |
| ReconcilePass.Reconciled.UpdateStatus | controller/composite/v1/reconcile.go:91-127 | the deferred block stores the new status if and only if neither the status hook nor the comparison fails, the status differs and the update is neither refused nor stale, and stores nothing otherwise; its own error joins the error of the pass, with exactly the leaves of both; a failing hook also asks for a requeue |
| ReconcilePass.QuietPassOperates | controller/composite/v1/reconcile.go:55-156 | a pass without failures over a live object either takes away one reason not to operate or runs Operate |
| ReconcilePass.QuietPassesOperate | controller/composite/v1/reconcile.go:55-156 | at most two such passes (uninitialized, finalizer missing) do not operate, each with one reason less, and every later pass does |
| ReconcilePass.QuietPassReleases | controller/composite/v1/reconcile.go:183-202 | the first such pass over an initialized object marked for deletion cleans up and removes the finalizer; the object is gone if and only if it was the last one |
| Finalization.FinalizerRemoved | controller/composite/v1/reconcile.go:183-202 | with the composite operator as controller the pass goes on to remove the finalizer if and only if Cleanup returned no error, which is if and only if every Delete it called returned none; then the operands of the operator that were not deleted were never called, and are exactly those with a cycle on or before them and those of steps that were not reached; all are deleted given no cycle, an even number of steps and no requeue-always step reporting a change before the last |
| Finalization.GoneAfterDeletion | controller/composite/v1/reconcile.go:165-208 | over every run of the reconciler whose cleanups are calls of the operator: by the time an operated object is gone, some call of Cleanup returned no error, and unless suspended every Delete it called returned none and it deleted exactly the operands with no cycle on or before them whose step it reached and called no other; all of them given no cycle, an even number of steps and no early requeue |
| Informers.InformersMap.constructor | cache/informer/informersmap.go:66-76 | a new map has no entries, is not started and has launched nothing |
| Informers.InformersMap.Start | cache/informer/informersmap.go:79-97 | every entry is launched and later additions launch themselves; a Start on a started map launches everything again and panics |
| Informers.InformersMap.AddInformerToMap | cache/informer/informersmap.go:160-199 | after the second look an existing entry is returned; otherwise one new entry is added, and launched if and only if the map is started |
| Informers.InformersMap.Get | cache/informer/informersmap.go:135-158 | fails if and only if a new entry cannot be made or a started informer does not sync in time; otherwise returns the entry of its kind, and reports started only for an entry that was launched |
| Informers.GivenAsItIs | cache/informer/informersmap.go:135-158 | in every interleaving a caller that has looked or added holds the entry of its kind and the started flag of that moment, keeps both until it returns, and fails only if the entry cannot be made or does not sync |
| Informers.MoveKeeps | cache/informer/informersmap.go:79-199 | every move of every caller and of Start keeps: one entry per kind, each launched never before Start and exactly once after it, no entry removed or replaced |
| Informers.GetsAgree | cache/informer/informersmap.go:135-199 | for any number of callers interleaved with Start, all successful calls for a kind return the same entry, which is never replaced and was launched exactly once if the map is started and never otherwise; started from Get means launched |
| FieldIndex.FillKeys | cache/informer_cache.go:167-186 | the loop that overwrites the extracted slice in place, or fills a doubled one, leaves the same keys as the plain map over the values |
| FieldIndex.IndexFunc | cache/informer_cache.go:159-193 | an object gets the keys of its namespace and, if it has one, those of the reserved namespace for all; the extracted slice is overwritten if and only if there is no namespace |
| FieldIndex.KeysEqual | cache/informer/cache_reader.go:171-176 | keys of namespaces without a slash are equal if and only if the values are and the namespaces are, the empty one counting as the reserved one |
| FieldIndex.IndexMatches | cache/informer_cache.go:159-193 | an object is under a query key if and only if it has the value and the query is for its namespace or for all (the reserved name included) |
| FieldIndex.SlashWitness | cache/informer/cache_reader.go:171-176 | with a slash in a namespace two different pairs share a key |
| FieldIndex.List | cache/informer/cache_reader.go:81-134 | a query with a field selector succeeds if and only if the selector is one requirement with = or == on an indexed field; it returns, each once, exactly what is under its key and matches the labels, and where namespaces have no slash that is the plain filter by namespace, by what the requirement asks of the field values, and by labels |
| FieldIndex.FilterLabels | cache/informer/cache_reader.go:112-132 | exactly the objects whose labels match are kept |
| FieldIndex.StoreKeysEqual | cache/informer/cache_reader.go:140-145 | store keys without slashes in their parts are equal if and only if the namespaces and names are |
| FieldIndex.GetFinds | cache/informer/cache_reader.go:36-78 | Get returns an object if and only if it has the name and namespace asked for, a root scope asking for none; a listed object is found by its own key if and only if the scope is namespaced or the object has no namespace |
| Counterexamples.ListedNotFound | cache/informer/cache_reader.go:36-41 | a cache with a root scope lists an object that has a namespace and does not find it by its own key |
| Certificates.SelfSignedCertGenerator.Generate | internal/webhook/cert/generator/selfsigned.go:63-130 | the certificate is signed by the CA that is held if that outlives the certificate, and otherwise by a fresh one |
| Certificates.SecretCertWriter.Read | internal/webhook/cert/writer/secret.go:121-138 | not found only if the secret is absent; a failing read is not reported and reads as a secret without data; what is read sets the CA of the generator; the same as the read move of a manager |
| Certificates.SecretCertWriter.Write | internal/webhook/cert/writer/secret.go:99-109 | creates the secret if and only if it is absent and the call does not fail, and tells an existing secret from a failure; the same as the create move of a manager |
| Certificates.SecretCertWriter.Overwrite | internal/webhook/cert/writer/secret.go:111-119 | replaces an existing secret; the same as the overwrite move of a manager |
| Certificates.SecretCertWriter.CreateIfNotExists | internal/webhook/cert/writer/certwriter.go:81-97 | also when another manager creates the secret after the first read, a success returns what the secret holds, or nothing after a read that failed |
| Certificates.SecretCertWriter.HandleCommon | internal/webhook/cert/writer/certwriter.go:55-79 | what is returned is what the secret holds in the end; nothing changes only for a valid certificate that could be read; an invalid one keeps its CA if and only if that outlives the new certificate |
| Certificates.SettledKept | internal/webhook/cert/writer/certwriter.go:55-97 | every move of every manager keeps: the secret was created as often as it exists, and what a manager holds is what the secret holds |
| Certificates.OneCreation | internal/webhook/cert/writer/certwriter.go:55-97 | for any interleaving of any number of managers from an absent secret, without read failures and with lasting certificates, at most one creation succeeds, and every manager that returned, at whatever time, returned what the secret holds |
| Certificates.ReturnsGood | internal/webhook/cert/writer/certwriter.go:67-79 | a manager returns what it holds if and only if it holds a certificate that is good then, and otherwise overwrites; what it returns after overwriting is what it stored |
| Certificates.OverwriteKeepsCA | internal/webhook/cert/writer/secret.go:111-138 | an overwrite leaves the stored CA if and only if the generator holds it and it outlives the new certificate |
| Certificates.CAUnchangedIff | internal/webhook/cert/writer/secret.go:99-138 | over any interleaving of any number of managers, the CA first stored is stored in every later state if and only if every overwrite is made by a manager that has read the secret, in whatever pass, while the CA outlives the new certificate |
| Certificates.CAUnchanged | internal/webhook/cert/writer/secret.go:99-138 | if no read fails but for an absent secret, whoever creates the secret finds its certificate good, and the CA first stored outlives every later certificate, that CA is stored in every later state |
| Certificates.FailedReadWitness | internal/webhook/cert/writer/secret.go:121-138 | one failed read makes a manager replace a valid certificate and its CA |
| CaBundles.ContainsBytes | internal/webhook/cert/provisioner.go:56-60 | found if and only if the certificate is a contiguous part of the bundle |
| CaBundles.UniformIsCommon | webhook/cert/manager.go:329-386 | a bundle that all webhooks and CRDs hold is the common one |
| CaBundles.WebhooksInCommonIff | webhook/cert/manager.go:329-363 | a bundle is found common to the webhooks if and only if all of them hold it from some point on and none before holds any |
| CaBundles.DifferenceForgotten | webhook/cert/manager.go:365-386 | after a difference between webhooks the bundle of a CRD counts as common |
| CommonBundles.CrdsLeaveIff | webhook/cert/manager.go:366-383 | the comparison over CRDs ends with a bundle if and only if it is the last one and an even number of bundles (each unlike its neighbour) follows the last equal pair, or an odd number the last empty bundle |
| CommonBundles.CommonIff | webhook/cert/manager.go:329-386 | over webhooks and CRDs a bundle is found common if and only if, after what the webhooks share, it comes last and remains in that sense |
| CommonBundles.CommonIsHeldIff | webhook/cert/manager.go:322-327 | a bundle found to be common is one that all objects hold if and only if it is not the case that they differ and the last bundle still remains |
| CommonBundles.LastTwoSupply | webhook/cert/manager.go:366-383 | two CRDs that agree at the end supply the common bundle, whatever came before |
| CaBundles.InstalledBundle | internal/webhook/cert/provisioner.go:44-92 | whatever the bundles were, the installed one contains the CA and is the common one, followed by the CA and nothing else where it was missing; a previously common bundle is a prefix of it; with something to manage the next refresh finds the CA in the common bundle and installs the same bundle again |
| CaBundles.Manager.FindCommon | webhook/cert/manager.go:329-386 | the loops over webhook configurations, which stop at a difference, and over CRDs, which do not, give the common bundle; a CRD with a misconfigured conversion fails |
| CaBundles.Manager.InjectForWebhook | internal/webhook/cert/provisioner.go:94-110 | every webhook of a configuration gets the bundle and none is added or lost |
| CaBundles.Manager.BatchUpdate | webhook/cert/manager.go:420-427 | the objects up to the first update that fails hold the new bundle, the others what they held |
| CaBundles.Manager.Provision | internal/webhook/cert/provisioner.go:55-72 | all webhooks and CRDs get one bundle that holds the CA; a change is reported if and only if the certificate changed or the common bundle lacked the CA; after a failed update the objects before it hold the new bundle and the others what they held |
| CertRefresh.CertManager.RefreshCert | webhook/cert/manager.go:314-399 | with the certificate from the writer: after a success the secret holds the certificate and all objects one bundle with its CA; a refresh that finds them so, with a good certificate and something to manage, reports no change and changes nothing; what fails before the certificate is ensured changes nothing |
| CertRefresh.CertManager.RefreshTwice | webhook/cert/manager.go:314-399 | after a successful refresh a second one reports no change while the certificate is good |
| Rbac.ReorderRules | rbac/client/result.go:73-118 | the nested loops over a map and a list of names compute the merge of the entries by key |
| Rbac.AppendVerbs | rbac/client/result.go:85-93 | the verbs that are missing are appended, each once |
| Rbac.Contains | rbac/client/result.go:120-127 | found if and only if the string is in the list |
| Rbac.MergeAllKeys | rbac/client/result.go:73-118 | the keys of the result are those of the entries in the order of their first appearance |
| Rbac.GrantsKeptIff | rbac/client/result.go:73-118 | grouping keeps exactly what is granted if and only if no two different groups and resources share a key |
| Counterexamples.KeyCollision | rbac/client/result.go:86-88 | group a with resource b_c and group a_b with resource c share a key, and grouping loses a grant |
| Rbac.PlainGroupsTell | rbac/client/result.go:73-118 | groups without an underscore keep the keys apart |
| Rbac.LostGrant | rbac/client/result.go:73-118 | where two groups and resources share a key, one of them loses a grant |
| Rbac.ReorderedRules | rbac/client/result.go:73-118 | the grouped rules grant exactly what the rules grant, one rule per group and resource in the order of first appearance, and grouping again changes nothing |
| Rbac.RbacClient.RecordRuleWithStatus | rbac/client/record.go:31-64 | one rule is appended to the role of the scope; an unknown kind or scope is counted as an error and recorded as an empty group and resource, or as a cluster rule |
| Rbac.RbacClient.ReorderRoles | rbac/client/result.go:20-22 | both roles are grouped |
| Rbac.RolesGrantRecorded | rbac/client/record.go:31-64 | after any sequence of recorded calls and groupings each role grants exactly what was recorded in its scope, and no rule repeats a verb |
| Rbac.StatusGranted | rbac/client/record.go:46-51 | a recorded call for the status of a resource grants its verb on resource/status, and on the resource itself only if another call asked for that |
| Images.Deduplicate | declarative/kustomize/mutate.go:70-85 | the last entry of every name, the names in the order of their first appearance |
| Images.HasName | declarative/kustomize/mutate.go:93-100 | found if and only if some entry has the name |
| Images.Kustomization.AddImages | declarative/kustomize/mutate.go:68-112 | the images become the entries that are not overridden, followed by the deduplicated new ones; every last added entry of a name is looked up as given, and the first existing entry of any other name still is |
| Images.AddedLookup | declarative/kustomize/mutate.go:68-112 | the first-match lookup afterwards is the old one overridden by the last entry of each name that was added |
| Images.AddedEntry | declarative/kustomize/mutate.go:68-112 | an added image that no later one of its name follows is looked up as it was given, and where no image of a name is added the first existing one still is |
| Images.AddedTwice | declarative/kustomize/mutate.go:68-112 | adding a and then b is looked up like adding a followed by b |
| Images.AddedAgain | declarative/kustomize/mutate.go:68-112 | entries that are not overridden keep their order, and adding the same images again changes nothing |
| Images.DuplicatesGoneIff | declarative/kustomize/mutate.go:89-104 | no name is left twice if and only if every name that the existing images repeat is among the added ones |
| Images.DuplicateStays | declarative/kustomize/mutate.go:89-104 | an image that is listed twice and not overridden is still listed twice |

## Left out

- The dag library, client-go informers, the API server and the kustomize engine: only what the code relies on. The dag library is not part of this model: whether it refuses a repeated edge is a parameter of `NewOperandDAG`, and how it enumerates vertices is arbitrary.
- OperandDag.Solve: requires that the walks from the sources are bounded, because the loop does not end otherwise; `OperandDag.SolveEndsIff` says exactly when it ends and `Counterexamples.LoopNeverEnds` gives operands on which it does not. The map is passed and returned instead of updated in place.
- OperandDagOrder.Order: requires the same as Solve, for the same reason.
- CompositeOperators.NewCompositeOperator: requires that no cycle is reachable from a source, for the same reason; the option closures, the default retry period and the instrumentation are not modelled.
- An operand call is one atomic move on the world: what happens inside two operand functions that run at the same time is not interleaved. Panics inside operands are not modelled.
- Executor.CallEnsureSucceedsIff: the owner reference, the context and the contents of events are dropped; an event is present or not.
- The suspension check is a parameter of Ensure and Cleanup.
- Agreement.StrategiesAgree: is about operands of a step that are independent, as the agreement of the strategies supposes.
- EnsureConvergence.EnsureConverges: supposes operands that, once what they require is done, do not fail and do not undo one another's work, as the convergence of Ensure does.
- ReconcilePass.Reconciled.Reconcile: reads never go back to an older version, and other clients move between passes only; the state machine in `Reconciler` interleaves them with the pass as well. Defaulting, validation and the status condition are answers of the environment, and of the errors that the deferred block joins only the fixed part of the text is kept.
- Finalizers are a set; Kubernetes keeps a list in which the finalizer could be repeated.
- Informers.InformersMap.Start: what the process does after the panic of a second Start. Waiting for the cache to sync is a parameter of Get, and the list-watchers, resync jitter and the scope of the REST mapping are not modelled.
- FieldIndex.List: agrees with the plain filter where no namespace has a slash, as in Kubernetes; `FieldIndex.SlashWitness` shows why. Limits, continue tokens and deep copies are dropped.
- Cryptography: whether a certificate or a CA is valid at a time is any predicate, and a generated CA or certificate has a number of its own. PEM, key files and DNS names other than the empty one are not modelled.
- Certificates.SecretCertWriter.CreateIfNotExists: another manager interferes at one point, after the first read; the manager state machine has every interleaving.
- CertRefresh.CertManager.RefreshCert: mutating and validating configurations are one list in that order; paths and services of client configurations are not kept, and an update fails at a given object or not at all.
- Writing certificates to disk, the refresh timer of the certificate manager and its start.
- Rbac.ReorderRules: slices are values. The source shares the verbs of a rule between its resources, and appending to one of them can write into the shared array when it has room, which could lose a verb of a rule with several resources. The recorder makes rules with one resource and one verb, so what is said about recorded rules is not affected.
- Rbac.RbacClient.RecordRuleWithStatus: finding the kind and the scope of an object is a parameter; error texts are counted, not kept. Writing roles as YAML is left out.
- The other kustomize mutators and the order in which mutators are applied: each sets one field.
- RunAction of the stateless action controller, the sync, metadata-sync and external-object-sync reconcilers, admission handlers, builders, loaders, discovery and the composite client: dispatch and plumbing that would add easy members.
- Telemetry, logging and event recording.
