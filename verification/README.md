# Diverge in Dafny

Diverge runs preview environments on Kubernetes: a controller reconciles agent tasks and preview environments, a
command-line client supervises a local process and tunnels requests to it, and provisioners give every preview its
own slice of Redis and of object storage. This project models the parts of it whose correctness spans many steps and
proves what they promise, for all inputs, all runs and all interleavings.

| module | what it models |
|---|---|
| `AgentTask`, `AgentTaskStep`, `AgentTaskRuns` | the AgentTask lifecycle controller: one reconcile with a possible failure at every call, what it changes field by field, and what every run keeps |
| `Supervisor`, `ConfigWatcher` | the restart protocol of `diverge dev --watch-env`: a watcher, a supervisor, a one-slot channel and a circuit breaker |
| `Resp`, `RespGrammar`, `RedisTeardown` | the Redis protocol reader and printer, exactly what the reader accepts, glob escaping, and the SCAN teardown with its fallbacks |
| `ObjectStorage`, `ObjectTeardown` | key prefixes, injected variables and paginated deletion for S3, MinIO and GCS |
| `DriftLedger`, `Fingerprint` | the baseline-drift ledger around Deploy, and the canonical text behind its fingerprint |
| `FingerprintReading`, `FingerprintLines`, `DeploymentReading`, `SecretReading`, `FingerprintStream` | what that text tells apart: config maps, deployments, secrets and the whole of them |
| `EditDistance`, `TreePrinter`, `CycleCheck` | the service graph: the "did you mean" distance, the tree view, and the cycle check by strongly connected components |
| `PreviewRouting`, `ServiceSelection` | generated child labels and the choice of a preview service in `diverge replay` |
| `SettingsMerge`, `ConfigResolve` | layered settings as values, and their resolution on heap objects |
| `Tunnel` | responses streamed back in chunks, any number of requests at once |
| `AgentRunner`, `AgentRunnerRuns` | the metered agent loop, and how each run ends |
| `Text`, `Tokens`, `Common` | strings, order, decimal numbers; cutting and joining words; the outcome of a write and the int32 bounds |

A `char` stands for one byte. Whatever the program calls - the API server, the token store, the sandbox provider,
Redis, the object store, the meter server, git, child processes, clocks and randomness - is a parameter: a record of
outcomes, a function, or the list of turns a peer takes. State the program edits in place is a class whose methods are
proved equal to a step function; the theorems are about runs of that function.

Where a promise is false of the code, the exact condition is proved instead:

- a paused task can keep a live token: behind a closed feature gate, after a resume that failed past minting, and
  after a pause whose revocation is lost or never reached (`AgentTaskRuns.LiveTokenWhilePaused`, with a run for each);
- Completed and Failed can be left (`AgentTaskRuns.TerminalLeavesExactly`);
- once the breaker is open a second child can start over a running one (`Supervisor.SecondChildExactly`), and requests
  go on restarting the child (`Supervisor.OpenBreakerStillRestarts`);
- a first sync that comes after the environment was read is never announced (`Supervisor.LateFirstSyncIsMissed`), and a
  change is dropped when the stop for its restart opens the breaker (`Supervisor.BreakerDropsChangeExactly`);
- a local response truncated within the first chunk, or broken in any way after it, is sent as a complete one
  (`Tunnel.PassesForCompleteExactly`);
- a sync that fails leaves a drift condition that may be wrong (`DriftLedger.DriftConditionExact`);
- config maps, and secrets of several-line types, can differ under one fingerprint text
  (`FingerprintReading.OwnTextExactly`, `SecretReading.OwnSecretTextExactly`);
- the prefix of the default target covers the other targets of its environment (`RedisTeardown.TargetsShareExactly`,
  `ObjectStorage.TargetsShareExactly`);
- the fingerprint in memory and the stored one part when a patch takes although an error comes back, and over a stored
  value with surrounding blanks (`DriftLedger.InStepExactly`);
- valid atlas layers can merge to invalid ones (`SettingsMerge.AtlasLayersValidExactly`);
- a batch delete answered with a success that does not decode counts as done (`ObjectTeardown.AcceptedMeansGoneExactly`);
- a task without a name repeats its request ids (`AgentRunner.DistinctIDsExactly`); the loader of the environment
  configuration, internal/agentrunner/runner.go:87-90, refuses such a task, so only a configuration built in code can.

Comments in the source promise that a restart never runs two children at once and that auto-restart halts once the
breaker trips; the code does neither in the cases above, and the model follows the code.

Verify with `dafny verify dfyconfig.toml`.

## Model

| member | source | states |
|---|---|---|
| `EditDistance.EditDistance` | internal/cli/graph.go:212-251 | the one reused row yields the length of a shortest insert, delete and replace script between any two byte strings |
| `EditDistance.NextLine` | internal/cli/graph.go:226-249 | one pass over the row turns the distances to the first i-1 bytes into those to the first i bytes, in place |
| `EditDistance.DistIsShortest` | internal/cli/graph.go:212-251 | the table recurrence, which takes the diagonal on equal bytes, is the length of a shortest script: some script has it and none is shorter |
| `EditDistance.LowerBound` | internal/cli/graph.go:230-244 | no script, applied edit by edit at any positions, beats the table |
| `EditDistance.UpperBound` | internal/cli/graph.go:230-244 | the table value is reached by an actual script |
| `EditDistance.Metric` | internal/cli/graph.go:212-251 | symmetric, zero exactly on equal strings, triangle inequality |
| `TreePrinter.ListNeighbors` | pkg/topology/graph.go:95-109 | the targets of live edges, each once and sorted |
| `CycleCheck.AddEdgeKeepsWellFormed` | pkg/topology/graph.go:43-51 | both ends of every edge of a graph are known services |
| `CycleCheck.Tarjan.StrongConnect` | pkg/topology/graph.go:139-175 | explores everything unvisited that a service reaches and keeps the invariants of the stack, the low links and the components found so far |
| `CycleCheck.Tarjan.PopComponent` | pkg/topology/graph.go:163-173 | pops the stack down to the root, in stack order |
| `CycleCheck.Tarjan.FindComponents` | pkg/topology/graph.go:131-181 | on every graph the components are exactly the classes of mutually reachable services, each once |
| `CycleCheck.SegmentIsComponent` | pkg/topology/graph.go:162-174 | what lies on the stack from a node whose low link is its own index is a whole class of mutually reachable nodes |
| `CycleCheck.Tarjan.Validate` | pkg/topology/graph.go:128-191 | nil if and only if no cycle passes through two services or more; otherwise the error lists such a cycle |
| `CycleCheck.VerdictIsRight` | pkg/topology/graph.go:183-190 | some component has two members if and only if there is such a cycle |
| `CycleCheck.CycleFinder.Dfs` | pkg/topology/graph.go:203-226 | success leaves a cycle through the start on the path; failure restores the path, and every node visited is a dead end |
| `CycleCheck.FindCycleInSCC` | pkg/topology/graph.go:193-232 | in a component with several members the search always finds a cycle, so the other message is never given |
| `TreePrinter.Printer.PrintTree` | internal/cli/graph.go:190-210 | terminates on every finite graph, cycles included, leaves the visited marks as found and appends exactly the lines of the entries below the node |
| `TreePrinter.Printer.PrintBranch` | internal/cli/graph.go:198-207 | the line of one neighbour, last or not |
| `TreePrinter.EntriesExact` | internal/cli/graph.go:190-210 | an entry is printed if and only if it follows edges and revisits no node except possibly at its end |
| `TreePrinter.EntriesNoDup` | internal/cli/graph.go:190-210 | no entry is printed twice |
| `TreePrinter.EntriesTopDown` | internal/cli/graph.go:190-210 | an entry comes above those it leads to, and above those that turn off later in the order of the names |
| `TreePrinter.AdmissibleIsSimpleWalk` | internal/cli/graph.go:190-210 | the printed entries are the walks whose nodes other than the last are pairwise distinct |
| `TreePrinter.PrintsEachSimpleWalkOnce` | internal/cli/graph.go:190-210 | each such walk from the root is printed exactly once, and nothing else is; a node comes above what it leads to, and neighbours in the order of their names |
| `Resp.Reader.ReadValue` | internal/async/redis.go:292-363 | consumes from the reader exactly what the grammar says, with every error path, and stops at depth 8 |
| `Resp.Reader.ReadBulk` | internal/async/redis.go:321-339 | length -1, bad lengths, short reads and a bad terminator are told apart; the payload may hold any bytes |
| `Resp.Reader.ReadArray` | internal/async/redis.go:340-359 | counts below -1 or above the limit are refused, -1 and 0 give the empty array |
| `Resp.Reader.ReadItems` | internal/async/redis.go:351-359 | items are read one level deeper, appended in order, and the first failure is passed on |
| `Resp.RoundTrip` | internal/async/redis.go:292-363 | for every reply within the limits and any bytes after it, reading what was printed gives that value and leaves those bytes if and only if the reply holds no error and its nonempty arrays nest at most 8 deep; a deeper error-free reply is refused as too deep |
| `Resp.ItemsRoundTrip` | internal/async/redis.go:351-359 | the same for the items of an array |
| `Resp.RefusalKeepsSync` | internal/async/redis.go:313-314 | an error reply is consumed whole, so the next reply is read from its own first byte |
| `RespGrammar.AcceptsExactly` | internal/async/redis.go:292-363 | on all bytes and at every depth, the reader yields a value and a rest if and only if the bytes are a correct spelling of that value, with lengths, terminators, limits and nesting all right, followed by that rest |
| `RespGrammar.CorrectIsRead` | internal/async/redis.go:292-363 | every correct spelling is read for what it means, whatever follows it |
| `RespGrammar.ReadIsCorrect` | internal/async/redis.go:292-363 | what is read was spelled correctly: the spelling is constructed |
| `Resp.PrintCommand` | internal/async/redis.go:277-290 | the bytes of a command are the printed array of its arguments |
| `Resp.CommandRoundTrip` | internal/async/redis.go:277-290 | a reader of those bytes sees exactly the arguments and nothing of what follows |
| `RedisTeardown.PrefixIsolation` | internal/async/redis.go:72-78 | a key under the prefixes of two colon-free environment names forces equal names |
| `RedisTeardown.TargetsShareExactly` | internal/async/redis.go:72-78 | two targets of one environment can share a key if and only if they are the same or one of them is the default, whose prefix covers the whole environment |
| `RedisTeardown.EscapeGlob` | internal/async/redis.go:265-275 | every glob character, and no other, is preceded by a backslash |
| `RedisTeardown.EscapedPrefixExact` | internal/async/redis.go:265-275 | under the glob rules of Redis, the escaped prefix plus a star matches a key if and only if the key starts with the prefix |
| `RedisTeardown.Evict` | internal/async/redis.go:220-263 | nil means every key of the batch was named in a deletion that succeeded; no other key is named; a server that answers in time gives nil if and only if it takes UNLINK, or DEL where UNLINK is unknown, or refuses either for several slots and takes the keys one by one |
| `RedisTeardown.EvictOneByOne` | internal/async/redis.go:236-259 | the key-by-key fallback, with DEL after an unknown UNLINK, covers the whole batch if and only if each key goes, and otherwise reports an error |
| `RedisTeardown.CollectKeys` | internal/async/redis.go:196-203 | the nonempty string keys of a reply, in order |
| `RedisTeardown.Round` | internal/async/redis.go:177-215 | one page continues the cursor chain and leaves every key reported so far deleted; it fails only for a bad SCAN reply, a batch that cannot be deleted or the deadline |
| `RedisTeardown.Teardown` | internal/async/redis.go:172-217 | whatever the server answers, only reported keys are named in deletions, and nil means a full iteration from cursor 0 back to 0 with every reported key deleted; a server that does its part before the deadline gives nil |
| `RedisTeardown.OnlyPrefixTouched` | internal/async/redis.go:172-263 | no step of any teardown, failing ones included, removes a key outside the prefix |
| `RedisTeardown.OtherEnvironmentsSpared` | internal/async/redis.go:172-263 | no key of another colon-free environment is ever removed |
| `RedisTeardown.NothingSurvives` | internal/async/redis.go:172-217 | with the SCAN guarantee, nil means no key under the prefix was there throughout, between the turns as well as during them |
| `RedisTeardown.QuietTeardownExact` | internal/async/redis.go:172-217 | with no other writer, nil leaves the keyspace minus exactly the keys under the prefix |
| `AgentTask.Reconciler.Reconcile` | internal/controller/agenttask_controller.go:103-500 | one reconcile leaves the stored task and the token exactly as the step function says, for every combination of call outcomes, a task that is not found included |
| `AgentTask.Reconciler.ReconcileDeleting` | internal/controller/agenttask_controller.go:115-167 | teardown, then token deletion, then the finalizer; a failure stops the sequence |
| `AgentTask.Reconciler.ReconcileSuspended` | internal/controller/agenttask_controller.go:192-228 | compute is stopped and the preview hibernated before the phase becomes Paused, the token is revoked last |
| `AgentTask.Reconciler.ReconcilePending` | internal/controller/agenttask_controller.go:246-302 | minting precedes provisioning; either failing leaves Pending with an error |
| `AgentTask.Reconciler.ReconcileProvisioning` | internal/controller/agenttask_controller.go:304-339 | a poll ends, advances or keeps the task; a failed poll changes nothing |
| `AgentTask.Reconciler.ReconcileActive` | internal/controller/agenttask_controller.go:341-430 | timeout before limits before token refresh before the sandbox poll |
| `AgentTask.Reconciler.ReconcilePaused` | internal/controller/agenttask_controller.go:432-490 | a limit keeps the task paused and revokes; otherwise mark, mint, resume and patch in this order, each able to fail |
| `AgentTask.Reconciler.HandleTerminalSandboxPhase` | internal/controller/agenttask_controller.go:502-539 | an ended sandbox makes the task Completed or Failed and then revokes the token |
| `AgentTask.Reconciler.MintAndSaveToken` | internal/controller/agenttask_controller.go:588-684 | without a minter nothing happens; otherwise the token is live exactly when the save took, even if an error was reported |
| `AgentTask.Reconciler.RevokeToken` | internal/controller/agenttask_controller.go:688-711 | a token already revoked counts as success; otherwise it is revoked exactly when the write took |
| `AgentTask.Reconciler.StopCompute` | internal/controller/agenttask_controller.go:193-203 | a suspender suspends, a plain pod provider tears down, others and unresolved ones do nothing |
| `AgentTask.Reconciler.PausePatch` | internal/controller/agenttask_controller.go:206-219 | the paused status drops the pod name exactly for pod providers |
| `AgentTask.Reconciler.UpdateFinalizer` | internal/controller/agenttask_controller.go:161-176 | the finalizer changes exactly when the update took |
| `AgentTaskStep.PhaseExactly` | internal/controller/agenttask_controller.go:103-500 | for each phase other than its own, a task goes there if and only if it is operated, the patch takes and the reason of that edge holds, told by the task and the outcomes of the calls: limits, timeout, gate, suspension, provider, poll, minting, resuming |
| `AgentTaskStep.TokenExactly` | internal/controller/agenttask_controller.go:115-167 | a token is live afterwards if and only if it was or was minted, and was neither revoked nor deleted; there is none if and only if there was none and none was minted, or it was deleted |
| `AgentTaskStep.FinalizerExactly` | internal/controller/agenttask_controller.go:115-176 | a held finalizer falls if and only if the task is being deleted, teardown and token deletion succeeded and the update takes; a missing one is taken if and only if the update takes on a task not being deleted |
| `AgentTaskStep.PodNameExactly` | internal/controller/agenttask_controller.go:192-490 | the pod name is dropped by a pause of a pod provider and by a resume without a pod, learnt from provisioning and polls, and otherwise kept |
| `AgentTaskStep.LeavesOthersAlone` | internal/controller/agenttask_controller.go:103-500 | no reconcile touches specification, usage counts or deletion mark |
| `AgentTaskStep.ErrorFreeAchieves` | internal/controller/agenttask_controller.go:103-539 | without an error everything there was to do is done: timed out means failed, over a limit or suspended means paused, ended means completed or failed, all without a live token; new means provisioned with one; deleted means let go |
| `AgentTaskStep.AllWellIsErrorFree` | internal/controller/agenttask_controller.go:103-539 | an error needs a call that failed |
| `AgentTaskStep.TimeoutIsEnforced` | internal/controller/agenttask_controller.go:341-367 | an active task past its timeout fails if and only if the teardown succeeds and the patch takes, and an error-free reconcile leaves it no live token |
| `AgentTaskRuns.LiveTokenOnlyWhenRunnable` | internal/controller/agenttask_controller.go:179-500 | after an error-free reconcile with the gate on and the finalizer held, a live token implies not suspended and Pending, Provisioning or Active |
| `AgentTaskRuns.ErrorFreeReconcileInAnyRun` | internal/controller/agenttask_controller.go:103-539 | the same in every run from creation, with users, the meter server and failing reconciles in between |
| `AgentTaskRuns.LiveTokenWhilePaused` | internal/controller/agenttask_controller.go:179-490 | a reconcile leaves a paused task with a live token if and only if a condition on the task and the outcomes of its calls holds, branch by branch: gate off, suspended, unresolved, over a limit, resuming; never after an error-free reconcile with the gate on |
| `AgentTaskRuns.ClosedGateReachesIt` | internal/controller/agenttask_controller.go:179-189 | a run from creation that ends so, without any error, by closing the gate |
| `AgentTaskRuns.FailedResumeReachesIt` | internal/controller/agenttask_controller.go:465-484 | one whose resume fails after minting a new token |
| `AgentTaskRuns.LostRevokeReachesIt` | internal/controller/agenttask_controller.go:369-400 | one that passes its iteration limit and whose revocation is lost |
| `AgentTaskRuns.UnseenPauseReachesIt` | internal/controller/agenttask_controller.go:192-228 | one whose pause is stored although the patch reports an error |
| `AgentTaskRuns.RunKeepsInvariant` | internal/controller/agenttask_controller.go:103-176 | in every run a token exists only while the finalizer is held |
| `AgentTaskRuns.RunKeepsMark` | internal/controller/agenttask_controller.go:432-450 | in every run whose clock is never set back to before the creation, the active-since mark is at or after the creation |
| `AgentTaskRuns.StepKeepsMarkExactly` | internal/controller/agenttask_controller.go:432-450 | a step puts the mark behind the creation if and only if it writes it by a clock set back to before the creation |
| `AgentTaskRuns.StepKeepsInvariant` | internal/server/llm_meter.go:274-424 | one event, be it a reconcile, a user edit or a step of the meter server, keeps these invariants |
| `AgentTaskStep.PhaseChangeHasReason` | internal/controller/agenttask_controller.go:192-500 | a phase that changed had a status write that took and the reason belonging to that edge |
| `AgentTaskRuns.TerminalLeavesExactly` | internal/controller/agenttask_controller.go:179-242 | a finished task leaves its phase if and only if the patch takes and the gate is off, the task is suspended and its compute stopped, or the provider of a completed task does not resolve |
| `AgentTaskRuns.CompletedIsLeft` | internal/controller/agenttask_controller.go:179-189 | a run from creation in which a completed task is paused |
| `AgentTaskRuns.TerminalIsAbsorbing` | internal/controller/agenttask_controller.go:492-496 | Completed and Failed are kept in every run without suspension, closed gate or unresolved provider |
| `AgentTaskRuns.ResumeDoesNotTimeOut` | internal/controller/agenttask_controller.go:432-490 | a reconcile that leaves Paused finds the task timed out at that instant if and only if its clock was set back by more than the timeout between its two readings, although the mark is cut to whole seconds as in section 5.6 of RFC 3339 |
| `AgentTaskRuns.TaskEditor.ApplyResume` | internal/cli/task_client.go:103-129 | refused arguments change nothing; otherwise the exact new limits, wrapping as int32 and int64, never leave the iteration limit exceeded |
| `AgentTaskRuns.WrappedBumpLifts` | internal/cli/task_client.go:124-126 | five more iterations exceed the count, or wrap to a negative limit, which is no limit |
| `AgentTaskRuns.ResumeIsNotSelfDefeating` | internal/controller/agenttask_controller.go:341-490 | a task resumed within its limits runs again after the next error-free reconcile, and a reconcile at the same instant neither pauses it nor fails it, unless the sandbox itself broke |
| `ConfigWatcher.EmptyDiffMeansEqual` | internal/cli/configwatch.go:250-273 | the diff is empty exactly when the environments are equal |
| `ConfigWatcher.PollFollowsGroup` | internal/cli/configwatch.go:109-151 | after a poll of a running group the remembered environment is the group's, other polls leave a known one alone, and exactly the changes of a known one are announced |
| `ConfigWatcher.DiffTellsChange` | internal/cli/configwatch.go:250-273 | from the same environment, equal announcements come from equal changes: a diff tells additions, removals and new values apart |
| `ConfigWatcher.Watcher.ComputeEnvDiff` | internal/cli/configwatch.go:250-273 | in any iteration order, one described entry for exactly the keys that differ |
| `ConfigWatcher.Watcher.SyncOnce` | internal/cli/configwatch.go:109-151 | a change is stored and announced only while the group is running; the first environment ever seen is stored without an announcement |
| `Supervisor.Process.RecordChildExit` | internal/cli/supervisor.go:216-232 | a rapid exit counts and opens the breaker at the third, a slow one resets the count |
| `Supervisor.Process.RequestRestart` | internal/cli/supervisor.go:160-167 | a request is dropped exactly when one is pending |
| `Supervisor.Session.Play` | internal/cli/supervisor.go:64-200 | any possible interleaving of watcher, supervisor, children and signals, carried out on the objects, ends in the state the run function gives |
| `Supervisor.Session.Poll` | internal/cli/configwatch.go:109-151 | a poll as one step of the protocol |
| `Supervisor.Session.Announce` | internal/cli/dev.go:550-552 | the announcement, after the store, as a step of its own |
| `Supervisor.Session.BuildEnv` | internal/cli/dev.go:530-548 | the environment is read before, and apart from, the start of the process |
| `Supervisor.Session.StartChild` | internal/cli/supervisor.go:170-200 | a start adds a child built from the environment read; a failed start ends the run |
| `Supervisor.Session.SeeExit` | internal/cli/supervisor.go:84-108 | an exit on its own is recorded and waits for a request, or ends the run on shutdown |
| `Supervisor.Session.TakeRestart` | internal/cli/supervisor.go:122-132 | with the breaker open a request taken over a running child goes straight to a new start |
| `Supervisor.Session.Signal` | internal/cli/supervisor.go:110-120 | a signal stops a running child and returns after reaping it |
| `Supervisor.Session.Reap` | internal/cli/supervisor.go:132-155 | a restarted child is reaped and recorded before the next start; an open breaker waits |
| `Supervisor.NoChangeIsLost` | internal/cli/supervisor.go:71-200 | in every interleaving, unless the first sync came after the environment was first read, the running child, or with a closed breaker the one that exited on its own and is waited for, was built from the latest environment, or a restart is pending or under way, or the watcher is between storing and notifying |
| `Supervisor.LateFirstSyncIsMissed` | internal/cli/configwatch.go:145-150 | from any state in which nothing is lost, a step loses a change if and only if it is the first sync, the environment was read before it, by a child running, waited for or about to start, and no request is pending |
| `Supervisor.LateFirstSyncIsReachable` | internal/cli/configwatch.go:145-150 | runs from the start that lose it, before and after the child is started |
| `Supervisor.BreakerAndReaping` | internal/cli/supervisor.go:64-157 | in every run the counter is the trailing streak of rapid exits, the breaker is open if and only if three exits in a row were rapid, and until then at most one child lives and none after the return |
| `Supervisor.SecondChildExactly` | internal/cli/supervisor.go:122-132 | a second child becomes possible at exactly one kind of step: a request taken over a running child with the breaker open |
| `Supervisor.OpenBreakerStillRestarts` | internal/cli/supervisor.go:122-155 | with the breaker open a restart begins if and only if a request is taken: all it stops is the restart right after a reap |
| `Supervisor.ArrivesExactly` | internal/cli/supervisor.go:64-200 | where each step of the supervisor leads, if and only if, with the breaker read off the history of exits |
| `Supervisor.ReapRestartsExactly` | internal/cli/supervisor.go:132-155 | a child stopped for a restart is followed by a start if and only if this is not the third rapid exit in a row |
| `Supervisor.RecordsExactly` | internal/cli/supervisor.go:84-167 | which exits are recorded, when a request is pending and when a child is counted |
| `Supervisor.StartsWithWhatWasRead` | internal/cli/supervisor.go:170-200 | a child runs in the environment that was read for it |
| `Supervisor.RequestIsCarriedOut` | internal/cli/supervisor.go:122-155 | from the moment a request is taken until a child is started or fails to, the restart is under way in every continuation, unless the breaker opens meanwhile |
| `Supervisor.LastStepTells` | internal/cli/supervisor.go:64-157 | in every run a child is waited for if and only if the supervisor's last step started it, and with a closed breaker it waits without one if and only if the last child exited on its own |
| `Supervisor.BreakerDropsChangeExactly` | internal/cli/supervisor.go:132-150 | with the first sync in time, a change already taken up is dropped if and only if the stop for its restart is the third rapid exit in a row and nothing newer is on its way |
| `Supervisor.DroppedChangeIsReachable` | internal/cli/supervisor.go:132-150 | a run from the start that drops one |
| `Supervisor.LatestIsLastPolled` | internal/cli/configwatch.go:109-151 | in every run the remembered environment is that of the last poll that found the group running |
| `Supervisor.LeakIsReachable` | internal/cli/supervisor.go:127-129 | two live children, and a return with a live child, do occur in runs from the start |
| `Supervisor.RunKeepsInvariant` | internal/cli/supervisor.go:64-232 | numbering, breaker, one-child and freshness invariants are kept by every run |
| `Tunnel.ReadFull` | internal/cli/tunnel_client.go:339-345 | io.ReadFull over short, empty and eager reads: the bytes read and the rest make the body, and a short read reports an empty, a partial or truncated, or a broken body |
| `Tunnel.HandleAndStream` | internal/cli/tunnel_client.go:312-420 | for every schedule of reads, one header first, one final frame last, chunks of at most 32768 bytes that join to the bytes the body yielded, in a single frame exactly when they do not fill a chunk; a body that breaks within the first chunk, other than by truncation, gives one error frame |
| `Tunnel.PassesForCompleteExactly` | internal/cli/tunnel_client.go:343-418 | the answer to a response could be the answer to the same response ended cleanly if and only if the response is delivered, that is unless it broke within the first chunk other than by truncation, or itself is the error frame |
| `Tunnel.EndIsInvisible` | internal/cli/tunnel_client.go:382-418 | whatever frames answer a delivered response answer it with any other end that is delivered, so no receiver can tell a clean end from a truncation or a late break |
| `Tunnel.LateBreakIsASuccess` | internal/cli/tunnel_client.go:401-418 | a body that breaks right after its first chunk is closed like a whole one |
| `Tunnel.TruncationIsInvisible` | internal/cli/tunnel_client.go:343-363 | a response truncated within the first chunk sends the very frames of a whole response with the same bytes |
| `Tunnel.EmptyTruncationIsASuccess` | internal/cli/tunnel_client.go:343-363 | a body of which nothing arrived is answered as an empty success |
| `Tunnel.StreamRest` | internal/cli/tunnel_client.go:382-420 | the loop over the reused buffer ends with exactly one final frame |
| `Tunnel.DemuxRestores` | internal/cli/tunnel_client.go:346-419 | however sends interleave, the frames of each id come out in order and unmixed |
| `Tunnel.EveryBodyArrives` | internal/cli/tunnel_client.go:312-434 | for any number of concurrent requests, demultiplexing by id gives each answer whole, with one final frame and nothing after it; which of the responses pass for complete is exact here too |
| `Tunnel.EveryPrefixIsSound` | internal/cli/tunnel_client.go:312-434 | at every moment what arrived is a beginning of it, and final only if it is all of it |
| `PreviewRouting.SanitizeDNSLabel` | internal/cli/replay.go:504-521 | the byte loop computes the DNS token of an identifier |
| `PreviewRouting.SanitizeIsCanonical` | internal/cli/replay.go:504-521 | the result has only lower-case letters, digits and single inner hyphens, and sanitizing again changes nothing |
| `PreviewRouting.SanitizeIsWords` | internal/cli/replay.go:504-521 | the token is the words of the identifier in lower case, cut at hyphens, dots and underscores and joined by hyphens, without any other character |
| `PreviewRouting.TokenMatchIsBoundedOccurrence` | internal/cli/replay.go:524-532 | the four tests together hold if and only if the token occurs bounded by hyphens or the ends of the label |
| `PreviewRouting.IsGeneratedChildEnvLabel` | internal/cli/replay.go:435-485 | true if and only if the label splits as pg-{group}-{service}-{hash8} between hyphens, with a nonempty group and the matching hash |
| `PreviewRouting.ScanLabel` | internal/cli/replay.go:440-485 | skipping three bytes after each occurrence misses none |
| `PreviewRouting.ScanNeedles` | internal/cli/replay.go:452-483 | for one start every later occurrence of the service is tried |
| `PreviewRouting.TestHash` | internal/cli/replay.go:456-482 | one candidate position is accepted if and only if group, boundary and hash are right |
| `ServiceSelection.SelectServiceURL` | internal/cli/replay.go:328-416 | the three loops choose a URL, report ambiguity or leave the question open as the declarative choice does |
| `ServiceSelection.SelectByHost` | internal/cli/replay.go:360-415 | template, child-environment and name tests, in this order; the first with a match decides |
| `ServiceSelection.TestChildEnv` | internal/cli/replay.go:419-432 | the test for a child environment of the group |
| `ServiceSelection.SelectionIgnoresOrder` | internal/cli/replay.go:328-416 | permuting the services changes neither the URL nor the ambiguity verdict |
| `ServiceSelection.SelectionIsMember` | internal/cli/replay.go:328-416 | a chosen URL is the URL of a service, and the question stays open if and only if no service has one |
| `ServiceSelection.SelectExactly` | internal/cli/replay.go:328-416 | a URL is chosen if and only if only one service has one, or the request names a host and one service stands out |
| `ServiceSelection.ChoiceExactly` | internal/cli/replay.go:360-415 | a service stands out, and is chosen, if and only if it passes one of the three tests and every other service passes only later ones or none |
| `ServiceSelection.ChildEnvExactly` | internal/cli/replay.go:419-432 | the child-environment test holds if and only if the host names the environment, or names a generated label in the service's own URL, or is itself generated for the service |
| `ServiceSelection.RefURLExactly` | internal/cli/replay.go:342-348 | which URL tells the host: the given one, else the first absolute request, else an external one that is no template |
| `ServiceSelection.TemplateExpands` | internal/cli/replay.go:367-379 | every placeholder of a template is replaced and nothing else is |
| `ServiceSelection.TemplateFindsService` | internal/cli/replay.go:361-380 | a request to the host the template gives for a service matches it |
| `ServiceSelection.NamesHostExactly` | internal/cli/replay.go:403-412 | a host names a token if and only if it is the token or its first label holds it between hyphens or ends |
| `ObjectStorage.StorageIsolation` | internal/async/storage.go:131-157 | an object key under the prefixes of two environments with slash-free names forces equal namespace and equal name |
| `ObjectStorage.PrefixShape` | internal/async/storage.go:131-157 | the prefix of such an environment is its namespace, its name and the target, slash by slash |
| `ObjectStorage.TargetsShareExactly` | internal/async/storage.go:131-157 | two targets of one environment can share an object key if and only if they are the same or one of them is the default, whose prefix covers the whole environment |
| `ObjectStorage.SanitizeSuffix` | internal/async/storage.go:168-191 | the byte loop computes the variable suffix of a target |
| `ObjectStorage.SuffixIsWords` | internal/async/storage.go:168-191 | the suffix of a named target is its words in upper case joined by underscores, and DEFAULT if there are none |
| `ObjectStorage.CountRoutes` | internal/async/storage.go:208-217 | default-mapped storage routes, and those with the same suffix |
| `ObjectStorage.Provision` | internal/async/storage.go:194-261 | refuses a suffix shared by several routes, otherwise writes the plain or the suffixed variables |
| `ObjectStorage.ProvisionedExactly` | internal/async/storage.go:222-247 | a variable is written with a value if and only if it is one of the six under one of the endings of the route, with prefix, bucket or endpoint as its name says, the last two only if known |
| `ObjectStorage.RefusedExactly` | internal/async/storage.go:208-220 | a route is refused if and only if two default-mapped storage routes share its suffix |
| `ObjectStorage.NamesApart` | internal/async/storage.go:224-245 | a variable name determines which variable it is and its suffix |
| `ObjectStorage.NoVariableCollision` | internal/async/storage.go:194-261 | two default-mapped routes of one environment that both provision write no variable in common |
| `ObjectTeardown.DeleteBatch` | internal/async/storage.go:460-507 | nil means the whole batch is gone, unless the success reply did not decode; never another key goes; nil if and only if the batch is accepted, or answered with 405 or 501 while every single delete works |
| `ObjectTeardown.AcceptedMeansGoneExactly` | internal/async/storage.go:496-506 | an accepted batch reply guarantees that the batch is gone if and only if its body decodes or there was nothing to remove |
| `ObjectTeardown.DeleteEach` | internal/async/storage.go:509-532 | single deletes, where an object already gone is no error; nil if and only if each of them, in the state the others left, is answered with 2xx or 404 |
| `ObjectTeardown.FallbackServes` | internal/async/storage.go:487-495 | a store that answers 405 or 501 to batches does its part as well as any, if its listings and single deletes work |
| `ObjectTeardown.TeardownS3` | internal/async/storage.go:394-458 | against a conforming listing without other writers it terminates and removes only keys under the prefix; nil from a store whose success replies decode leaves the bucket minus exactly those keys; a store whose listings succeed and whose batches work, by fallback or not, gives nil |
| `ObjectTeardown.TeardownGCS` | internal/async/storage.go:288-364 | the same with a blank token as the end and single deletes, which give nil when they and the listings work |
| `ObjectTeardown.Teardown` | internal/async/storage.go:265-286 | a blank environment name is refused and an unset bucket or endpoint accepted, both with nothing removed; a store that does its part gives nil |
| `ObjectTeardown.PageDone` | internal/async/storage.go:394-458 | a page that was deleted whole leaves every remaining key beyond its token |
| `ObjectTeardown.PageShrinks` | internal/async/storage.go:394-458 | a page, deleted whole or in part, moves the unlisted keys strictly down and touches no other key |
| `ObjectTeardown.OtherEnvironmentsSpared` | internal/async/storage.go:265-458 | objects of another environment survive every teardown, failing ones included |
| `DriftLedger.Reconciler.ReconcileDeploy` | internal/controller/environment_deploy.go:18-86 | on every exit annotation, conditions and deploys are as the ledger function says |
| `DriftLedger.Reconciler.ReconcileBaselineDrift` | internal/controller/environment_drift.go:345-449 | record, agree, sync or warn, with the annotation put back after a sync that fails |
| `DriftLedger.Reconciler.PersistAnnotation` | internal/controller/environment_drift.go:360-376 | memory follows only a patch reported as done |
| `DriftLedger.ReadyExactly` | internal/controller/environment_deploy.go:18-86 | a reconcile goes through if and only if what is recorded can be compared, Deploy succeeds and a sync is stored; the ready condition says which on every exit |
| `DriftLedger.DeploysExactly` | internal/controller/environment_deploy.go:18-79 | how many Deploys there were and the fingerprint each saw |
| `DriftLedger.StoredExactly` | internal/controller/environment_drift.go:345-449 | what is stored afterwards and what the drift condition says, for every outcome |
| `DriftLedger.PolicyExactly` | internal/controller/environment_drift.go:349-405 | the policy is ignore or sync if and only if the annotation spells that word, in any case and between any blanks; anything else warns |
| `DriftLedger.StoredIsWhatDeploySaw` | internal/controller/environment_deploy.go:18-86 | with the baseline fixed and readable, an error-free reconcile ran Deploy exactly once and the stored fingerprint is blank or the one it saw |
| `DriftLedger.MovedBaselineIsRecorded` | internal/controller/environment_deploy.go:80-86 | if the baseline moves between the two readings, the recorded fingerprint is the deployed one if and only if both readings agree |
| `DriftLedger.DriftConditionExact` | internal/controller/environment_drift.go:345-449 | for a policy that looks and a nonempty fingerprint, on every exit, the drift condition is True just when stored differs from current, if and only if it was written or the old one happens to be right about what is stored now; a reconcile that goes through, patch included, has written it |
| `DriftLedger.FailedSyncHidesDrift` | internal/controller/environment_drift.go:413-416 | a sync whose Deploy fails leaves the condition False although stored differs from current |
| `DriftLedger.SyncConverges` | internal/controller/environment_drift.go:404-433 | under sync, drift never outlives an error-free reconcile |
| `DriftLedger.InStepExactly` | internal/controller/environment_drift.go:360-421 | on every exit of every reconcile memory equals store, except exactly when the patch took although an error came back, or no patch took and a sync put a stored value back without its blanks or an injected fingerprint was deleted over a blank one |
| `DriftLedger.InStepForAllExactly` | internal/controller/environment_drift.go:405-421 | patches that take unseen aside, all reconciles of a stored value stay in step if and only if it is absent or has no surrounding blanks |
| `DriftLedger.UnseenPatchParts` | internal/controller/environment_drift.go:360-376 | an unseen patch leaves the fingerprint stored and memory without it, in a reconcile that reports no error |
| `DriftLedger.InStepUpToBlanks` | internal/controller/environment_drift.go:345-449 | up to surrounding blanks memory and store agree on every exit, whatever was stored, if and only if no patch took unseen |
| `DriftLedger.EveryReconcileInStep` | internal/controller/environment_deploy.go:18-86 | in every run of a new environment, under changing policies and baselines and with unseen patches on the way, an exit leaves memory and store equal if and only if its own patch did not take unseen |
| `Fingerprint.Compute` | internal/controller/environment_drift.go:44-343 | the hashed text, or the verdict without one, is the canonical text of three sets of objects |
| `Fingerprint.OrderDoesNotMatter` | internal/controller/environment_drift.go:53-343 | permuting or repeating services, list results, manifest keys or secret references changes nothing |
| `Fingerprint.CollectTargets` | internal/controller/environment_drift.go:53-68 | the set of nonblank trimmed service names |
| `Fingerprint.MatchDeployments` | internal/controller/environment_drift.go:77-90 | exactly the matching deployments, each once |
| `Fingerprint.CollectRefs` | internal/controller/environment_drift.go:98-145 | the referenced names as a set, repeats merged |
| `Fingerprint.CollectEnvSecrets` | internal/controller/environment_drift.go:147-164 | secret references of the environment in its own namespace |
| `Fingerprint.FetchAll` | internal/controller/environment_drift.go:201-233 | in any order of the keys: fails if and only if some read fails, otherwise finds exactly the existing objects |
| `Fingerprint.SortBy` | internal/controller/environment_drift.go:92-96 | sorting a duplicate-free list by a key that tells its members apart gives the one key-ordered list of their set |
| `Fingerprint.OrderUnique` | internal/controller/environment_drift.go:212-216 | there is only one key-ordered list of a set |
| `Fingerprint.WriteMap` | internal/controller/environment_drift.go:300-307 | one line per entry in key order, whatever the iteration order of the map |
| `Fingerprint.WriteStream` | internal/controller/environment_drift.go:276-339 | deployments, then config maps, then secrets |
| `Fingerprint.DifferentConfigMapsSameText` | internal/controller/environment_drift.go:298-307 | two config maps with one text: a value with a newline can spell another entry |
| `FingerprintReading.OwnTextExactly` | internal/controller/environment_drift.go:298-319 | the text of a config map is the text of no other if and only if it has no data entries, or one entry and nothing else, whose value spells neither a later entry nor a run of binary lines |
| `FingerprintReading.PlainConfigMapsApart` | internal/controller/environment_drift.go:298-319 | config maps whose values are single lines have different texts unless key, data and digests of the binary data agree |
| `FingerprintReading.OtherReading` | internal/controller/environment_drift.go:298-319 | every other config map has the text of another, which is constructed |
| `FingerprintReading.TwoSections` | internal/controller/environment_drift.go:304-318 | data and binary lines without newlines inside are read back from their text |
| `SecretReading.PlainSecretsApart` | internal/controller/environment_drift.go:321-339 | secrets with a single-line type have the same text if and only if path, type and the digests of the merged data agree, so a rotated value shows |
| `SecretReading.OwnSecretTextExactly` | internal/controller/environment_drift.go:321-339 | whatever its type, a secret has its text to itself if and only if it holds no data and its type does not end in lines of data |
| `SecretReading.StringDataWins` | internal/controller/environment_drift.go:323-329 | string data is written over data |
| `DeploymentReading.PlainDeploymentsApart` | internal/controller/environment_drift.go:240-296 | deployments of single-line values with the same text agree in path, pod annotations and, container by container, in name, image, command, arguments, ports, variables with their references and imported environments |
| `DeploymentReading.ContainerApart` | internal/controller/environment_drift.go:240-274 | the lines of a container are read back, but for a list of one empty word, which is written like none |
| `FingerprintStream.EveryChangeShows` | internal/controller/environment_drift.go:236-339 | on plain inputs the text to be hashed changes if and only if something that counts of a covered object changes, an object appears or one disappears |
| `FingerprintStream.RotationShows` | internal/controller/environment_drift.go:321-339 | a covered secret written anew changes the text as soon as its type or the digest of one of its values differs |
| `FingerprintStream.OneSecretRotated` | internal/controller/environment_drift.go:321-339 | the same for an environment that refers to one secret and nothing else |
| `FingerprintStream.VerdictExactly` | internal/controller/environment_drift.go:201-236 | unreadable if and only if an object that is referred to cannot be read, no baseline if and only if there is nothing to cover |
| `FingerprintStream.ObjectsApart` | internal/controller/environment_drift.go:276-339 | objects with equal lines are of one kind and agree in all that counts |
| `FingerprintStream.MatchedExactly` | internal/controller/environment_drift.go:77-90 | with services named the baseline is what they name, without any what is labelled so; previews and whatever belongs to an environment never count |
| `FingerprintStream.ConfigMapKeysExactly` | internal/controller/environment_drift.go:98-199 | a config map is read if and only if it is a manifest or a matched deployment refers to it, from any container or volume |
| `FingerprintStream.SecretKeysExactly` | internal/controller/environment_drift.go:98-164 | a secret is read if and only if the environment lists it for its own namespace or a matched deployment refers to it |
| `SettingsMerge.MergeAssociative` | internal/config/config.go:382-530 | merging layers is associative |
| `SettingsMerge.MergeIdentity` | internal/config/config.go:382-530 | the empty layer is the identity on both sides |
| `SettingsMerge.OnlyLastOccurrence` | internal/config/config.go:373-377 | of a layer applied twice only the last application matters |
| `SettingsMerge.RepeatedLabel` | internal/config/config.go:373-377 | only the last occurrence of a repeated label matters |
| `SettingsMerge.PrecedenceExactly` | internal/config/config.go:364-380 | each field is set by the last label that sets it, else by the environment type, else by the defaults |
| `SettingsMerge.LastNonEmptyWins` | internal/config/config.go:382-530 | every field, flags and lists included, has the value of the last layer that sets it, and none if no layer does |
| `SettingsMerge.LastOverrideWins` | internal/config/config.go:493-516 | a feature override exists if and only if some layer has it, and comes from the last such layer |
| `SettingsMerge.LayersKeepValidity` | internal/config/config.go:88-99 | banner, features and dev settings of valid layers merge to valid ones, for any number of layers |
| `SettingsMerge.ResolvedIsValid` | internal/config/config.go:236-305 | a configuration that validates resolves to valid banner, features and dev settings |
| `SettingsMerge.AtlasLayersValidExactly` | internal/config/config.go:127-156 | any number of valid atlas layers merge to a valid one if and only if the last settings of directory, schema, mode and the two config maps do not contradict one another |
| `SettingsMerge.ResolvedAtlasValidExactly` | internal/config/config.go:236-333 | a configuration that validates resolves to a valid atlas group under the same condition on its layers |
| `SettingsMerge.AtlasValidityCanBreak` | internal/config/config.go:127-156 | two valid atlas layers with an invalid merge |
| `ConfigResolve.Resolve` | internal/config/config.go:364-380 | on heap objects: defaults, environment type, labels in order, equal to the layered value; no existing object is changed |
| `ConfigResolve.MergeSettings` | internal/config/config.go:382-530 | a group the later layer sets is a new object, any other is the object of the earlier layer, and the value is the merge of the two values |
| `ConfigResolve.MergeBanner` | internal/config/config.go:404-422 | a copy is edited, never the layer it came from |
| `ConfigResolve.MergeAtlas` | internal/config/config.go:437-480 | a copy is edited, with the merged policy |
| `ConfigResolve.MergePolicy` | internal/config/config.go:469-478 | a policy set by the later layer goes into a new object |
| `ConfigResolve.MergeFeatures` | internal/config/config.go:491-518 | a copy with its own override map |
| `ConfigResolve.MergeOverrides` | internal/config/config.go:495-516 | the override map is rebuilt, so no layer sees an entry of another |
| `ConfigResolve.MergeDev` | internal/config/config.go:519-529 | a copy of the dev group |
| `ConfigResolve.LooksTheSame` | internal/config/config.go:364-380 | a struct reads the same as long as the objects it leads to are left alone |
| `AgentRunner.Runner.Run` | internal/agentrunner/runner.go:837-1014 | the loop terminates for every server, and result and trace are those of the run function |
| `AgentRunner.Runner.Round` | internal/agentrunner/runner.go:866-1003 | one pass of the loop either ends the run as the run function ends it or leaves exactly the rest of that run to do |
| `AgentRunner.Runner.Iterate` | internal/agentrunner/runner.go:866-906 | report, adopt the answer, stop unless accepted, then work |
| `AgentRunner.Runner.Work` | internal/agentrunner/runner.go:908-994 | agent, health, verify, delivery; a failed check goes on to the next iteration, a failed agent aborts |
| `AgentRunner.Runner.Check` | internal/agentrunner/runner.go:928-948 | health only with a preview URL, verify only with a command, and verify only after health passed |
| `AgentRunner.Runner.Deliver` | internal/agentrunner/runner.go:950-994 | a clean tree succeeds without a push; every failing git step aborts |
| `AgentRunner.Runner.ReportPullRequest` | internal/agentrunner/runner.go:980-991 | at most three reports, all with one id, none after a success |
| `AgentRunner.Runner.EnsureRunID` | internal/agentrunner/runner.go:409-423 | the id of a run is chosen once and kept |
| `AgentRunner.Runner.Adopt` | internal/agentrunner/runner.go:874-882 | a positive limit and a nonblank URL are taken over, others are not |
| `AgentRunnerRuns.RunEndsExactly` | internal/agentrunner/runner.go:837-1014 | a run ends with an outcome and an iteration count if and only if the outside says so: limits sent so far, reports, agent, checks, git steps |
| `AgentRunnerRuns.CommittedExactly` | internal/agentrunner/runner.go:950-1003 | a run is committed if and only if some iteration it gets to had an accepted report, a good agent, passed checks, something to commit, and a commit and a push that succeeded |
| `AgentRunnerRuns.EventsExactly` | internal/agentrunner/runner.go:866-994 | exactly which reports, agent commands, probes, verifications, pushes and pull-request reports a run leaves |
| `AgentRunnerRuns.ReportsExactly` | internal/agentrunner/runner.go:980-991 | a pull request is reported until a report succeeds, three times at most |
| `AgentRunnerRuns.DeliveryExactly` | internal/agentrunner/runner.go:950-1003 | an iteration commits if and only if there is something to commit and add, commit and push succeed; it succeeds without if and only if the tree is clean |
| `AgentRunner.IDsDiffer` | internal/agentrunner/runner.go:367-406 | usage ids of different iterations differ, and none is the id of a pull-request report |
| `AgentRunner.EveryRunIsGood` | internal/agentrunner/runner.go:837-1014 | for every outside behaviour: each agent command directly follows an accepted report of its iteration; at most one push, only after the checks of that same iteration passed with no agent command in between; a committed run has pushed; request ids of a named task are distinct |
| `AgentRunner.DistinctIDsExactly` | internal/agentrunner/runner.go:367-406 | the request ids of a run are distinct whatever happens outside if and only if the task has a name or the limit allows no iteration |
| `AgentRunner.NamelessRepeats` | internal/agentrunner/runner.go:367-406 | without a name the first usage report and the pull-request report share an id |
| `AgentRunner.RunIsBounded` | internal/agentrunner/runner.go:866-882 | no iteration goes past the largest limit the run started with or was sent |

## Left out

- AgentTask.Reconciler.Reconcile: a reconcile reads and writes one up-to-date task; stale caches and concurrent writers within one reconcile appear only as failing patches.
- AgentTaskRuns.TaskEditor.ApplyResume: USD amounts are exact reals, so the rounding of a bumped budget to two decimals is not modelled.
- Supervisor.Session.Play: the endless select loop is cut into its atomic pieces, played in any possible order; a race on the command field while two children live is not modelled.
- Tunnel.HandleAndStream: sends do not fail, and headers, reconnects and pings are not modelled.
- RedisTeardown.Teardown: dialling, AUTH and SELECT are left out; a deadline is a peer with no turns left; error texts are short.
- RedisTeardown.EscapeGlob: bytes, not runes; invalid UTF-8, which the source would replace, is not modelled.
- ObjectTeardown.TeardownS3: assumes listings that advance and tokens without surrounding blanks; a truncated page with a blank token would end the loop early. Its nil is exact only for stores whose success replies decode.
- ObjectStorage.Provision: explicit variable mappings of a route are not modelled, only default-mapped routes.
- ServiceSelection.SelectServiceURL: URL parsing is an uninterpreted function; lower-casing and case folding are ASCII.
- FingerprintStream.EveryChangeShows: for inputs whose written values are single lines and whose commands do not hold the text that opens the arguments; a list of one empty word reads as none.
- Fingerprint.Compute: the SHA-256 of the text and of binary values is uninterpreted; the lookup of manifest config maps is a parameter; failing list calls and the full deploy mode, which end before any text is built, are not modelled.
- DriftLedger.Reconciler.ReconcileDeploy: baseline and Deploy are parameters; events, messages and requeue times are left out.
- AgentRunner.Runner.Run: clone, checkout, token refresh, guidance files and pull-request creation are left out or appear as outcomes only.
- The other queries of the service graph: ingress paths, upstream callers, merging and discovery.
- A zero creation timestamp, a user-written active-since annotation, status messages, notifiers, audit events and the linked preview environment's own fields.
- What the capability token contains, and how it is minted and signed; SigV4 signing and MD5 of object-store requests.
- Redis endpoints that are not configured, for which teardown does nothing.
- Kafka, Temporal, webhook and no-op provisioners; the target naming of Kafka is not injective, so there is no isolation to prove.
- The deployers, Argo CD manifests, admission webhooks, generated deep copies, schema generation and changed-file detection.
- The other commands of the client and their output, tunnel authentication and discovery, and the MCP server.
