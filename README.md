# PyEx-spoof exploration scheduler and argument binding, in Dafny

This project models the two core pieces of PyEx-spoof, a concolic
(concrete + symbolic) tester for Python functions:

* the control plane of `ExplorationEngine` (symbolic/explore.py): the
  priority queue `constraints_to_solve` of `(timeout, constraint)` pairs, the
  fixed worker-slot table `worker_pool` / `worker_jobs`, the attempt counter
  `outstanding_constraint_attempts`, the set `solved_constraints`, the
  append-only `generated_inputs` and `execution_return_values`, and the
  channel `finished_queries` of solver results; the main loop of `explore`
  that launches solver processes, escalates timeouts, archives given-up
  branches, cancels redundant solvers and re-runs the target on every model;
* argument binding in symbolic/loader.py: `FunctionInvocation`'s table from
  parameter name to (initial value, constructor), the checks of
  `FunctionLoader.createInvocation` on the `@concrete` and `@symbolic`
  declarations, and the module name `Loader.__init__` derives from the file
  name.

Files and modules:

* `wrappers.dfy` (`Wrappers`): `Option` and `Result`.
* `strings.dfy` (`Strings`): `str.rfind` and `in` on strings.
* `loader.dfy` (`Loader`): symbolic/loader.py. `FunctionInvocation` is a class
  whose maps the methods update; `CreateInvocation` runs the three loops of
  `createInvocation` and returns `Result<FunctionInvocation, LoadError>`, where
  each `LoadError` is one of the `ImportError`s the source raises.
* `slots.dfy` (`WorkerSlots`): the slot table (slot `k` is worker id `k + 1`),
  `central_queue`, the reaping done by `_runningSolvers`, and the queue as a
  multiset from which `get` takes some entry of least timeout.
* `tags.dfy` (`ExceptionTags`): the `"filename:line"` tag of the innermost
  traceback frame outside the instrumentation.
* `schedule.dfy` (`Schedule`): the engine's fields as a value `EngineState`,
  every step of the engine as a function on it (`Launch`, `Dispatch`,
  `NoModel`, `Cancel`, `Execute`, `Consume`, `Reap`, ...) and lemmas that
  state what each step guarantees, all under one invariant `Inv`.
* `explore.dfy` (`Explore`): the class `ExplorationEngine` with the source's
  fields; each method is proved to perform exactly one `Schedule` step on the
  snapshot `State()` of its fields, so the `Schedule` lemmas hold of it.

What the model abstracts:

* A constraint is an id into the table `nodes` (parent id, branch outcome,
  `processed`, recorded inputs). The path tracker and the target are one
  `Run`: the list of branches the call reaches for the first time, and
  whether it returned a value or raised with a traceback.
* A solver process is a `Handle` with an "alive" bit and a "has posted" bit.
  What processes do between two looks of the scheduler is a sequence of
  `Event`s supplied by the caller: a process posts SAT with a model, UNSAT or
  UNKNOWN (and exits or not), or it dies.
* Timeouts are integers (milliseconds); the default ladder is
  `[130, 260, ..., 33280]`, which `sorted(set(...))` leaves unchanged.

Behaviours of the code that the model keeps as written:

* The code archives an `"UNSAT"` result at once, at any rung. Only a result
  with no model that is not `"UNSAT"` climbs the timeout ladder
  (symbolic/explore.py:133).
* The code reaps a dead solver process without re-queueing its job
  (symbolic/explore.py:187-191). Its constraint stays `processed` and is not
  tried again.
* The code breaks queue ties by comparing constraint objects, not by arrival
  order (symbolic/explore.py:38, 98). The model lets `get` return any entry
  of least timeout.
* A run that raises leaves the constraints it found in `new_constraints`.
  They are queued only after the next run that returns
  (symbolic/explore.py:258-263).
* A result without a model is counted down (symbolic/explore.py:120) before
  the running check at line 130. If the solver process that sent it has not
  been reaped yet, that check finds the process's own slot and skips the
  result. The constraint is then neither re-queued nor archived, and the
  model keeps this (`Schedule.ConsumeWaitsWhileSlotHeld`).

## Model

| member | source | states |
|---|---|---|
| `WorkerSlots.CentralQueue` | symbolic/explore.py:18-23 | returns the first slot, in id order, that holds no process, and `None` when every slot is busy; the timeout arguments play no part |
| `WorkerSlots.FirstFree` | symbolic/explore.py:19-23 | the slot found is free and every slot before it is busy; `None` only when all slots are busy |
| `WorkerSlots.BusyFull` | symbolic/explore.py:88 | `_runningSolvers() == len(worker_pool)` holds exactly when `central_queue` finds no free slot |
| `WorkerSlots.BusyZero` | symbolic/explore.py:192 | the count of busy slots is 0 exactly when every slot is `None` |
| `WorkerSlots.ReapedFacts` | symbolic/explore.py:186-192 | after reaping, a slot is busy iff it held a live process, the job table stays paired with the pool, and the count returned is the number of live processes |
| `WorkerSlots.ReapedIdempotent` | symbolic/explore.py:228-233 | reaping twice (as `_isExplorationComplete` does) leaves the same pool and job table as reaping once |
| `WorkerSlots.MinExists` | symbolic/explore.py:97-98 | a non-empty queue always has an entry of least timeout for `get` to return |
| `WorkerSlots.JobEntriesUpdate` | symbolic/explore.py:208-209 | overwriting one slot's job swaps exactly that job for the new one in the multiset of running jobs |
| `ExceptionTags.InnermostPlain` | symbolic/explore.py:267-270 | finds the innermost frame whose file name contains no instrumentation keyword; every frame inside it has one; `None` when all have one |
| `ExceptionTags.ExceptionTag` | symbolic/explore.py:263-273 | the traceback walk from the innermost frame outwards yields `"filename:line"` of that frame, or no tag |
| `ExceptionTags.InstrumentedAnywhere` | symbolic/explore.py:265-268 | a file name holding any of "pyexz3.py", "symbolic", "pydev", "coverage" anywhere is skipped |
| `ExceptionTags.TagSkipsInstrumentation` | symbolic/explore.py:267-273 | instrumentation frames below the target's frames do not change the tag |
| `ExceptionTags.TagRoundTrip` | symbolic/explore.py:271 | a note on the tag format, which nothing in the program parses: `"{}:{}".format(filename, line)` splits back at its last ':' into that file name and line, even when the file name holds ':' |
| `Loader.FunctionInvocation.constructor` | symbolic/loader.py:11-16 | a new invocation has its name and empty constructor and initial-value tables |
| `Loader.FunctionInvocation.AddArgumentConstructor` | symbolic/loader.py:23-25 | records the initial value and the constructor for that name; every other name keeps its entries; a new name is appended to the key order |
| `Loader.FunctionInvocation.GetNames` | symbolic/loader.py:27-28 | the names returned are distinct and are exactly the keys of the constructor table |
| `Loader.FunctionInvocation.CreateArgumentValue` | symbolic/loader.py:30-33 | a concrete argument always yields its declared value, whatever value is supplied; a symbolic one yields its type with that name and the supplied value, or the initial value when none is supplied |
| `Loader.DefaultIsInitialValue` | symbolic/loader.py:30-32 | omitting the value is the same as supplying `initial_value[name]` |
| `Loader.InitializeArgumentConcrete` | symbolic/loader.py:60-61 | binds the name to a constructor that ignores its inputs and yields the declared value, with that value as initial value |
| `Loader.InitializeArgumentSymbolic` | symbolic/loader.py:63-64 | binds the name to the symbolic type given, with the declared value as initial value |
| `Loader.BindConcrete` | symbolic/loader.py:72-78 | succeeds iff every `@concrete` name is a parameter; otherwise reports the first that is not; on success each is bound to a constant constructor of its value |
| `Loader.BindSymbolic` | symbolic/loader.py:79-94 | succeeds iff every `@symbolic` name is a parameter, not declared `@concrete`, with a value of symbolic type; otherwise reports the first failing name with the first check it fails |
| `Loader.BindSymbolicAt` | symbolic/loader.py:80-94 | one declaration: rejected as unknown, as declared twice, or for lack of a symbolic type, in that order, or bound to `getSymbolic` of its value |
| `Loader.BindDefaults` | symbolic/loader.py:95-97 | every parameter not yet bound becomes a symbolic integer at 0; bindings already made are kept |
| `Loader.NamesAreParameters` | symbolic/loader.py:95-98 | after all checks pass, the declared names plus the defaulted ones are exactly the parameters |
| `Loader.CreateInvocation` | symbolic/loader.py:67-98 | `Ok` iff all declarations pass the checks, else the error the source raises first; on success the bound names are exactly the parameters, each declaration is bound as declared, and every other parameter is a symbolic integer at 0 |
| `Loader.Basename` | symbolic/loader.py:38 | the base name holds no '/' and is the part of the path after its last '/' |
| `Loader.ComponentStart` | symbolic/loader.py:38 | the last path component starts just after a '/' (or at 0) and holds no '/' |
| `Loader.SplitExt` | symbolic/loader.py:39 | root + extension is the input; the extension is non-empty exactly when the last path component holds a '.' after some non-dot character; it then starts at the last '.' and holds no other '.' |
| `Loader.NewLoader` | symbolic/loader.py:36-41 | the module name is `splitext(basename(filename))[0]`: the base name minus its extension, equal to the base name exactly when that has no extension; it holds no '/', and the entry point equals it |
| `Loader.NewLoaderExample` | symbolic/loader.py:36-41 | the file "dir/target.py" gives module name and entry point "target" |
| `Schedule.DefaultLadderSorted` | symbolic/explore.py:26 | the default ladder is non-empty and strictly increasing, so `sorted(set(...))` keeps it as written |
| `Schedule.IndexOf` | symbolic/explore.py:132 | `list.index`: the first position holding the timeout |
| `Schedule.NextRung` | symbolic/explore.py:132-135 | `solvetimeouts[index + 1]` is the smallest rung above the current timeout: escalation never skips a rung |
| `Schedule.InitInv` | symbolic/explore.py:29-60 | the initial engine keeps the invariant, has an empty queue and no busy slot, and each argument is its constructor applied to its initial value |
| `Schedule.ReapFacts` | symbolic/explore.py:186-192 | reaping keeps the invariant and leaves the queue unchanged: a dead process's job is dropped, not re-queued; the busy slots afterwards are the live ones |
| `Schedule.CompleteMeans` | symbolic/explore.py:228-231 | exploration is complete iff the queue is empty, no process is alive and no finished result waits |
| `Schedule.AssignSlotKeepsJobs` | symbolic/explore.py:197-209 | taking a slot puts an occupant's job back on the queue at its recorded timeout: queued plus running jobs grow by exactly the new job, so none is lost |
| `Schedule.LaunchFacts` | symbolic/explore.py:194-210 | launching raises the attempt count of (id, timeout) by exactly one and no other count, leaves the first free slot running the job, marks it processed, leaves the queue alone and busies one more slot |
| `Schedule.DispatchFacts` | symbolic/explore.py:95-116 | only the selected entry leaves the queue; an already processed constraint is then dropped with nothing else changed, any other is launched on the first free slot |
| `Schedule.RunningSlot` | symbolic/explore.py:168-175 | `_running_constraint`: the first slot whose job is the constraint, or `None` when no slot runs it |
| `Schedule.NoModelWaits` | symbolic/explore.py:129-131 | a result with no model changes nothing while the constraint still runs on a slot or has attempts outstanding at that timeout |
| `Schedule.NoModelEscalates` | symbolic/explore.py:132-135 | otherwise a non-UNSAT result below the top rung re-queues the constraint at exactly the next, strictly larger rung with `processed` cleared |
| `Schedule.NoModelArchives` | symbolic/explore.py:133-140 | otherwise (UNSAT, or the top rung) a fresh node for the negated outcome is added under the same parent with no inputs, and nothing is queued |
| `Schedule.NoModelInv` | symbolic/explore.py:129-141 | handling a result with no model keeps the invariant and never touches slots, results, counters or outputs |
| `Schedule.CancelFacts` | symbolic/explore.py:143-150 | after the cancel loop no slot runs the constraint, every other slot is untouched and the queue is unchanged |
| `Schedule.CancelStep` | symbolic/explore.py:144-150 | each round of the cancel loop frees one busy slot, so the loop ends |
| `Schedule.ApplyModelFacts` | symbolic/explore.py:152-153 | every symbolic argument the model binds takes its value, a concrete one keeps its declared value, and unbound arguments are unchanged |
| `Schedule.RecordInitial` | symbolic/explore.py:33-36 | the tuple recorded for the first execution gives a `@concrete` argument its constant and a symbolic one its initial value, in argument order |
| `Schedule.RecordAfterModel` | symbolic/explore.py:152-153 | the tuple recorded after a model is taken over gives each symbolic argument the model binds the model's value, each `@concrete` argument its constant, and each argument the model leaves out its earlier value |
| `Schedule.DiscoverFacts` | symbolic/explore.py:63-64 | each new branch of a run becomes a fresh unprocessed node whose id is appended to `new_constraints`, in discovery order; existing nodes are unchanged |
| `Schedule.ExecuteFacts` | symbolic/explore.py:250-276 | one execution appends exactly one input tuple and one return value, keeping the two lists index-aligned, and leaves slots, results and counters alone |
| `Schedule.ExecuteReturned` | symbolic/explore.py:256-261 | a run that returns queues every id of `new_constraints` at `solvetimeouts[0]`, each carrying the current inputs, empties the list and records the value |
| `Schedule.ExecuteRaised` | symbolic/explore.py:263-276 | a run that raises queues nothing, keeps the found constraints in `new_constraints`, and records the exception with its frame tag as the return value |
| `Schedule.ConsumeSolved` | symbolic/explore.py:83-85 | a result for a constraint already solved is discarded with no state change |
| `Schedule.ConsumeOutcome` | symbolic/explore.py:83-159 | a result for a solved constraint changes nothing; one without a model leaves the solved set, the slots, the counter and the recorded inputs alone; one with a model solves its constraint, leaves no slot running it, counts one more processed constraint and records one more input |
| `Schedule.ConsumeWaitsWhileSlotHeld` | symbolic/explore.py:120-131 | a result without a model consumed while a slot still holds a job for the same constraint (the unreaped sender included) leaves the queue, the tree and the solved set as they were |
| `Schedule.ConsumeCounts` | symbolic/explore.py:120 | a result not discarded lowers the attempt count of its (id, timeout) by exactly one and changes no other count |
| `Schedule.SolveFacts` | symbolic/explore.py:143-159 | after a result with a model no slot runs that constraint, its id is solved, the processed count grows by one, and one execution ran on the inputs the model gives |
| `Schedule.ConsumeInv` | symbolic/explore.py:83-159 | consuming a result keeps the invariant, never shrinks the solved set and only appends to the outputs, keeping them aligned |
| `Schedule.PopFinished` | symbolic/explore.py:80-83 | the result taken off the channel refers to a launched job, and the rest of the channel keeps the invariant |
| `Schedule.Message` | symbolic/explore.py:213-216 | a solver posts its job's id and timeout, with a model exactly when the result is SAT |
| `Schedule.EnvEventFacts` | symbolic/explore.py:206-216 | a solver process changes only liveness and the channel; every result posted comes from a running job |
| `Schedule.TerminateAllFacts` | symbolic/explore.py:161-164 | after the `finally` clause no process is alive and nothing but liveness changed |
| `Schedule.WaitLoopFacts` | symbolic/explore.py:177-182 | a wait that ends leaves a result waiting or no process running, and changes neither the queue nor the bookkeeping |
| `Explore.InitialInputs` | symbolic/explore.py:35-36 | each argument's initial input is its constructor applied to its initial value |
| `Explore.ExplorationEngine.constructor` | symbolic/explore.py:29-60 | the engine starts in the initial state: default ladder, one free slot, nothing queued or recorded |
| `Explore.ExplorationEngine.AddConstraint` | symbolic/explore.py:63-64 | appends the constraint to `new_constraints` and changes nothing else |
| `Explore.ExplorationEngine.RunningConstraint` | symbolic/explore.py:168-175 | returns the first slot whose job is the constraint, or `None` |
| `Explore.ExplorationEngine.RunningSolvers` | symbolic/explore.py:186-192 | clears the pool and job entries of every dead process and returns the number of busy slots |
| `Explore.ExplorationEngine.DropDead` | symbolic/explore.py:187-191 | the loop leaves exactly the reaped pool and job table |
| `Explore.ExplorationEngine.IsExplorationComplete` | symbolic/explore.py:228-236 | true iff the queue is empty, no slot is busy after reaping and no result waits |
| `Explore.ExplorationEngine.ApplyEvent` | symbolic/explore.py:213-216 | a live process posts its result on the channel, or dies |
| `Explore.ExplorationEngine.ApplyEvents` | symbolic/explore.py:213-216 | the events of the processes, applied in order |
| `Explore.ExplorationEngine.Wait` | symbolic/explore.py:177-182 | polls until a result waits or no process runs, the processes acting between polls |
| `Explore.ExplorationEngine.QueueGet` | symbolic/explore.py:98 | removes one entry of least timeout from the queue |
| `Explore.ExplorationEngine.QueuePut` | symbolic/explore.py:107 | adds one entry to the queue |
| `Explore.ExplorationEngine.Scan` | symbolic/explore.py:95-107 | an entry of least timeout is selected iff the queue is non-empty and a slot is free; only it leaves the queue, every skipped entry is put back unchanged |
| `Explore.ExplorationEngine.TakeUntilFree` | symbolic/explore.py:97-104 | entries are taken in timeout order until `central_queue` finds a slot; taken plus remaining is the old queue |
| `Explore.ExplorationEngine.PutBack` | symbolic/explore.py:106-107 | the skipped entries are all put back on the queue |
| `Explore.ExplorationEngine.Preempt` | symbolic/explore.py:198-203 | an occupied slot's job goes back on the queue and the slot is cleared; a free slot is left alone |
| `Explore.ExplorationEngine.LaunchWorker` | symbolic/explore.py:194-210 | performs `Launch`: one more attempt counted, the first free slot running the job, the constraint processed |
| `Explore.ExplorationEngine.StartWorker` | symbolic/explore.py:205-210 | the constraint is marked processed and the slot holds a live process running `(timeout, constraint)` |
| `Explore.ExplorationEngine.HandleNoModel` | symbolic/explore.py:129-141 | performs `NoModel`: wait, escalate to the next rung, or archive the negated sibling |
| `Explore.ExplorationEngine.CancelRunning` | symbolic/explore.py:143-150 | performs `Cancel`: frees every slot running the constraint |
| `Explore.ExplorationEngine.UpdateSymbolicParameter` | symbolic/explore.py:218-219 | the argument becomes its constructor applied to the name and the new value; nothing else changes |
| `Explore.ExplorationEngine.UpdateFromModel` | symbolic/explore.py:152-153 | the inputs become `ApplyModel` of the old inputs and the model |
| `Explore.ExplorationEngine.RecordInputs` | symbolic/explore.py:244-248 | appends the concrete input tuple to `generated_inputs` |
| `Explore.ExplorationEngine.OneExecution` | symbolic/explore.py:250-276 | performs `Execute` for the run |
| `Explore.ExplorationEngine.Reach` | symbolic/explore.py:252-256 | the call of the target adds one node per new branch and reports it through `addConstraint` |
| `Explore.ExplorationEngine.DrainLoop` | symbolic/explore.py:258-261 | performs `Drain`: every new constraint is popped, given the inputs and queued at the lowest rung |
| `Explore.ExplorationEngine.HandleModel` | symbolic/explore.py:143-159 | performs `Solve`: cancel, adopt the model, execute, count as solved |
| `Explore.ExplorationEngine.ExecuteSolved` | symbolic/explore.py:155-159 | one execution, then one more processed constraint and the id solved |
| `Explore.ExplorationEngine.CancelAndUpdate` | symbolic/explore.py:143-153 | cancels the constraint's solvers, then adopts the model's values |
| `Explore.ExplorationEngine.CountSolved` | symbolic/explore.py:158-159 | one more processed constraint, and the id is in the solved set |
| `Explore.ExplorationEngine.ProcessFinished` | symbolic/explore.py:80-86 | takes the oldest finished result and performs `Consume` on it |
| `Explore.ExplorationEngine.ConsumeResult` | symbolic/explore.py:120-159 | performs `Consume`: discard, or lower the count and handle with or without a model |
| `Explore.ExplorationEngine.Step` | symbolic/explore.py:74-159 | one turn of the main loop keeps the invariant and the alignment of the outputs; it ends the loop only with an empty queue, no result waiting and every slot free |
| `Explore.ExplorationEngine.ResultTurn` | symbolic/explore.py:80-86 | a turn that takes the first finished result performs `Consume` on it (so `ConsumeOutcome` describes it), keeps the invariant, and only grows the solved set and the outputs |
| `Explore.ExplorationEngine.ScheduleTurn` | symbolic/explore.py:88-117 | with no result waiting: picks an entry exactly when the queue is non-empty and, after reaping, a slot is free; it then takes an entry of least timeout and performs `Dispatch` on it (which launches it unless it is processed); otherwise it performs `WaitLoop` and continues exactly when that wait ended |
| `Explore.ExplorationEngine.WaitTurn` | symbolic/explore.py:88-91 | a wait performs `WaitLoop` on the events and continues exactly when that loop ended; it keeps the invariant and leaves the queue, the solved set and the outputs unchanged |
| `Explore.ExplorationEngine.TerminateWorkers` | symbolic/explore.py:161-164 | performs `TerminateAll`: every process is stopped |
| `Explore.ExplorationEngine.FirstExecution` | symbolic/explore.py:68 | the first execution performs `Execute` on the initial state, so it appends one input tuple and one return value (`ExecuteFacts`) |
| `Explore.ExplorationEngine.MainLoop` | symbolic/explore.py:74-159 | the loop keeps the invariant; when it reports completion the queue and channel are empty and every slot is free |
| `Explore.ExplorationEngine.Explore` | symbolic/explore.py:67-166 | returns the recorded inputs, return values and tree; at least one execution was recorded; on completion nothing is queued or running; no process is alive on return |

## Left out

* Processes, the `multiprocessing.Queue`, `time.sleep` and `join` polling:
  what solver processes do is a sequence of `Event`s given by the caller, and
  `terminate` is clearing the alive bit.
* symbolic/cvc_wrap.py is not part of this model: the solver is the oracle
  behind `Answer` (SAT with a model, UNSAT, UNKNOWN). Its `tlimit-per` float
  arithmetic is left out.
* Float timeouts: the ladder is integer milliseconds.
* `coverage.Coverage`, every `print`, the wall-clock `starttime`, the
  `iterations` counter and `max_iterations` (fixed at 0, so the cap never
  fires).
* `Loader._reset`, `SourceFileLoader`, `sys.modules` handling and the
  "module already loaded" `ImportError`; `inspect.getargspec` (the parameter
  list is an input); `callFunction` and the function itself (a `Run`).
* `PathToConstraint`, `Constraint`, `Predicate` and `symbolic_types` are not
  part of this model. A constraint is its id, parent id, outcome,
  `processed` flag and inputs. A `Run` stands for `path.reset` and the
  tracker's replay only as far as it adds fresh nodes. `getAssertsAndQuery` is taken to mark the constraint
  processed. `addChild` of the negated predicate is taken to make a fresh node
  with no inputs; whether it would reuse an existing child is not modelled.
  `getSymbolic` knows integers and strings only.
* The `branch_id` print at symbolic/explore.py:125-127 and the re-check of
  `solved_constraints` at lines 122-123, which can never fire because lines
  84-85 already discarded such results.
* A model that binds a name with no argument constructor (a `KeyError` in
  the source) is not produced by the oracle: `CanPost` requires the model's
  names to be argument names.
* pyex-spoof.py, the command-line entry point.
* Explore.ExplorationEngine.Explore: the main loop runs for at most the
  turns in `script`, and a wait ends when its events run out; the contract
  therefore does not claim termination, only what holds when the loop
  reports completion.
* Explore.ExplorationEngine.Step: states the invariant and the completion
  condition; what each kind of turn does is stated by `ResultTurn`
  (`Consume`), `ScheduleTurn` (`Dispatch` exactly when an entry and a free
  slot exist, `WaitLoop` otherwise) and `WaitTurn` (`WaitLoop`).
* Schedule.Discover: a run only adds fresh nodes and never sets `processed`
  on a node that already exists. The path tracker, which marks nodes as it
  replays a branch, is not part of this model. So the check at
  symbolic/explore.py:113 drops only entries whose constraint a launch
  marked processed, a narrower case than in the program.
