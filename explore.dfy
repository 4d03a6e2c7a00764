/**
 * `ExplorationEngine` of symbolic/explore.py: the object that runs the
 * function under test, collects the branches it reaches, hands them to
 * solver processes with growing timeouts, and re-runs the function on every
 * model that comes back.
 *
 * Every method is proved to perform one transition of module Schedule on
 * the snapshot `State()` of the engine's fields, so the lemmas proved there
 * about the transitions hold of the engine.  The solver processes are not
 * code of this model: what they do between two looks of the scheduler is a
 * sequence of `Event`s the caller supplies, and what the function under
 * test does when called is a `Run`.
 */
module Explore {
  import opened Wrappers
  import opened Loader
  import opened WorkerSlots
  import opened ExceptionTags
  import opened Schedule

  /**
   * The loop of symbolic/explore.py:35-36: each argument's symbolic value,
   * built by its constructor from the initial value.
   */
  method InitialInputs(funcinv: FunctionInvocation) returns (inputs: map<string, ArgValue>)
    requires funcinv.Valid()
    ensures inputs == Init(Config(DEFAULT_SOLVE_TIMEOUTS, funcinv.names, funcinv.argConstructor, funcinv.initialValue)).inputs
  {
    var names := funcinv.GetNames();
    inputs := map[];
    for i := 0 to |names|
      invariant forall n :: n in inputs <==> n in names[..i]
      invariant forall n :: n in inputs ==>
                  n in funcinv.argConstructor && inputs[n] == Apply(funcinv.argConstructor[n], n, funcinv.initialValue[n])
    {
      inputs := inputs[names[i] := funcinv.CreateArgumentValue(names[i], None)];
    }
    assert names[..|names|] == names;
  }

  /** How one turn of the main loop ended. */
  datatype Turn = Done | Continued | Stalled

  class ExplorationEngine {
    const invocation: FunctionInvocation
    /** The timeout ladder, in milliseconds. */
    const solvetimeouts: seq<int>
    /** The key order of `symbolic_inputs`, fixed when `__init__` fills it. */
    const argNames: seq<string>

    var symbolicInputs: map<string, ArgValue>
    var constraintsToSolve: multiset<Entry>
    var newConstraints: seq<int>
    var numProcessedConstraints: nat
    var workerPool: seq<Option<Handle>>
    var workerJobs: seq<Option<Entry>>
    var finishedQueries: seq<Finished>
    var solvedConstraints: set<int>
    var outstandingConstraintAttempts: map<(int, int), int>
    var generatedInputs: seq<seq<(string, Value)>>
    var executionReturnValues: seq<RetVal>
    /** The constraint tree as far as the engine reads and writes it, by constraint id. */
    var nodes: map<int, Node>
    /** The id the next new constraint receives. */
    var nextId: int

    ghost function Cfg(): Config
      reads invocation
    {
      Config(solvetimeouts, argNames, invocation.argConstructor, invocation.initialValue)
    }

    ghost function State(): EngineState
      reads this
    {
      EngineState(symbolicInputs, constraintsToSolve, newConstraints, numProcessedConstraints,
                  workerPool, workerJobs, finishedQueries, solvedConstraints,
                  outstandingConstraintAttempts, generatedInputs, executionReturnValues, nodes, nextId)
    }

    ghost predicate Valid()
      reads this, invocation
    {
      invocation.Valid() && ConfigOk(Cfg()) && Inv(Cfg(), State())
    }

    /** Between executions there is one return value per recorded input tuple. */
    ghost predicate Aligned()
      reads this
    {
      |generatedInputs| == |executionReturnValues|
    }

    /** `__init__` (symbolic/explore.py:29-60): every argument at its initial value, one free worker slot. */
    constructor (funcinv: FunctionInvocation)
      requires funcinv.Valid()
      ensures invocation == funcinv && solvetimeouts == DEFAULT_SOLVE_TIMEOUTS && argNames == funcinv.names
      ensures Valid() && Aligned() && State() == Init(Cfg()) && |workerPool| == WORKERS
    {
      invocation := funcinv;
      var names := funcinv.GetNames();
      argNames := names;
      var inputs := InitialInputs(funcinv);
      symbolicInputs := inputs;
      constraintsToSolve := multiset{};
      newConstraints := [];
      numProcessedConstraints := 0;
      solvetimeouts := DEFAULT_SOLVE_TIMEOUTS;
      workerPool := seq(WORKERS, _ => None);
      workerJobs := seq(WORKERS, _ => None);
      finishedQueries := [];
      solvedConstraints := {};
      outstandingConstraintAttempts := map[];
      generatedInputs := [];
      executionReturnValues := [];
      nodes := map[];
      nextId := 1;
      new;
      DefaultLadderSorted();
      assert symbolicInputs == Init(Cfg()).inputs;
      InitInv(Cfg());
    }

    /** `addConstraint` (symbolic/explore.py:63-64), the callback the path calls for a new branch. */
    method AddConstraint(cid: int)
      modifies this
      ensures State() == old(State()).(newConstraints := old(newConstraints) + [cid])
    {
      newConstraints := newConstraints + [cid];
    }

    /** `_running_constraint` (symbolic/explore.py:168-175). */
    method RunningConstraint(cid: int) returns (w: Option<nat>)
      ensures w == RunningSlot(workerJobs, cid)
    {
      for k := 0 to |workerJobs|
        invariant forall j :: 0 <= j < k ==> !RunsJob(workerJobs[j], cid)
      {
        var job := workerJobs[k];
        if job.None? {
          continue;
        }
        if job.value.cid == cid {
          RunningSlotIs(workerJobs, cid, k);
          return Some(k);
        }
      }
      RunningSlotIsNone(workerJobs, cid);
      return None;
    }

    /** `_runningSolvers` (symbolic/explore.py:186-192): drop dead processes, then count the busy slots. */
    method RunningSolvers() returns (n: nat)
      requires Valid()
      modifies this
      ensures Valid() && State() == Reap(old(State())) && n == Busy(workerPool)
    {
      ghost var s0 := State();
      ReapFacts(Cfg(), s0);
      DropDead();
      n := Busy(workerPool);
    }

    /** The loop of symbolic/explore.py:187-191. */
    method DropDead()
      requires |workerJobs| == |workerPool|
      modifies this
      ensures State() == Reap(old(State()))
    {
      ghost var s0 := State();
      var size := |workerPool|;
      for k := 0 to size
        invariant State() == s0.(pool := workerPool, jobs := workerJobs)
        invariant |workerPool| == size && |workerJobs| == size
        invariant forall j :: 0 <= j < size ==> workerPool[j] == if j < k then Reaped(s0.pool)[j] else s0.pool[j]
        invariant forall j :: 0 <= j < size ==> workerJobs[j] == if j < k then ReapedJobs(s0.pool, s0.jobs)[j] else s0.jobs[j]
      {
        var worker := workerPool[k];
        if worker.Some? && !worker.value.alive {
          // worker.terminate()
          workerPool := workerPool[k := None];
          workerJobs := workerJobs[k := None];
        }
      }
      assert workerPool == Reaped(s0.pool);
      assert workerJobs == ReapedJobs(s0.pool, s0.jobs);
    }

    /**
     * `_isExplorationComplete` (symbolic/explore.py:228-236).  The Python `and`
     * reaps only when the queue is empty, the `else` branch reaps (again);
     * reaping twice is reaping once.
     */
    method IsExplorationComplete() returns (complete: bool)
      requires Valid()
      modifies this
      ensures Valid() && State() == Reap(old(State())) && complete == Complete(old(State()))
    {
      var numConstr := |constraintsToSolve|;
      if numConstr == 0 {
        var running := RunningSolvers();
        if running == 0 && |finishedQueries| == 0 {
          return true;
        }
      }
      var running := RunningSolvers();
      return false;
    }

    /** One event of the solver processes: a result put on the channel, or a process dying. */
    method ApplyEvent(ev: Event)
      requires Paired(workerPool, workerJobs)
      modifies this
      ensures State() == EnvEvent(Cfg(), old(State()), ev)
    {
      match ev
      case Post(k, a, exits) =>
        if k < |workerPool| && workerPool[k].Some? && workerPool[k].value.alive && !workerPool[k].value.posted &&
           (a.Sat? ==> a.model.Keys <= invocation.argConstructor.Keys)
        {
          finishedQueries := finishedQueries + [Message(workerJobs[k].value, a)];
          workerPool := workerPool[k := Some(Handle(!exits, true))];
        }
      case Die(k) =>
        if k < |workerPool| && workerPool[k].Some? && workerPool[k].value.alive {
          workerPool := workerPool[k := Some(workerPool[k].value.(alive := false))];
        }
    }

    /** The events of the processes, in order. */
    method ApplyEvents(events: seq<Event>)
      requires Paired(workerPool, workerJobs)
      modifies this
      ensures State() == EnvEvents(Cfg(), old(State()), events)
    {
      ghost var c := Cfg();
      ghost var s0 := State();
      for i := 0 to |events|
        invariant Paired(workerPool, workerJobs) && Cfg() == c
        invariant EnvEvents(c, State(), events[i..]) == EnvEvents(c, s0, events)
      {
        assert events[i..][1..] == events[i + 1..];
        EnvEventPaired(c, State(), events[i]);
        ApplyEvent(events[i]);
      }
    }

    /**
     * `_wait` (symbolic/explore.py:177-182).  Each round of the loop the
     * processes act once, by the next of `events`; the result is false when
     * the events run out before the loop ends.
     */
    method Wait(events: seq<Event>) returns (ended: bool)
      requires Paired(workerPool, workerJobs)
      modifies this
      ensures (State(), ended) == WaitLoop(Cfg(), old(State()), events)
    {
      ghost var c := Cfg();
      ghost var s0 := State();
      var i := 0;
      while true
        invariant 0 <= i <= |events| && Paired(workerPool, workerJobs) && Cfg() == c
        invariant WaitLoop(c, State(), events[i..]) == WaitLoop(c, s0, events)
        decreases |events| - i
      {
        if |finishedQueries| > 0 {
          return true;
        }
        ReapedFacts(workerPool, workerJobs);
        DropDead();
        var running := Busy(workerPool);
        if running == 0 {
          return true;
        }
        if i == |events| {
          return false;
        }
        assert events[i..][1..] == events[i + 1..];
        EnvEventPaired(c, State(), events[i]);
        // time.sleep and worker.join: the processes act meanwhile
        ApplyEvent(events[i]);
        i := i + 1;
      }
    }

    /** `constraints_to_solve.get()`: an entry of least timeout leaves the queue. */
    method QueueGet() returns (e: Entry)
      requires constraintsToSolve != multiset{}
      modifies this
      ensures IsMin(e, old(constraintsToSolve))
      ensures State() == old(State()).(pending := old(constraintsToSolve) - multiset{e})
    {
      MinExists(constraintsToSolve);
      e :| e in constraintsToSolve && IsMin(e, constraintsToSolve);
      constraintsToSolve := constraintsToSolve - multiset{e};
    }

    /** `constraints_to_solve.put(e)`. */
    method QueuePut(e: Entry)
      modifies this
      ensures State() == old(State()).(pending := old(constraintsToSolve) + multiset{e})
    {
      constraintsToSolve := constraintsToSolve + multiset{e};
    }

    /**
     * The search for a constraint with a free worker (symbolic/explore.py:95-107):
     * entries are taken off the queue in timeout order until `central_queue`
     * finds a slot; the ones passed over are put back.  An entry is selected
     * exactly when the queue is non-empty and some slot is free, and it is
     * one of least timeout.
     */
    method Scan() returns (selected: Option<Entry>)
      modifies this
      ensures selected.Some? <==> FirstFree(workerPool).Some? && old(constraintsToSolve) != multiset{}
      ensures selected.Some? ==> IsMin(selected.value, old(constraintsToSolve)) &&
                                 State() == old(State()).(pending := old(constraintsToSolve) - multiset{selected.value})
      ensures selected.None? ==> State() == old(State())
    {
      var peeked;
      selected, peeked := TakeUntilFree();
      PutBack(peeked);
    }

    /** Lines 97-104: take entries off the queue until one finds a free slot. */
    method TakeUntilFree() returns (selected: Option<Entry>, peeked: seq<Entry>)
      modifies this
      ensures State() == old(State()).(pending := constraintsToSolve)
      ensures selected.Some? <==> FirstFree(workerPool).Some? && old(constraintsToSolve) != multiset{}
      ensures selected.Some? ==> peeked == [] && IsMin(selected.value, old(constraintsToSolve)) &&
                                 constraintsToSolve == old(constraintsToSolve) - multiset{selected.value}
      ensures selected.None? ==> constraintsToSolve + multiset(peeked) == old(constraintsToSolve)
    {
      ghost var s0 := State();
      peeked := [];
      selected := None;
      while |constraintsToSolve| > 0
        invariant State() == s0.(pending := constraintsToSolve)
        invariant constraintsToSolve + multiset(peeked) == s0.pending
        invariant FirstFree(workerPool).Some? ==> peeked == []
        decreases |constraintsToSolve|
      {
        ghost var before := constraintsToSolve;
        var e := QueueGet();
        var candidate := CentralQueue(workerPool, solvetimeouts, e.timeout);
        if candidate.Some? {
          selected := Some(e);
          return;
        }
        TakeOne(before, e, peeked);
        peeked := peeked + [e];
      }
    }

    /** Lines 106-107: the entries passed over go back on the queue. */
    method PutBack(peeked: seq<Entry>)
      modifies this
      ensures State() == old(State()).(pending := old(constraintsToSolve) + multiset(peeked))
    {
      ghost var s0 := State();
      for i := 0 to |peeked|
        invariant State() == s0.(pending := s0.pending + multiset(peeked[..i]))
      {
        assert peeked[..i + 1] == peeked[..i] + [peeked[i]];
        QueuePut(peeked[i]);
      }
      assert peeked[..|peeked|] == peeked;
    }

    /** Lines 198-203 of symbolic/explore.py: an occupied slot's job goes back on the queue and its process is stopped. */
    method Preempt(w: nat)
      requires w < |workerPool| && Paired(workerPool, workerJobs)
      modifies this
      ensures old(workerPool[w]).Some? ==>
                State() == old(State()).(pending := old(constraintsToSolve) + multiset{old(workerJobs[w].value)},
                                         pool := old(workerPool)[w := None], jobs := old(workerJobs)[w := None])
      ensures old(workerPool[w]).None? ==> State() == old(State())
    {
      if workerPool[w].Some? {
        var running := workerJobs[w].value;
        constraintsToSolve := constraintsToSolve + multiset{running};
        // worker_pool[worker_id].terminate()
        workerPool := workerPool[w := None];
        workerJobs := workerJobs[w := None];
      }
    }

    /** `_launch_worker` (symbolic/explore.py:194-210). */
    method LaunchWorker(e: Entry)
      requires Paired(workerPool, workerJobs) && FirstFree(workerPool).Some? && e.cid in nodes
      modifies this
      ensures State() == Launch(old(State()), e)
    {
      var key := (e.cid, e.timeout);
      var count := if key in outstandingConstraintAttempts then outstandingConstraintAttempts[key] else 0;
      outstandingConstraintAttempts := outstandingConstraintAttempts[key := count + 1];
      var w := CentralQueue(workerPool, solvetimeouts, e.timeout);
      var wid := w.value;
      Preempt(wid);
      StartWorker(wid, e);
    }

    /** Lines 205-210 of symbolic/explore.py: the constraint is marked processed and its solver takes slot `w`. */
    method StartWorker(w: nat, e: Entry)
      requires w < |workerPool| && w < |workerJobs| && e.cid in nodes
      modifies this
      ensures State() == old(State()).(nodes := old(nodes)[e.cid := old(nodes)[e.cid].(processed := true)],
                                       pool := old(workerPool)[w := Some(Handle(true, false))],
                                       jobs := old(workerJobs)[w := Some(e)])
    {
      // getAssertsAndQuery marks the constraint processed
      nodes := nodes[e.cid := nodes[e.cid].(processed := true)];
      workerPool := workerPool[w := Some(Handle(true, false))];
      workerJobs := workerJobs[w := Some(e)];
    }

    /** Lines 129-141 of symbolic/explore.py: no model came back for `m`. */
    method HandleNoModel(m: Finished)
      requires m.cid in nodes && m.timeout in solvetimeouts
      requires (m.cid, m.timeout) in outstandingConstraintAttempts
      modifies this
      ensures State() == NoModel(Cfg(), old(State()), m)
    {
      var w := RunningConstraint(m.cid);
      if w.Some? || outstandingConstraintAttempts[(m.cid, m.timeout)] > 0 {
        return;
      }
      var timeoutIndex := IndexOf(solvetimeouts, m.timeout);
      if timeoutIndex + 1 < |solvetimeouts| && m.result != UNSAT {
        nodes := nodes[m.cid := nodes[m.cid].(processed := false)];
        constraintsToSolve := constraintsToSolve + multiset{Entry(solvetimeouts[timeoutIndex + 1], m.cid)};
      } else {
        var selected := nodes[m.cid];
        nodes := nodes[nextId := Node(selected.parent, !selected.outcome, false, None)];
        nextId := nextId + 1;
      }
    }

    /** The cancel loop of symbolic/explore.py:143-150. */
    method CancelRunning(cid: int)
      requires Paired(workerPool, workerJobs)
      modifies this
      ensures State() == Cancel(old(State()), cid)
    {
      ghost var s0 := State();
      var w := RunningConstraint(cid);
      while w.Some?
        invariant Paired(workerPool, workerJobs)
        invariant Cancel(State(), cid) == Cancel(s0, cid)
        invariant w == RunningSlot(workerJobs, cid)
        decreases Busy(workerPool)
      {
        var workerId := RunningConstraint(cid);
        var k := workerId.value;
        CancelStep(State(), cid, k);
        // worker.terminate()
        workerPool := workerPool[k := None];
        workerJobs := workerJobs[k := None];
        w := RunningConstraint(cid);
      }
      CancelIdle(State(), cid);
    }

    /** `_updateSymbolicParameter` (symbolic/explore.py:218-219). */
    method UpdateSymbolicParameter(name: string, val: Value)
      requires invocation.Valid() && name in invocation.argConstructor
      modifies this
      ensures State() == old(State()).(inputs := old(symbolicInputs)[name := Apply(invocation.argConstructor[name], name, val)])
    {
      symbolicInputs := symbolicInputs[name := invocation.CreateArgumentValue(name, Some(val))];
    }

    /** Lines 152-153 of symbolic/explore.py: every binding of the model becomes the argument's new value. */
    method UpdateFromModel(model: map<string, Value>)
      requires invocation.Valid() && model.Keys <= invocation.argConstructor.Keys <= symbolicInputs.Keys
      modifies this
      ensures State() == old(State()).(inputs := ApplyModel(Cfg(), old(symbolicInputs), model))
    {
      ghost var c := Cfg();
      ghost var s0 := State();
      var todo := model.Keys;
      while todo != {}
        invariant State() == s0.(inputs := symbolicInputs)
        invariant PartlyApplied(c, s0.inputs, model, todo, symbolicInputs)
        decreases |todo|
      {
        var name :| name in todo;
        PartlyAppliedStep(c, s0.inputs, model, todo, symbolicInputs, name);
        UpdateSymbolicParameter(name, model[name]);
        todo := todo - {name};
      }
      ApplyModelIs(c, s0.inputs, model, symbolicInputs);
    }

    /** `_recordInputs` (symbolic/explore.py:244-248). */
    method RecordInputs()
      requires forall i :: 0 <= i < |argNames| ==> argNames[i] in symbolicInputs
      modifies this
      ensures State() == old(State()).(generatedInputs := old(generatedInputs) + [Record(argNames, old(symbolicInputs))])
    {
      generatedInputs := generatedInputs + [Record(argNames, symbolicInputs)];
    }

    /**
     * `_oneExecution` (symbolic/explore.py:250-276).  The call of the function
     * under test is `run`: the path reports the branches it reaches through
     * `addConstraint`, and the run returns or raises.
     */
    method OneExecution(run: Run)
      requires Valid()
      modifies this
      ensures State() == Execute(Cfg(), old(State()), run)
    {
      ghost var c := Cfg();
      ghost var s0 := State();
      RecordInputs();
      ghost var recorded := State();
      OutputsOnly(c, s0, recorded);
      DiscoverFacts(c, recorded, run.discovered);
      Reach(run.discovered);
      match run.outcome
      case Returned(v) =>
        DrainLoop();
        executionReturnValues := executionReturnValues + [ReturnValue(v)];
      case Raised(exc, frames) =>
        var tag := ExceptionTag(frames);
        executionReturnValues := executionReturnValues + [ExceptionValue(exc, tag)];
    }

    /** The call of the function under test: the path adds one node per new branch and reports its id. */
    method Reach(discovered: seq<NewConstraint>)
      modifies this
      ensures State() == Discover(old(State()), discovered)
    {
      ghost var s0 := State();
      for j := 0 to |discovered|
        invariant Discover(State(), discovered[j..]) == Discover(s0, discovered)
      {
        assert discovered[j..][1..] == discovered[j + 1..];
        var nc := discovered[j];
        var id := nextId;
        nodes := nodes[id := Node(nc.parent, nc.outcome, false, None)];
        nextId := nextId + 1;
        AddConstraint(id);
      }
    }

    /** Lines 258-261 of symbolic/explore.py: pop every new constraint, give it the inputs, queue it at the lowest rung. */
    method DrainLoop()
      requires |solvetimeouts| > 0 && forall i :: 0 <= i < |newConstraints| ==> newConstraints[i] in nodes
      modifies this
      ensures State() == Drain(Cfg(), old(State()))
    {
      ghost var d := State();
      var t0 := solvetimeouts[0];
      DrainStart(d, t0);
      while |newConstraints| > 0
        invariant DrainedUpTo(d, t0, State())
        decreases |newConstraints|
      {
        DrainPop(d, t0, State());
        var k := |newConstraints| - 1;
        var cid := newConstraints[k];
        newConstraints := newConstraints[..k];
        nodes := nodes[cid := nodes[cid].(inputs := Some(symbolicInputs))];
        constraintsToSolve := constraintsToSolve + multiset{Entry(t0, cid)};
      }
      DrainDone(Cfg(), d, State());
    }

    /** Lines 143-159 of symbolic/explore.py: a model came back for constraint `cid`. */
    method HandleModel(cid: int, model: map<string, Value>, run: Run)
      requires Valid() && model.Keys <= invocation.argConstructor.Keys
      modifies this
      ensures State() == Solve(Cfg(), old(State()), cid, model, run)
    {
      ghost var s0 := State();
      CancelAndUpdate(cid, model);
      SolveIs(Cfg(), s0, cid, model, run, State());
      ExecuteSolved(cid, run);
    }

    /** Lines 152-159 of symbolic/explore.py: run on the new inputs, then count `cid` as processed and solved. */
    method ExecuteSolved(cid: int, run: Run)
      requires Valid()
      modifies this
      ensures var ran := Execute(Cfg(), old(State()), run);
              State() == ran.(numProcessed := ran.numProcessed + 1, solved := ran.solved + {cid})
    {
      OneExecution(run);
      CountSolved(cid);
    }

    /** Lines 149-151 of symbolic/explore.py: stop the other solvers of `cid`, then adopt the model's values. */
    method CancelAndUpdate(cid: int, model: map<string, Value>)
      requires Valid() && model.Keys <= invocation.argConstructor.Keys
      modifies this
      ensures Valid()
      ensures State() == Cancel(old(State()), cid).(inputs := ApplyModel(Cfg(), old(symbolicInputs), model))
    {
      ghost var c := Cfg();
      ghost var s0 := State();
      CancelFacts(c, s0, cid);
      CancelRunning(cid);
      ghost var cancelled := State();
      UpdateFromModel(model);
      InputsOnly(c, cancelled, State());
    }

    /** Lines 157-159 of symbolic/explore.py: one more constraint processed, and `cid` is solved. */
    method CountSolved(cid: int)
      modifies this
      ensures State() == old(State()).(numProcessed := old(numProcessedConstraints) + 1,
                                       solved := old(solvedConstraints) + {cid})
    {
      numProcessedConstraints := numProcessedConstraints + 1;
      solvedConstraints := solvedConstraints + {cid};
    }

    /** Lines 83-86 and 120-159 of symbolic/explore.py: take the first finished result and act on it. */
    method ProcessFinished(run: Run)
      requires Valid() && finishedQueries != []
      modifies this
      ensures State() == Consume(Cfg(), old(State()).(finished := old(finishedQueries)[1..]), old(finishedQueries)[0], run)
    {
      PopFinished(Cfg(), State());
      var m := finishedQueries[0];
      finishedQueries := finishedQueries[1..];
      ConsumeResult(m, run);
    }

    /** Lines 120-159 of symbolic/explore.py: act on the result `m` of a solver. */
    method ConsumeResult(m: Finished, run: Run)
      requires Valid() && Reported(Cfg(), State(), m)
      modifies this
      ensures State() == Consume(Cfg(), old(State()), m, run)
    {
      if m.cid in solvedConstraints {
        return;
      }
      ghost var c := Cfg();
      ghost var s1 := State();
      var key := (m.cid, m.timeout);
      outstandingConstraintAttempts := outstandingConstraintAttempts[key := outstandingConstraintAttempts[key] - 1];
      if m.model.None? {
        HandleNoModel(m);
      } else {
        AttemptsOnly(c, s1, State());
        HandleModel(m.cid, m.model.value, run);
      }
    }

    /**
     * One turn of the main loop of `explore` (symbolic/explore.py:74-159),
     * after the processes have acted by `tick.events`.
     */
    method Step(tick: Tick) returns (turn: Turn)
      requires Valid() && Aligned()
      modifies this
      ensures Valid() && Aligned() && |workerPool| == old(|workerPool|)
      ensures old(solvedConstraints) <= solvedConstraints && old(generatedInputs) <= generatedInputs
      ensures turn == Done ==> constraintsToSolve == multiset{} && finishedQueries == [] &&
                               forall k :: 0 <= k < |workerPool| ==> workerPool[k].None?
    {
      EnvEventsFacts(Cfg(), State(), tick.events);
      ApplyEvents(tick.events);
      var complete := IsExplorationComplete();
      if complete {
        BusyZero(workerPool);
        return Done;
      }
      if |finishedQueries| > 0 {
        turn := ResultTurn(tick.run);
      } else {
        ghost var picked;
        turn, picked := ScheduleTurn(tick.during);
      }
    }

    /** A turn that finds a finished result (symbolic/explore.py:80-86, 120-159). */
    method ResultTurn(run: Run) returns (turn: Turn)
      requires Valid() && Aligned() && finishedQueries != []
      modifies this
      ensures Valid() && Aligned() && |workerPool| == old(|workerPool|) && turn == Continued
      ensures State() == Consume(Cfg(), old(State()).(finished := old(finishedQueries)[1..]), old(finishedQueries)[0], run)
      ensures old(solvedConstraints) <= solvedConstraints && old(generatedInputs) <= generatedInputs
    {
      ghost var s1 := State();
      PopFinished(Cfg(), s1);
      ConsumeInv(Cfg(), s1.(finished := s1.finished[1..]), s1.finished[0], run);
      ProcessFinished(run);
      return Continued;
    }

    /**
     * A turn that finds no finished result (symbolic/explore.py:88-117):
     * wait when nothing is queued or every slot is busy, otherwise launch a
     * solver for the entry the search selects unless it is already processed.
     */
    method ScheduleTurn(during: seq<Event>) returns (turn: Turn, ghost picked: Option<Entry>)
      requires Valid() && Aligned() && finishedQueries == []
      modifies this
      ensures Valid() && Aligned() && |workerPool| == old(|workerPool|) && turn != Done
      ensures solvedConstraints == old(solvedConstraints) && generatedInputs == old(generatedInputs)
      ensures picked.Some? <==> old(constraintsToSolve) != multiset{} && FirstFree(Reap(old(State())).pool).Some?
      ensures picked.None? ==> (State(), turn == Continued) == WaitLoop(Cfg(), old(State()), during)
      ensures picked.None? ==> constraintsToSolve == old(constraintsToSolve)
      ensures picked.Some? ==>
                IsMin(picked.value, old(constraintsToSolve)) && picked.value.cid in old(nodes) &&
                FirstFree(Reap(old(State())).pool).Some? &&
                State() == Dispatch(Reap(old(State())).(pending := old(constraintsToSolve) - multiset{picked.value}), picked.value)
    {
      picked := None;
      ghost var s0 := State();
      WaitLoopAfterReap(Cfg(), s0, during);
      if |constraintsToSolve| == 0 {
        turn := WaitTurn(during);
        return;
      }
      var running := RunningSolvers();
      BusyFull(workerPool);
      if running == |workerPool| {
        turn := WaitTurn(during);
        return;
      }
      ghost var s2 := State();
      var selected := Scan();
      PendingOnly(Cfg(), s2, State());
      var e := selected.value;
      picked := selected;
      DispatchFacts(Cfg(), s2, e);
      turn := Continued;
      if nodes[e.cid].processed {
        return;
      }
      LaunchWorker(e);
    }

    /** `self._wait(); continue` inside the main loop. */
    method WaitTurn(events: seq<Event>) returns (turn: Turn)
      requires Valid() && Aligned()
      modifies this
      ensures Valid() && Aligned() && |workerPool| == old(|workerPool|) && turn != Done
      ensures State() == WaitLoop(Cfg(), old(State()), events).0
      ensures turn == Continued <==> WaitLoop(Cfg(), old(State()), events).1
      ensures constraintsToSolve == old(constraintsToSolve)
      ensures solvedConstraints == old(solvedConstraints) && generatedInputs == old(generatedInputs)
    {
      WaitLoopFacts(Cfg(), State(), events);
      var ended := Wait(events);
      return if ended then Continued else Stalled;
    }

    /** The `finally` clause of `explore` (symbolic/explore.py:161-164). */
    method TerminateWorkers()
      modifies this
      ensures State() == TerminateAll(old(State()))
    {
      ghost var s0 := State();
      var size := |workerPool|;
      for k := 0 to size
        invariant State() == s0.(pool := workerPool) && |workerPool| == size
        invariant forall j :: 0 <= j < size ==> workerPool[j] == if j < k then TerminateAll(s0).pool[j] else s0.pool[j]
      {
        var worker := workerPool[k];
        if worker.Some? {
          // worker.terminate()
          workerPool := workerPool[k := Some(worker.value.(alive := false))];
        }
      }
      assert workerPool == TerminateAll(s0).pool;
    }

    /**
     * `explore` (symbolic/explore.py:67-166).  The first execution runs as
     * `first`; turn `i` of the main loop sees what `script[i]` says.  The
     * loop ends when exploration is complete, when a wait outlasts the
     * events given for it, or when the script runs out.  Either way every
     * process is terminated at the end.
     */
    method Explore(first: Run, script: seq<Tick>)
      returns (completed: bool, inputs: seq<seq<(string, Value)>>, values: seq<RetVal>, tree: map<int, Node>)
      requires Valid() && Aligned()
      modifies this
      ensures Valid() && Aligned()
      ensures inputs == generatedInputs && values == executionReturnValues && tree == nodes
      ensures old(generatedInputs) < inputs && old(solvedConstraints) <= solvedConstraints
      ensures completed ==> constraintsToSolve == multiset{} && finishedQueries == [] &&
                            forall k :: 0 <= k < |workerPool| ==> workerPool[k].None?
      ensures forall k :: 0 <= k < |workerPool| ==> !(workerPool[k].Some? && workerPool[k].value.alive)
    {
      FirstExecution(first);
      completed := MainLoop(script);
      TerminateAllFacts(Cfg(), State());
      TerminateWorkers();
      return completed, generatedInputs, executionReturnValues, nodes;
    }

    /** Line 68 of symbolic/explore.py: the first execution, on the initial inputs. */
    method FirstExecution(first: Run)
      requires Valid() && Aligned()
      modifies this
      ensures Valid() && Aligned()
      ensures State() == Execute(Cfg(), old(State()), first)
      ensures old(generatedInputs) < generatedInputs && solvedConstraints == old(solvedConstraints)
    {
      ExecuteFacts(Cfg(), State(), first);
      OneExecution(first);
    }

    /** The main loop of `explore` (symbolic/explore.py:74-159), one turn per entry of `script`. */
    method MainLoop(script: seq<Tick>) returns (completed: bool)
      requires Valid() && Aligned()
      modifies this
      ensures Valid() && Aligned()
      ensures old(generatedInputs) <= generatedInputs && old(solvedConstraints) <= solvedConstraints
      ensures completed ==> constraintsToSolve == multiset{} && finishedQueries == [] &&
                            forall k :: 0 <= k < |workerPool| ==> workerPool[k].None?
    {
      completed := false;
      var i := 0;
      while i < |script| && !completed
        invariant 0 <= i <= |script|
        invariant Valid() && Aligned()
        invariant old(generatedInputs) <= generatedInputs && old(solvedConstraints) <= solvedConstraints
        invariant completed ==> constraintsToSolve == multiset{} && finishedQueries == [] &&
                                forall k :: 0 <= k < |workerPool| ==> workerPool[k].None?
      {
        var turn := Step(script[i]);
        completed := turn == Done;
        if turn == Stalled {
          break;
        }
        i := i + 1;
      }
    }
  }
}
