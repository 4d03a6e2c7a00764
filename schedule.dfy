/**
 * The exploration scheduler of symbolic/explore.py as transitions on a
 * snapshot of the engine's state.  The `ExplorationEngine` class (module
 * Explore) is proved to perform exactly these transitions; the lemmas here
 * state what the transitions guarantee.
 *
 * Constraints are identified by their ids; `nodes` stands for the part of
 * the constraint tree the scheduler touches (parent, branch outcome,
 * `processed` flag and recorded inputs).  Timeouts are milliseconds.
 */
module Schedule {
  import opened Wrappers
  import opened Loader
  import opened WorkerSlots
  import opened ExceptionTags

  /** `workers = 1` in `ExplorationEngine.__init__`. */
  const WORKERS: nat := 1

  /** `DEFAULT_SOLVE_TIMEOUTS`, in milliseconds. */
  const DEFAULT_SOLVE_TIMEOUTS: seq<int> := [130, 260, 520, 1040, 2080, 4160, 8320, 16640, 33280]

  predicate StrictlyIncreasing(s: seq<int>) {
    forall i :: 0 < i < |s| ==> s[i - 1] < s[i]
  }

  /** `sorted(set(...))` leaves the default ladder as it is: it is already strictly increasing. */
  lemma DefaultLadderSorted()
    ensures StrictlyIncreasing(DEFAULT_SOLVE_TIMEOUTS) && |DEFAULT_SOLVE_TIMEOUTS| > 0
  {
  }

  lemma {:induction false} IncreasingApart(s: seq<int>, i: nat, j: nat)
    requires StrictlyIncreasing(s) && i < j < |s|
    ensures s[i] < s[j]
    decreases j - i
  {
    if i + 1 < j {
      IncreasingApart(s, i + 1, j);
    }
  }

  /** `list.index`: the first position of `x`. */
  function IndexOf(s: seq<int>, x: int): (r: nat)
    requires x in s
    ensures r < |s| && s[r] == x && x !in s[..r]
  {
    if s[0] == x then 0
    else
      var r := 1 + IndexOf(s[1..], x);
      assert s[..r] == [s[0]] + s[1..][..r - 1];
      r
  }

  /** The rung after `t` is the smallest timeout of the ladder larger than `t`. */
  lemma NextRung(ladder: seq<int>, t: int)
    requires StrictlyIncreasing(ladder) && t in ladder && IndexOf(ladder, t) + 1 < |ladder|
    ensures var next := ladder[IndexOf(ladder, t) + 1];
            t < next && next in ladder && forall u :: u in ladder && t < u ==> next <= u
  {
    var i := IndexOf(ladder, t);
    forall u | u in ladder && t < u ensures ladder[i + 1] <= u {
      var j :| 0 <= j < |ladder| && ladder[j] == u;
      if j <= i {
        if j < i {
          IncreasingApart(ladder, j, i);
        }
        assert false;
      }
      if j > i + 1 {
        IncreasingApart(ladder, i + 1, j);
      }
    }
  }

  // ---------------------------------------------------------------------
  // State
  // ---------------------------------------------------------------------

  /** The result strings of the solver adapter. */
  datatype Status = SAT | UNSAT | UNKNOWN

  /** An item of the `finished_queries` channel: (id, timeout, result, model). */
  datatype Finished = Finished(cid: int, timeout: int, result: Status, model: Option<map<string, Value>>)

  /** What a solver process computes: a model, or no model with "UNSAT" or "UNKNOWN". */
  datatype Answer = Sat(model: map<string, Value>) | Unsat | Unknown

  /** The scheduler's view of a constraint node. */
  datatype Node = Node(parent: int, outcome: bool, processed: bool, inputs: Option<map<string, ArgValue>>)

  /** A branch the target reached for the first time: its parent node and the outcome taken. */
  datatype NewConstraint = NewConstraint(parent: int, outcome: bool)

  /** How a run of the target ended: a return value, or an exception with its traceback. */
  datatype RunOutcome = Returned(value: Value) | Raised(exception: string, frames: seq<Frame>)

  /** What one call of the target does, as seen by the engine. */
  datatype Run = Run(discovered: seq<NewConstraint>, outcome: RunOutcome)

  /** An entry of `execution_return_values`: the value returned, or the exception with its `id` tag if one was set. */
  datatype RetVal = ReturnValue(value: Value) | ExceptionValue(exception: string, id: Option<string>)

  /**
   * What the solver processes do between two looks of the scheduler: the
   * process in slot `slot` puts its answer on the channel (and exits or not
   * yet), or dies.
   */
  datatype Event = Post(slot: nat, answer: Answer, exits: bool) | Die(slot: nat)

  /**
   * What happens around one turn of the main loop: the processes' events
   * before the turn, the events while the turn waits (if it does), and the
   * run of the target if the turn calls it.
   */
  datatype Tick = Tick(events: seq<Event>, during: seq<Event>, run: Run)

  /** The engine's fixed data: the timeout ladder and the argument table of the invocation. */
  datatype Config = Config(ladder: seq<int>, names: seq<string>,
                           ctors: map<string, Constructor>, values: map<string, Value>)

  /** The engine's mutable fields. */
  datatype EngineState = EngineState(
    inputs: map<string, ArgValue>,
    pending: multiset<Entry>,
    newConstraints: seq<int>,
    numProcessed: nat,
    pool: seq<Option<Handle>>,
    jobs: seq<Option<Entry>>,
    finished: seq<Finished>,
    solved: set<int>,
    attempts: map<(int, int), int>,
    generatedInputs: seq<seq<(string, Value)>>,
    returnValues: seq<RetVal>,
    nodes: map<int, Node>,
    nextId: int)

  ghost predicate ConfigOk(c: Config) {
    |c.ladder| > 0 && StrictlyIncreasing(c.ladder) &&
    Distinct(c.names) && (forall n :: n in c.ctors <==> n in c.names) && c.values.Keys == c.ctors.Keys
  }

  /** A queued entry names a known constraint at a rung of the ladder. */
  predicate Queued(c: Config, s: EngineState, e: Entry) {
    e.cid in s.nodes && e.timeout in c.ladder
  }

  /** A running job has also been counted in the attempt table. */
  predicate Launched(c: Config, s: EngineState, e: Entry) {
    Queued(c, s, e) && (e.cid, e.timeout) in s.attempts
  }

  /** A finished result refers to a launched job, and its model binds only argument names. */
  predicate Reported(c: Config, s: EngineState, m: Finished) {
    Launched(c, s, Entry(m.timeout, m.cid)) && (m.model.Some? ==> m.model.value.Keys <= c.ctors.Keys)
  }

  /** What every step of the engine keeps. */
  ghost predicate Inv(c: Config, s: EngineState) {
    s.inputs.Keys == c.ctors.Keys &&
    Paired(s.pool, s.jobs) &&
    (forall e :: e in s.pending ==> Queued(c, s, e)) &&
    (forall k :: 0 <= k < |s.jobs| && s.jobs[k].Some? ==> Launched(c, s, s.jobs[k].value)) &&
    (forall i :: 0 <= i < |s.finished| ==> Reported(c, s, s.finished[i])) &&
    (forall i :: 0 <= i < |s.newConstraints| ==> s.newConstraints[i] in s.nodes) &&
    (forall n :: n in s.nodes ==> n < s.nextId)
  }

  /** `outstanding_constraint_attempts.get(key, 0)`. */
  function Attempts(s: EngineState, key: (int, int)): int {
    if key in s.attempts then s.attempts[key] else 0
  }

  /** The engine right after `__init__`: every argument at its initial value, all slots free, nothing recorded. */
  function Init(c: Config): EngineState {
    EngineState(map n | n in c.ctors && n in c.values :: Apply(c.ctors[n], n, c.values[n]),
                multiset{}, [], 0, seq(WORKERS, _ => None), seq(WORKERS, _ => None), [], {}, map[],
                [], [], map[], 1)
  }

  lemma InitInv(c: Config)
    requires ConfigOk(c)
    ensures Inv(c, Init(c)) && Init(c).pending == multiset{} && Busy(Init(c).pool) == 0
    ensures forall n :: n in c.ctors ==> Init(c).inputs[n] == Apply(c.ctors[n], n, c.values[n])
  {
    BusyZero(Init(c).pool);
  }

  // ---------------------------------------------------------------------
  // Reaping and termination
  // ---------------------------------------------------------------------

  /** `_runningSolvers`' effect (symbolic/explore.py:187-191). */
  function Reap(s: EngineState): EngineState
    requires |s.jobs| == |s.pool|
  {
    s.(pool := Reaped(s.pool), jobs := ReapedJobs(s.pool, s.jobs))
  }

  /** `_isExplorationComplete` (symbolic/explore.py:228-231), on the state before its reaping. */
  predicate Complete(s: EngineState)
    requires |s.jobs| == |s.pool|
  {
    s.pending == multiset{} && Busy(Reap(s).pool) == 0 && s.finished == []
  }

  /**
   * Reaping keeps the invariant and the queue: the job of a dead process is
   * dropped, not put back.  Afterwards the busy slots are the live ones.
   */
  lemma ReapFacts(c: Config, s: EngineState)
    requires Inv(c, s)
    ensures Inv(c, Reap(s)) && Reap(s).pending == s.pending
    ensures Busy(Reap(s).pool) == Live(s.pool)
    ensures forall k :: 0 <= k < |s.pool| ==> (Reap(s).pool[k].Some? <==> s.pool[k].Some? && s.pool[k].value.alive)
    ensures Reap(Reap(s)) == Reap(s)
  {
    ReapedFacts(s.pool, s.jobs);
    ReapedIdempotent(s.pool, s.jobs);
  }

  /** Exploration is complete exactly when nothing is queued, no process is alive and no result is waiting. */
  lemma CompleteMeans(s: EngineState)
    requires |s.jobs| == |s.pool|
    ensures Complete(s) <==>
              s.pending == multiset{} && s.finished == [] &&
              forall k :: 0 <= k < |s.pool| ==> !(s.pool[k].Some? && s.pool[k].value.alive)
  {
    BusyZero(Reaped(s.pool));
    assert forall k :: 0 <= k < |s.pool| ==> (Reaped(s.pool)[k].None? <==> !(s.pool[k].Some? && s.pool[k].value.alive));
  }

  // ---------------------------------------------------------------------
  // Launching
  // ---------------------------------------------------------------------

  /**
   * Lines 198-203 and 208-209 of symbolic/explore.py: slot `w` gets a new
   * process running `e`; an occupant is first put back on the queue at its
   * recorded timeout.
   */
  function AssignSlot(s: EngineState, w: nat, e: Entry): EngineState
    requires w < |s.pool| && Paired(s.pool, s.jobs)
  {
    var back := if s.pool[w].Some? then multiset{s.jobs[w].value} else multiset{};
    s.(pending := s.pending + back,
       pool := s.pool[w := Some(Handle(true, false))],
       jobs := s.jobs[w := Some(e)])
  }

  /** No job is lost: what was queued or running, plus `e`, is still queued or running. */
  lemma AssignSlotKeepsJobs(s: EngineState, w: nat, e: Entry)
    requires w < |s.pool| && Paired(s.pool, s.jobs)
    ensures var t := AssignSlot(s, w, e);
            Paired(t.pool, t.jobs) && t.jobs[w] == Some(e) &&
            t.pending + JobEntries(t.jobs) == s.pending + JobEntries(s.jobs) + multiset{e}
  {
    JobEntriesUpdate(s.jobs, w, Some(e));
    var back := if s.pool[w].Some? then multiset{s.jobs[w].value} else multiset{};
    assert back == SlotJob(s.jobs[w]);
    assert SlotJob(Some(e)) == multiset{e};
    Shuffle(s.pending, back, JobEntries(s.jobs[w := Some(e)]), JobEntries(s.jobs), multiset{e});
  }

  lemma Shuffle(p: multiset<Entry>, back: multiset<Entry>, a: multiset<Entry>, b: multiset<Entry>, e: multiset<Entry>)
    requires a + back == b + e
    ensures (p + back) + a == p + b + e
  {
    calc {
      (p + back) + a;
      p + (a + back);
      p + (b + e);
    }
  }

  /** `_launch_worker` (symbolic/explore.py:194-210) on the slot `central_queue` picks. */
  function Launch(s: EngineState, e: Entry): EngineState
    requires Paired(s.pool, s.jobs) && FirstFree(s.pool).Some? && e.cid in s.nodes
  {
    var key := (e.cid, e.timeout);
    var counted := s.(attempts := s.attempts[key := Attempts(s, key) + 1]);
    var t := AssignSlot(counted, FirstFree(s.pool).value, e);
    t.(nodes := t.nodes[e.cid := t.nodes[e.cid].(processed := true)])
  }

  /**
   * Launching counts exactly one more attempt for (id, timeout), leaves the
   * first free slot running `e`, marks the constraint processed, leaves the
   * queue alone and keeps the invariant; one more slot is busy.
   */
  lemma LaunchFacts(c: Config, s: EngineState, e: Entry)
    requires Inv(c, s) && FirstFree(s.pool).Some? && Queued(c, s, e)
    ensures var t := Launch(s, e);
            var w := FirstFree(s.pool).value;
            Inv(c, t) &&
            Attempts(t, (e.cid, e.timeout)) == Attempts(s, (e.cid, e.timeout)) + 1 &&
            (forall key :: key != (e.cid, e.timeout) ==> Attempts(t, key) == Attempts(s, key)) &&
            t.jobs[w] == Some(e) && t.pool[w] == Some(Handle(true, false)) &&
            t.nodes[e.cid].processed && t.pending == s.pending &&
            Busy(t.pool) == Busy(s.pool) + 1
  {
    var t := Launch(s, e);
    var w := FirstFree(s.pool).value;
    BusyUpdate(s.pool, w, Some(Handle(true, false)));
    forall k | 0 <= k < |t.jobs| && t.jobs[k].Some? ensures Launched(c, t, t.jobs[k].value) {
      if k != w {
        assert t.jobs[k] == s.jobs[k];
      }
    }
    assert forall i :: 0 <= i < |t.finished| ==> t.finished[i] == s.finished[i];
  }

  /**
   * What becomes of the entry the search selected once it has left the
   * queue (symbolic/explore.py:113-116): a constraint already processed is
   * dropped, any other is launched.
   */
  function Dispatch(s: EngineState, e: Entry): EngineState
    requires Paired(s.pool, s.jobs) && FirstFree(s.pool).Some? && e.cid in s.nodes
  {
    if s.nodes[e.cid].processed then s else Launch(s, e)
  }

  /**
   * The selected entry alone leaves the queue.  If its constraint is already
   * processed nothing else changes and no attempt is counted; otherwise it
   * runs on the first free slot with one more attempt counted.
   */
  lemma DispatchFacts(c: Config, s: EngineState, e: Entry)
    requires Inv(c, s) && IsMin(e, s.pending) && FirstFree(s.pool).Some?
    ensures e.cid in s.nodes
    ensures var taken := s.(pending := s.pending - multiset{e});
            var t := Dispatch(taken, e);
            Inv(c, t) && t.pending == s.pending - multiset{e} && t.solved == s.solved &&
            t.generatedInputs == s.generatedInputs && t.returnValues == s.returnValues &&
            (s.nodes[e.cid].processed ==> t == taken) &&
            (!s.nodes[e.cid].processed ==>
               Attempts(t, (e.cid, e.timeout)) == Attempts(s, (e.cid, e.timeout)) + 1 &&
               t.jobs[FirstFree(s.pool).value] == Some(e) && t.nodes[e.cid].processed &&
               Busy(t.pool) == Busy(s.pool) + 1)
  {
    assert Queued(c, s, e);
    var taken := s.(pending := s.pending - multiset{e});
    PendingOnly(c, s, taken);
    if !s.nodes[e.cid].processed {
      LaunchFacts(c, taken, e);
    }
  }

  /** Overwriting a slot changes the busy count by the difference of the two entries. */
  lemma {:induction false} BusyUpdate(pool: seq<Option<Handle>>, k: nat, h: Option<Handle>)
    requires k < |pool|
    ensures Busy(pool[k := h]) + (if pool[k].Some? then 1 else 0) == Busy(pool) + (if h.Some? then 1 else 0)
  {
    var n := |pool| - 1;
    if k < n {
      BusyUpdate(pool[..n], k, h);
      assert pool[k := h][..n] == pool[..n][k := h];
    } else {
      assert pool[k := h][..n] == pool[..n];
    }
  }

  // ---------------------------------------------------------------------
  // Results without a model
  // ---------------------------------------------------------------------

  predicate RunsJob(j: Option<Entry>, cid: int) {
    j.Some? && j.value.cid == cid
  }

  /** The slot whose job is constraint `cid`, first in id order (`_running_constraint`, symbolic/explore.py:168-175). */
  function RunningSlot(jobs: seq<Option<Entry>>, cid: int): (r: Option<nat>)
    ensures r.Some? ==> r.value < |jobs| && jobs[r.value].Some? && jobs[r.value].value.cid == cid
    ensures r.Some? ==> forall k :: 0 <= k < r.value ==> !(jobs[k].Some? && jobs[k].value.cid == cid)
    ensures r.None? ==> forall k :: 0 <= k < |jobs| ==> !(jobs[k].Some? && jobs[k].value.cid == cid)
  {
    FirstIndex(jobs, (j: Option<Entry>) => j.Some? && j.value.cid == cid)
  }

  /** A slot running `cid`, with none running it before, is the one `_running_constraint` finds. */
  lemma RunningSlotIs(jobs: seq<Option<Entry>>, cid: int, k: nat)
    requires k < |jobs| && RunsJob(jobs[k], cid)
    requires forall j :: 0 <= j < k ==> !RunsJob(jobs[j], cid)
    ensures RunningSlot(jobs, cid) == Some(k)
  {
  }

  lemma RunningSlotIsNone(jobs: seq<Option<Entry>>, cid: int)
    requires forall j :: 0 <= j < |jobs| ==> !RunsJob(jobs[j], cid)
    ensures RunningSlot(jobs, cid) == None
  {
  }

  /** Re-queue at timeout `t` with `processed` cleared (symbolic/explore.py:134-135). */
  function Escalate(s: EngineState, cid: int, t: int): EngineState
    requires cid in s.nodes
  {
    s.(nodes := s.nodes[cid := s.nodes[cid].(processed := false)], pending := s.pending + multiset{Entry(t, cid)})
  }

  /** Give up on the branch: add its negated sibling, with no inputs, under the same parent (symbolic/explore.py:137-140). */
  function Archive(s: EngineState, cid: int): EngineState
    requires cid in s.nodes
  {
    var n := s.nodes[cid];
    s.(nodes := s.nodes[s.nextId := Node(n.parent, !n.outcome, false, None)], nextId := s.nextId + 1)
  }

  /** The three stages of symbolic/explore.py:129-141, after the attempt count was lowered. */
  function NoModel(c: Config, s: EngineState, m: Finished): EngineState
    requires m.cid in s.nodes && m.timeout in c.ladder
  {
    if RunningSlot(s.jobs, m.cid).Some? || Attempts(s, (m.cid, m.timeout)) > 0 then s
    else
      var i := IndexOf(c.ladder, m.timeout);
      if i + 1 < |c.ladder| && m.result != UNSAT then Escalate(s, m.cid, c.ladder[i + 1])
      else Archive(s, m.cid)
  }

  /** While the constraint still runs somewhere or has attempts outstanding at that timeout, nothing changes. */
  lemma NoModelWaits(c: Config, s: EngineState, m: Finished)
    requires m.cid in s.nodes && m.timeout in c.ladder
    requires RunningSlot(s.jobs, m.cid).Some? || Attempts(s, (m.cid, m.timeout)) > 0
    ensures NoModel(c, s, m) == s
  {
  }

  /**
   * Otherwise a result other than UNSAT below the top rung re-queues the
   * constraint at the next rung, a strictly larger timeout, with
   * `processed` cleared.
   */
  lemma NoModelEscalates(c: Config, s: EngineState, m: Finished)
    requires StrictlyIncreasing(c.ladder) && m.cid in s.nodes && m.timeout in c.ladder
    requires RunningSlot(s.jobs, m.cid).None? && Attempts(s, (m.cid, m.timeout)) <= 0
    requires IndexOf(c.ladder, m.timeout) + 1 < |c.ladder| && m.result != UNSAT
    ensures var t := NoModel(c, s, m);
            var next := c.ladder[IndexOf(c.ladder, m.timeout) + 1];
            t.pending == s.pending + multiset{Entry(next, m.cid)} && m.timeout < next &&
            t.nodes == s.nodes[m.cid := s.nodes[m.cid].(processed := false)] && t.nextId == s.nextId
  {
    NextRung(c.ladder, m.timeout);
  }

  /**
   * An UNSAT result, or any result at the top rung, archives the negated
   * sibling instead: one fresh node under the same parent, with no inputs,
   * and nothing queued.
   */
  lemma NoModelArchives(c: Config, s: EngineState, m: Finished)
    requires m.cid in s.nodes && m.timeout in c.ladder
    requires RunningSlot(s.jobs, m.cid).None? && Attempts(s, (m.cid, m.timeout)) <= 0
    requires m.result == UNSAT || IndexOf(c.ladder, m.timeout) + 1 == |c.ladder|
    ensures var t := NoModel(c, s, m);
            t.pending == s.pending && t.nextId == s.nextId + 1 &&
            t.nodes == s.nodes[s.nextId := Node(s.nodes[m.cid].parent, !s.nodes[m.cid].outcome, false, None)]
  {
  }

  /** None of the three stages touches the slots or the solved set, and each keeps the invariant. */
  lemma NoModelInv(c: Config, s: EngineState, m: Finished)
    requires Inv(c, s) && m.cid in s.nodes && m.timeout in c.ladder
    ensures var t := NoModel(c, s, m);
            Inv(c, t) && t.jobs == s.jobs && t.pool == s.pool && t.solved == s.solved && t.finished == s.finished &&
            t.attempts == s.attempts && t.inputs == s.inputs && t.numProcessed == s.numProcessed &&
            t.generatedInputs == s.generatedInputs && t.returnValues == s.returnValues
  {
    var t := NoModel(c, s, m);
    if t != s {
      var i := IndexOf(c.ladder, m.timeout);
      assert i + 1 < |c.ladder| ==> c.ladder[i + 1] in c.ladder;
      forall e | e in t.pending ensures Queued(c, t, e) {
        assert e in s.pending || e.cid == m.cid;
      }
      assert forall k :: 0 <= k < |t.jobs| && t.jobs[k].Some? ==> Launched(c, s, t.jobs[k].value);
      assert forall i :: 0 <= i < |t.finished| ==> Reported(c, s, t.finished[i]);
    }
  }

  // ---------------------------------------------------------------------
  // Results with a model
  // ---------------------------------------------------------------------

  /** The cancel loop of symbolic/explore.py:143-150: every slot running `cid` is freed. */
  function Cancel(s: EngineState, cid: int): EngineState
    requires Paired(s.pool, s.jobs)
  {
    s.(pool := seq(|s.pool|, k requires 0 <= k < |s.pool| => if RunsJob(s.jobs[k], cid) then None else s.pool[k]),
       jobs := seq(|s.jobs|, k requires 0 <= k < |s.jobs| => if RunsJob(s.jobs[k], cid) then None else s.jobs[k]))
  }

  /** After cancelling, no slot runs `cid`, every other slot is untouched, and the invariant holds. */
  lemma CancelFacts(c: Config, s: EngineState, cid: int)
    requires Inv(c, s)
    ensures var t := Cancel(s, cid);
            Inv(c, t) && RunningSlot(t.jobs, cid).None? && t.pending == s.pending &&
            forall k :: 0 <= k < |s.jobs| && !RunsJob(s.jobs[k], cid) ==> t.jobs[k] == s.jobs[k] && t.pool[k] == s.pool[k]
  {
    var t := Cancel(s, cid);
    assert forall i :: 0 <= i < |t.finished| ==> t.finished[i] == s.finished[i];
  }

  /** Freeing one slot that runs `cid` keeps the table paired, frees one busy slot and leaves less to cancel. */
  lemma CancelStep(s: EngineState, cid: int, k: nat)
    requires Paired(s.pool, s.jobs) && k < |s.jobs| && RunsJob(s.jobs[k], cid)
    ensures var t := s.(pool := s.pool[k := None], jobs := s.jobs[k := None]);
            Paired(t.pool, t.jobs) && Cancel(t, cid) == Cancel(s, cid) && Busy(t.pool) < Busy(s.pool)
  {
    var t := s.(pool := s.pool[k := None], jobs := s.jobs[k := None]);
    BusyUpdate(s.pool, k, None);
    assert Cancel(t, cid).pool == Cancel(s, cid).pool;
    assert Cancel(t, cid).jobs == Cancel(s, cid).jobs;
  }

  /** With no slot running `cid`, cancelling changes nothing. */
  lemma CancelIdle(s: EngineState, cid: int)
    requires Paired(s.pool, s.jobs) && RunningSlot(s.jobs, cid).None?
    ensures Cancel(s, cid) == s
  {
    assert Cancel(s, cid).pool == s.pool;
    assert Cancel(s, cid).jobs == s.jobs;
  }

  /** The inputs after `_updateSymbolicParameter` for every binding of `model` (symbolic/explore.py:152-153, 218-219). */
  function ApplyModel(c: Config, inputs: map<string, ArgValue>, model: map<string, Value>): map<string, ArgValue>
    requires model.Keys <= c.ctors.Keys
  {
    inputs + map n | n in model :: Apply(c.ctors[n], n, model[n])
  }

  /** The inputs part way through the loop of symbolic/explore.py:152-153, with `todo` still to take over. */
  ghost predicate PartlyApplied(c: Config, inputs: map<string, ArgValue>, model: map<string, Value>,
                                todo: set<string>, r: map<string, ArgValue>) {
    model.Keys <= c.ctors.Keys && model.Keys <= inputs.Keys && todo <= model.Keys && r.Keys == inputs.Keys &&
    forall n :: n in r ==> r[n] == if n in model && n !in todo then Apply(c.ctors[n], n, model[n]) else inputs[n]
  }

  lemma PartlyAppliedStep(c: Config, inputs: map<string, ArgValue>, model: map<string, Value>,
                          todo: set<string>, r: map<string, ArgValue>, name: string)
    requires PartlyApplied(c, inputs, model, todo, r) && name in todo
    ensures PartlyApplied(c, inputs, model, todo - {name}, r[name := Apply(c.ctors[name], name, model[name])])
  {
  }

  /** A table that agrees with the model on its names and with `inputs` elsewhere is `ApplyModel`'s result. */
  lemma ApplyModelIs(c: Config, inputs: map<string, ArgValue>, model: map<string, Value>, r: map<string, ArgValue>)
    requires model.Keys <= c.ctors.Keys && model.Keys <= inputs.Keys && r.Keys == inputs.Keys
    requires forall n :: n in r ==> r[n] == if n in model then Apply(c.ctors[n], n, model[n]) else inputs[n]
    ensures r == ApplyModel(c, inputs, model)
  {
  }

  /**
   * A model sets every symbolic argument it binds to its value; arguments it
   * does not bind keep theirs, and concrete arguments ignore it.
   */
  lemma ApplyModelFacts(c: Config, inputs: map<string, ArgValue>, model: map<string, Value>)
    requires model.Keys <= c.ctors.Keys
    ensures var r := ApplyModel(c, inputs, model);
            r.Keys == inputs.Keys + model.Keys &&
            (forall n :: n in model && c.ctors[n].SymbolicCtor? ==> ConcreteValue(r[n]) == model[n]) &&
            (forall n :: n in model && c.ctors[n].ConstantCtor? ==> r[n] == Plain(c.ctors[n].val)) &&
            (forall n :: n in inputs && n !in model ==> r[n] == inputs[n])
  {
  }

  // ---------------------------------------------------------------------
  // One execution of the target
  // ---------------------------------------------------------------------

  /** `_recordInputs` (symbolic/explore.py:244-247): each argument's concrete value, in argument order. */
  function Record(names: seq<string>, inputs: map<string, ArgValue>): (r: seq<(string, Value)>)
    requires forall i :: 0 <= i < |names| ==> names[i] in inputs
    ensures |r| == |names|
    ensures forall i :: 0 <= i < |r| ==> r[i].0 == names[i] && r[i].1 == ConcreteValue(inputs[names[i]])
  {
    seq(|names|, i requires 0 <= i < |names| => (names[i], ConcreteValue(inputs[names[i]])))
  }

  /**
   * The tuple recorded for the first execution gives every argument the
   * value it was declared with: a `@concrete` argument its constant, a
   * symbolic one its initial value.
   */
  lemma RecordInitial(c: Config)
    requires ConfigOk(c)
    ensures forall i :: 0 <= i < |c.names| ==> c.names[i] in Init(c).inputs
    ensures var r := Record(c.names, Init(c).inputs);
            |r| == |c.names| &&
            forall i :: 0 <= i < |r| ==>
              r[i].0 == c.names[i] &&
              r[i].1 == (if c.ctors[c.names[i]].ConstantCtor? then c.ctors[c.names[i]].val else c.values[c.names[i]])
  {
    assert forall i :: 0 <= i < |c.names| ==> c.names[i] in c.ctors && c.names[i] in c.values;
  }

  /**
   * The tuple recorded after a model is taken over gives every symbolic
   * argument the model binds the model's value, every `@concrete` argument
   * the model binds its constant, and every other argument its earlier value.
   */
  lemma RecordAfterModel(c: Config, inputs: map<string, ArgValue>, model: map<string, Value>)
    requires ConfigOk(c) && inputs.Keys == c.ctors.Keys && model.Keys <= c.ctors.Keys
    ensures forall i :: 0 <= i < |c.names| ==> c.names[i] in ApplyModel(c, inputs, model)
    ensures var r := Record(c.names, ApplyModel(c, inputs, model));
            |r| == |c.names| &&
            forall i :: 0 <= i < |r| ==>
              var n := c.names[i];
              r[i].0 == n &&
              (n in model && c.ctors[n].SymbolicCtor? ==> r[i].1 == model[n]) &&
              (n in model && c.ctors[n].ConstantCtor? ==> r[i].1 == c.ctors[n].val) &&
              (n !in model ==> r[i].1 == ConcreteValue(inputs[n]))
  {
    ApplyModelFacts(c, inputs, model);
  }

  /** A new branch becomes a fresh, unprocessed node whose id `addConstraint` appends to `new_constraints`. */
  function AddNode(s: EngineState, nc: NewConstraint): EngineState {
    s.(nodes := s.nodes[s.nextId := Node(nc.parent, nc.outcome, false, None)],
       newConstraints := s.newConstraints + [s.nextId],
       nextId := s.nextId + 1)
  }

  lemma AddNodeInv(c: Config, s: EngineState, nc: NewConstraint)
    requires Inv(c, s)
    ensures Inv(c, AddNode(s, nc))
  {
    var t := AddNode(s, nc);
    assert forall i :: 0 <= i < |t.finished| ==> t.finished[i] == s.finished[i];
    assert forall k :: 0 <= k < |t.jobs| && t.jobs[k].Some? ==> t.jobs[k] == s.jobs[k];
  }

  /** The branches one run reports, in order. */
  function Discover(s: EngineState, d: seq<NewConstraint>): EngineState
    decreases |d|
  {
    if |d| == 0 then s else Discover(AddNode(s, d[0]), d[1..])
  }

  /** The new ids are consecutive, fresh, and appended in discovery order; nothing else changes. */
  lemma {:induction false} DiscoverFacts(c: Config, s: EngineState, d: seq<NewConstraint>)
    requires Inv(c, s)
    ensures var t := Discover(s, d);
            Inv(c, t) && t.nextId == s.nextId + |d| &&
            t.newConstraints == s.newConstraints + seq(|d|, j requires 0 <= j < |d| => s.nextId + j) &&
            (forall n :: n in t.nodes <==> n in s.nodes || s.nextId <= n < t.nextId) &&
            (forall j :: 0 <= j < |d| ==> t.nodes[s.nextId + j] == Node(d[j].parent, d[j].outcome, false, None)) &&
            (forall n :: n in s.nodes ==> t.nodes[n] == s.nodes[n]) &&
            t == s.(nodes := t.nodes, newConstraints := t.newConstraints, nextId := t.nextId)
    decreases |d|
  {
    if |d| > 0 {
      var s1 := AddNode(s, d[0]);
      AddNodeInv(c, s, d[0]);
      DiscoverFacts(c, s1, d[1..]);
      var t := Discover(s, d);
      var tail := seq(|d| - 1, j requires 0 <= j < |d| - 1 => s1.nextId + j);
      assert s1.newConstraints + tail == s.newConstraints + seq(|d|, j requires 0 <= j < |d| => s.nextId + j);
      forall j | 0 <= j < |d| ensures t.nodes[s.nextId + j] == Node(d[j].parent, d[j].outcome, false, None) {
        if j > 0 {
          assert d[1..][j - 1] == d[j];
        }
      }
    }
  }

  /** The entries the drain loop puts on the queue: each id in `ids` at timeout `t`. */
  function QueuedAt(t: int, ids: seq<int>): multiset<Entry> {
    if |ids| == 0 then multiset{}
    else QueuedAt(t, ids[..|ids| - 1]) + multiset{Entry(t, ids[|ids| - 1])}
  }

  lemma {:induction false} QueuedAtMembers(t: int, ids: seq<int>, e: Entry)
    ensures e in QueuedAt(t, ids) <==> e.timeout == t && e.cid in ids
  {
    if |ids| > 0 {
      var init := ids[..|ids| - 1];
      QueuedAtMembers(t, init, e);
      assert ids == init + [ids[|ids| - 1]];
    }
  }

  /** `constraint.inputs = copy of the current inputs` for every id in `ids`. */
  function WithInputs(nodes: map<int, Node>, ids: seq<int>, inputs: map<string, ArgValue>): map<int, Node> {
    map n | n in nodes :: if n in ids then nodes[n].(inputs := Some(inputs)) else nodes[n]
  }

  /** Marking one more id, in front of the ones already marked, with the inputs. */
  lemma WithInputsStep(nodes: map<int, Node>, ids: seq<int>, k: nat, inputs: map<string, ArgValue>)
    requires 0 < k <= |ids|
    ensures var after := WithInputs(nodes, ids[k..], inputs);
            ids[k - 1] in nodes ==>
              WithInputs(nodes, ids[k - 1..], inputs) == after[ids[k - 1] := after[ids[k - 1]].(inputs := Some(inputs))]
  {
    assert ids[k - 1..] == [ids[k - 1]] + ids[k..];
  }

  /** The drain loop of symbolic/explore.py:258-261, after a run that returned. */
  function Drain(c: Config, s: EngineState): EngineState
    requires |c.ladder| > 0
  {
    s.(pending := s.pending + QueuedAt(c.ladder[0], s.newConstraints),
       nodes := WithInputs(s.nodes, s.newConstraints, s.inputs),
       newConstraints := [])
  }

  /**
   * The drain loop part way: `cur` has popped all but a prefix of `d`'s new
   * constraints, queued each popped one at rung `t0` and given it `d`'s inputs.
   */
  ghost predicate DrainedUpTo(d: EngineState, t0: int, cur: EngineState) {
    var ids := d.newConstraints;
    var k := |cur.newConstraints|;
    k <= |ids| && cur.newConstraints == ids[..k] &&
    cur == d.(pending := cur.pending, nodes := cur.nodes, newConstraints := cur.newConstraints) &&
    cur.pending + QueuedAt(t0, cur.newConstraints) == d.pending + QueuedAt(t0, ids) &&
    cur.nodes == WithInputs(d.nodes, ids[k..], d.inputs)
  }

  lemma DrainStart(d: EngineState, t0: int)
    ensures DrainedUpTo(d, t0, d)
  {
    assert d.newConstraints[..|d.newConstraints|] == d.newConstraints;
    assert d.nodes == WithInputs(d.nodes, [], d.inputs);
  }

  /** One round of the drain loop: pop the last id, give it the inputs, queue it. */
  lemma DrainPop(d: EngineState, t0: int, cur: EngineState)
    requires DrainedUpTo(d, t0, cur) && |cur.newConstraints| > 0
    requires forall i :: 0 <= i < |d.newConstraints| ==> d.newConstraints[i] in d.nodes
    ensures var k := |cur.newConstraints| - 1;
            var cid := cur.newConstraints[k];
            cid in cur.nodes &&
            DrainedUpTo(d, t0, cur.(newConstraints := cur.newConstraints[..k],
                                    nodes := cur.nodes[cid := cur.nodes[cid].(inputs := Some(cur.inputs))],
                                    pending := cur.pending + multiset{Entry(t0, cid)}))
  {
    var ids := d.newConstraints;
    var k := |cur.newConstraints| - 1;
    var cid := cur.newConstraints[k];
    assert cid == ids[k] && cid in d.nodes;
    WithInputsStep(d.nodes, ids, k + 1, d.inputs);
    assert cur.newConstraints[..k] == ids[..k];
    assert cur.newConstraints == cur.newConstraints[..k] + [cid];
  }

  lemma DrainDone(c: Config, d: EngineState, cur: EngineState)
    requires |c.ladder| > 0 && DrainedUpTo(d, c.ladder[0], cur) && cur.newConstraints == []
    ensures cur == Drain(c, d)
  {
    assert d.newConstraints[0..] == d.newConstraints;
  }

  /** `_oneExecution` (symbolic/explore.py:250-276) for a run that behaves as `run`. */
  function Execute(c: Config, s: EngineState, run: Run): EngineState
    requires ConfigOk(c) && Inv(c, s)
  {
    var recorded := s.(generatedInputs := s.generatedInputs + [Record(c.names, s.inputs)]);
    var t := Discover(recorded, run.discovered);
    match run.outcome
    case Returned(v) => Drain(c, t).(returnValues := t.returnValues + [ReturnValue(v)])
    case Raised(exc, frames) => t.(returnValues := t.returnValues + [ExceptionValue(exc, TagOf(frames))])
  }

  /**
   * One execution records exactly one input tuple and one return value,
   * keeping the two lists aligned, and leaves slots, results and counters
   * alone.
   */
  lemma ExecuteFacts(c: Config, s: EngineState, run: Run)
    requires ConfigOk(c) && Inv(c, s)
    ensures var t := Execute(c, s, run);
            Inv(c, t) &&
            t.generatedInputs == s.generatedInputs + [Record(c.names, s.inputs)] &&
            |t.returnValues| == |s.returnValues| + 1 && t.returnValues[..|s.returnValues|] == s.returnValues &&
            t.pool == s.pool && t.jobs == s.jobs && t.finished == s.finished && t.solved == s.solved &&
            t.attempts == s.attempts && t.numProcessed == s.numProcessed && t.inputs == s.inputs
  {
    var recorded := s.(generatedInputs := s.generatedInputs + [Record(c.names, s.inputs)]);
    OutputsOnly(c, s, recorded);
    DiscoverFacts(c, recorded, run.discovered);
    var d := Discover(recorded, run.discovered);
    var t := Execute(c, s, run);
    if run.outcome.Returned? {
      DrainInv(c, d);
      OutputsOnly(c, Drain(c, d), t);
    } else {
      OutputsOnly(c, d, t);
    }
  }

  /** The invariant does not depend on the two output lists. */
  lemma OutputsOnly(c: Config, s: EngineState, t: EngineState)
    requires Inv(c, s) && t == s.(generatedInputs := t.generatedInputs, returnValues := t.returnValues)
    ensures Inv(c, t)
  {
    assert forall i :: 0 <= i < |t.finished| ==> t.finished[i] == s.finished[i];
    assert forall k :: 0 <= k < |t.jobs| && t.jobs[k].Some? ==> t.jobs[k] == s.jobs[k];
  }

  /**
   * A run that returns queues every id in `new_constraints`, the ones it
   * found itself included, at the lowest rung, each carrying the current
   * inputs, then empties the list; its value is recorded.
   */
  lemma ExecuteReturned(c: Config, s: EngineState, run: Run)
    requires ConfigOk(c) && Inv(c, s) && run.outcome.Returned?
    ensures var t := Execute(c, s, run);
            var found := s.newConstraints + seq(|run.discovered|, j requires 0 <= j < |run.discovered| => s.nextId + j);
            t.newConstraints == [] && t.pending == s.pending + QueuedAt(c.ladder[0], found) &&
            t.returnValues == s.returnValues + [ReturnValue(run.outcome.value)] &&
            (forall i :: 0 <= i < |found| ==> found[i] in t.nodes && t.nodes[found[i]].inputs == Some(s.inputs))
  {
    var recorded := s.(generatedInputs := s.generatedInputs + [Record(c.names, s.inputs)]);
    OutputsOnly(c, s, recorded);
    DiscoverFacts(c, recorded, run.discovered);
    var d := Discover(recorded, run.discovered);
    var found := s.newConstraints + seq(|run.discovered|, j requires 0 <= j < |run.discovered| => s.nextId + j);
    assert d.newConstraints == found && d.pending == s.pending && d.inputs == s.inputs;
    assert Execute(c, s, run) == Drain(c, d).(returnValues := d.returnValues + [ReturnValue(run.outcome.value)]);
  }

  /**
   * A run that raises queues nothing: the constraints it found stay in
   * `new_constraints` for a later run.  The exception is recorded with the
   * tag of its innermost non-instrumentation frame.
   */
  lemma ExecuteRaised(c: Config, s: EngineState, run: Run)
    requires ConfigOk(c) && Inv(c, s) && run.outcome.Raised?
    ensures var t := Execute(c, s, run);
            t.newConstraints == s.newConstraints + seq(|run.discovered|, j requires 0 <= j < |run.discovered| => s.nextId + j) &&
            t.pending == s.pending &&
            t.returnValues == s.returnValues + [ExceptionValue(run.outcome.exception, TagOf(run.outcome.frames))]
  {
    var recorded := s.(generatedInputs := s.generatedInputs + [Record(c.names, s.inputs)]);
    OutputsOnly(c, s, recorded);
    DiscoverFacts(c, recorded, run.discovered);
  }

  lemma DrainInv(c: Config, s: EngineState)
    requires ConfigOk(c) && Inv(c, s)
    ensures Inv(c, Drain(c, s)) && Drain(c, s).nodes.Keys == s.nodes.Keys
  {
    var t := Drain(c, s);
    forall e | e in t.pending ensures Queued(c, t, e) {
      if e !in s.pending {
        QueuedAtMembers(c.ladder[0], s.newConstraints, e);
      }
    }
    assert forall i :: 0 <= i < |t.finished| ==> t.finished[i] == s.finished[i];
    assert forall k :: 0 <= k < |t.jobs| && t.jobs[k].Some? ==> t.jobs[k] == s.jobs[k];
  }

  // ---------------------------------------------------------------------
  // Consuming a finished result (symbolic/explore.py:83-86, 120-159)
  // ---------------------------------------------------------------------

  /** After a result with a model: cancel, take over the model, run, count (symbolic/explore.py:143-159). */
  function Solve(c: Config, s: EngineState, cid: int, model: map<string, Value>, run: Run): EngineState
    requires ConfigOk(c) && Inv(c, s) && model.Keys <= c.ctors.Keys
  {
    var cancelled := Cancel(s, cid);
    CancelFacts(c, s, cid);
    var updated := cancelled.(inputs := ApplyModel(c, cancelled.inputs, model));
    InputsOnly(c, cancelled, updated);
    var ran := Execute(c, updated, run);
    ran.(numProcessed := ran.numProcessed + 1, solved := ran.solved + {cid})
  }

  /** `Solve` is its three stages in order: cancel, take over the model, execute; then count. */
  lemma SolveIs(c: Config, s: EngineState, cid: int, model: map<string, Value>, run: Run, updated: EngineState)
    requires ConfigOk(c) && Inv(c, s) && model.Keys <= c.ctors.Keys
    requires updated == Cancel(s, cid).(inputs := ApplyModel(c, s.inputs, model)) && Inv(c, updated)
    ensures var ran := Execute(c, updated, run);
            Solve(c, s, cid, model, run) == ran.(numProcessed := ran.numProcessed + 1, solved := ran.solved + {cid})
  {
  }

  /** The invariant only asks the inputs to bind every argument. */
  lemma InputsOnly(c: Config, s: EngineState, t: EngineState)
    requires Inv(c, s) && t == s.(inputs := t.inputs) && t.inputs.Keys == c.ctors.Keys
    ensures Inv(c, t)
  {
    assert forall i :: 0 <= i < |t.finished| ==> t.finished[i] == s.finished[i];
    assert forall k :: 0 <= k < |t.jobs| && t.jobs[k].Some? ==> t.jobs[k] == s.jobs[k];
  }

  /**
   * A result taken off the channel: ignored when its constraint is already
   * solved, otherwise one attempt at that timeout is no longer outstanding
   * and the result is handled with or without its model.
   */
  function Consume(c: Config, s: EngineState, m: Finished, run: Run): EngineState
    requires ConfigOk(c) && Inv(c, s) && Reported(c, s, m)
  {
    if m.cid in s.solved then s
    else
      var t := Lowered(s, m);
      AttemptsOnly(c, s, t);
      if m.model.None? then NoModel(c, t, m)
      else Solve(c, t, m.cid, m.model.value, run)
  }

  /** The invariant survives removing entries from the queue. */
  lemma PendingOnly(c: Config, s: EngineState, t: EngineState)
    requires Inv(c, s) && t == s.(pending := t.pending) && t.pending <= s.pending
    ensures Inv(c, t)
  {
    assert forall i :: 0 <= i < |t.finished| ==> t.finished[i] == s.finished[i];
    assert forall k :: 0 <= k < |t.jobs| && t.jobs[k].Some? ==> t.jobs[k] == s.jobs[k];
  }

  /** `get_nowait` on the finished channel: the rest keeps the invariant and the result taken was reported. */
  lemma PopFinished(c: Config, s: EngineState)
    requires Inv(c, s) && s.finished != []
    ensures var t := s.(finished := s.finished[1..]);
            Inv(c, t) && Reported(c, t, s.finished[0])
  {
    var t := s.(finished := s.finished[1..]);
    assert forall i :: 0 <= i < |t.finished| ==> t.finished[i] == s.finished[i + 1];
    assert forall k :: 0 <= k < |t.jobs| && t.jobs[k].Some? ==> t.jobs[k] == s.jobs[k];
  }

  /** The invariant only asks the attempt table to keep its keys. */
  lemma AttemptsOnly(c: Config, s: EngineState, t: EngineState)
    requires Inv(c, s) && t == s.(attempts := t.attempts) && s.attempts.Keys <= t.attempts.Keys
    ensures Inv(c, t)
  {
    assert forall i :: 0 <= i < |t.finished| ==> Reported(c, s, t.finished[i]);
    assert forall k :: 0 <= k < |t.jobs| && t.jobs[k].Some? ==> Launched(c, s, t.jobs[k].value);
  }

  /** Once a constraint is solved, every later result for it is dropped without any change. */
  lemma ConsumeSolved(c: Config, s: EngineState, m: Finished, run: Run)
    requires ConfigOk(c) && Inv(c, s) && Reported(c, s, m) && m.cid in s.solved
    ensures Consume(c, s, m, run) == s
  {
  }

  /** A result for an unsolved constraint lowers its attempt count, then acts on the model or its absence. */
  lemma ConsumeIs(c: Config, s: EngineState, m: Finished, run: Run)
    requires ConfigOk(c) && Inv(c, s) && Reported(c, s, m) && m.cid !in s.solved
    ensures var t := Lowered(s, m);
            Inv(c, t) && m.cid in t.nodes && m.timeout in c.ladder && (m.model.Some? ==> m.model.value.Keys <= c.ctors.Keys) &&
            Consume(c, s, m, run) == if m.model.None? then NoModel(c, t, m) else Solve(c, t, m.cid, m.model.value, run)
  {
    AttemptsOnly(c, s, Lowered(s, m));
  }

  /** The state with one attempt fewer outstanding for the result's (id, timeout). */
  function Lowered(s: EngineState, m: Finished): (t: EngineState)
    requires (m.cid, m.timeout) in s.attempts
    ensures t == s.(attempts := t.attempts) && t.attempts.Keys == s.attempts.Keys
    ensures t.attempts[(m.cid, m.timeout)] == s.attempts[(m.cid, m.timeout)] - 1
  {
    var key := (m.cid, m.timeout);
    s.(attempts := s.attempts[key := s.attempts[key] - 1])
  }

  /** Any result not dropped lowers the attempt count for its (id, timeout) by exactly one. */
  lemma ConsumeCounts(c: Config, s: EngineState, m: Finished, run: Run)
    requires ConfigOk(c) && Inv(c, s) && Reported(c, s, m) && m.cid !in s.solved
    ensures var t := Consume(c, s, m, run);
            t.attempts == s.attempts[(m.cid, m.timeout) := Attempts(s, (m.cid, m.timeout)) - 1]
  {
    ConsumeIs(c, s, m, run);
    var t := Lowered(s, m);
    if m.model.None? {
      NoModelInv(c, t, m);
    } else {
      SolveFacts(c, t, m.cid, m.model.value, run);
    }
  }

  /**
   * What consuming one result does: a result for a solved constraint is
   * dropped; a result without a model leaves the solved set, the slots and
   * the recorded inputs alone; a result with a model solves its constraint,
   * stops every slot still running it, counts one more processed constraint
   * and records one more input.
   */
  lemma ConsumeOutcome(c: Config, s: EngineState, m: Finished, run: Run)
    requires ConfigOk(c) && Inv(c, s) && Reported(c, s, m)
    ensures var t := Consume(c, s, m, run);
            (m.cid in s.solved ==> t == s) &&
            (m.cid !in s.solved && m.model.None? ==>
               t.solved == s.solved && t.jobs == s.jobs && t.pool == s.pool &&
               t.numProcessed == s.numProcessed && t.generatedInputs == s.generatedInputs) &&
            (m.cid !in s.solved && m.model.Some? ==>
               t.solved == s.solved + {m.cid} && RunningSlot(t.jobs, m.cid).None? &&
               t.numProcessed == s.numProcessed + 1 && |t.generatedInputs| == |s.generatedInputs| + 1)
  {
    if m.cid !in s.solved {
      ConsumeIs(c, s, m, run);
      var t := Lowered(s, m);
      if m.model.None? {
        NoModelInv(c, t, m);
      } else {
        SolveFacts(c, t, m.cid, m.model.value, run);
      }
    }
  }

  /**
   * A result without a model that is consumed while a slot still holds a job
   * for the same constraint (the solver process that sent it, not yet reaped,
   * included) neither re-queues the constraint nor archives its sibling: the
   * queue and the tree stay as they were.
   */
  lemma ConsumeWaitsWhileSlotHeld(c: Config, s: EngineState, m: Finished, run: Run, k: nat)
    requires ConfigOk(c) && Inv(c, s) && Reported(c, s, m) && m.cid !in s.solved && m.model.None?
    requires k < |s.jobs| && s.jobs[k] == Some(Entry(m.timeout, m.cid))
    ensures var t := Consume(c, s, m, run);
            t.pending == s.pending && t.nodes == s.nodes && t.nextId == s.nextId && t.solved == s.solved
  {
    ConsumeIs(c, s, m, run);
    var t := Lowered(s, m);
    assert t.jobs[k].Some? && t.jobs[k].value.cid == m.cid;
    NoModelWaits(c, t, m);
  }

  /**
   * After a result with a model no slot runs that constraint, the constraint
   * is solved, one more constraint counts as processed, and one execution
   * ran on the inputs the model gives.
   */
  lemma SolveFacts(c: Config, s: EngineState, cid: int, model: map<string, Value>, run: Run)
    requires ConfigOk(c) && Inv(c, s) && model.Keys <= c.ctors.Keys
    ensures var t := Solve(c, s, cid, model, run);
            Inv(c, t) && RunningSlot(t.jobs, cid).None? && t.solved == s.solved + {cid} &&
            t.numProcessed == s.numProcessed + 1 && t.attempts == s.attempts &&
            t.inputs == ApplyModel(c, s.inputs, model) &&
            t.generatedInputs == s.generatedInputs + [Record(c.names, ApplyModel(c, s.inputs, model))] &&
            |t.returnValues| == |s.returnValues| + 1 && t.finished == s.finished && |t.pool| == |s.pool|
  {
    var cancelled := Cancel(s, cid);
    CancelFacts(c, s, cid);
    var updated := cancelled.(inputs := ApplyModel(c, s.inputs, model));
    InputsOnly(c, cancelled, updated);
    SolveIs(c, s, cid, model, run, updated);
    ExecuteFacts(c, updated, run);
    CountersOnly(c, Execute(c, updated, run), Solve(c, s, cid, model, run));
  }

  /** The invariant does not depend on the counters or the solved set. */
  lemma CountersOnly(c: Config, s: EngineState, t: EngineState)
    requires Inv(c, s) && t == s.(numProcessed := t.numProcessed, solved := t.solved)
    ensures Inv(c, t)
  {
    assert forall i :: 0 <= i < |t.finished| ==> t.finished[i] == s.finished[i];
    assert forall k :: 0 <= k < |t.jobs| && t.jobs[k].Some? ==> t.jobs[k] == s.jobs[k];
  }

  /**
   * Consuming a result keeps the invariant, never shrinks the solved set,
   * only appends to the recorded inputs, and records as many return values
   * as inputs.
   */
  lemma ConsumeInv(c: Config, s: EngineState, m: Finished, run: Run)
    requires ConfigOk(c) && Inv(c, s) && Reported(c, s, m)
    ensures var t := Consume(c, s, m, run);
            Inv(c, t) && s.solved <= t.solved && t.finished == s.finished &&
            s.generatedInputs <= t.generatedInputs &&
            |t.generatedInputs| - |t.returnValues| == |s.generatedInputs| - |s.returnValues| &&
            |t.pool| == |s.pool|
  {
    if m.cid !in s.solved {
      ConsumeIs(c, s, m, run);
      var t := Lowered(s, m);
      if m.model.None? {
        NoModelInv(c, t, m);
      } else {
        SolveFacts(c, t, m.cid, m.model.value, run);
      }
    }
  }

  // ---------------------------------------------------------------------
  // What the solver processes do
  // ---------------------------------------------------------------------

  /** The tuple `_solve` puts on the channel for job `j`. */
  function Message(j: Entry, a: Answer): (m: Finished)
    ensures m.cid == j.cid && m.timeout == j.timeout
    ensures m.model.Some? <==> m.result == SAT
  {
    match a
    case Sat(model) => Finished(j.cid, j.timeout, SAT, Some(model))
    case Unsat => Finished(j.cid, j.timeout, UNSAT, None)
    case Unknown => Finished(j.cid, j.timeout, UNKNOWN, None)
  }

  /** A live process that has not answered yet can answer, with a model over argument names. */
  predicate CanPost(c: Config, s: EngineState, k: nat, a: Answer) {
    k < |s.pool| && s.pool[k].Some? && s.pool[k].value.alive && !s.pool[k].value.posted &&
    (a.Sat? ==> a.model.Keys <= c.ctors.Keys)
  }

  /** One event of the processes; an event that cannot happen in the current state leaves it unchanged. */
  function EnvEvent(c: Config, s: EngineState, ev: Event): EngineState
    requires Paired(s.pool, s.jobs)
  {
    match ev
    case Post(k, a, exits) =>
      if CanPost(c, s, k, a) then
        s.(finished := s.finished + [Message(s.jobs[k].value, a)], pool := s.pool[k := Some(Handle(!exits, true))])
      else s
    case Die(k) =>
      if k < |s.pool| && s.pool[k].Some? && s.pool[k].value.alive then
        s.(pool := s.pool[k := Some(s.pool[k].value.(alive := false))])
      else s
  }

  /**
   * The processes change only liveness and the channel: every slot stays
   * busy or free, the queue, jobs and counts are untouched, and a new
   * result comes from a running job.
   */
  lemma EnvEventFacts(c: Config, s: EngineState, ev: Event)
    requires Inv(c, s)
    ensures var t := EnvEvent(c, s, ev);
            Inv(c, t) && t.pending == s.pending && t.jobs == s.jobs && t.attempts == s.attempts &&
            t.solved == s.solved && t.nodes == s.nodes && |t.pool| == |s.pool| &&
            (forall k :: 0 <= k < |s.pool| ==> (t.pool[k].Some? <==> s.pool[k].Some?)) &&
            (t.finished == s.finished ||
             exists k :: 0 <= k < |s.jobs| && s.jobs[k].Some? &&
               t.finished == s.finished + [Message(s.jobs[k].value, ev.answer)])
  {
    var t := EnvEvent(c, s, ev);
    if ev.Post? && CanPost(c, s, ev.slot, ev.answer) {
      var m := Message(s.jobs[ev.slot].value, ev.answer);
      assert Reported(c, s, m);
      assert forall i :: 0 <= i < |t.finished| ==> Reported(c, s, t.finished[i]);
    }
    assert forall k :: 0 <= k < |t.jobs| && t.jobs[k].Some? ==> Launched(c, s, t.jobs[k].value);
  }

  /** The `finally` clause (symbolic/explore.py:161-164): every process is terminated; slots are not cleared. */
  function TerminateAll(s: EngineState): EngineState {
    s.(pool := seq(|s.pool|, k requires 0 <= k < |s.pool| =>
                   if s.pool[k].Some? then Some(s.pool[k].value.(alive := false)) else None))
  }

  /** Afterwards no process is alive, and nothing but liveness changed. */
  lemma TerminateAllFacts(c: Config, s: EngineState)
    requires Inv(c, s)
    ensures var t := TerminateAll(s);
            Inv(c, t) && Live(t.pool) == 0 &&
            (forall k :: 0 <= k < |t.pool| ==> !(t.pool[k].Some? && t.pool[k].value.alive)) &&
            (forall k :: 0 <= k < |s.pool| ==> (t.pool[k].Some? <==> s.pool[k].Some?)) &&
            t == s.(pool := t.pool)
  {
    var t := TerminateAll(s);
    NoneAlive(t.pool);
    assert forall k :: 0 <= k < |t.jobs| && t.jobs[k].Some? ==> Launched(c, s, t.jobs[k].value);
    assert forall i :: 0 <= i < |t.finished| ==> t.finished[i] == s.finished[i];
  }

  lemma {:induction false} NoneAlive(pool: seq<Option<Handle>>)
    requires forall k :: 0 <= k < |pool| ==> !(pool[k].Some? && pool[k].value.alive)
    ensures Live(pool) == 0
  {
    if |pool| > 0 {
      var init := pool[..|pool| - 1];
      assert forall k :: 0 <= k < |init| ==> init[k] == pool[k];
      NoneAlive(init);
    }
  }

  /** The processes never change which slots are busy. */
  lemma EnvEventPaired(c: Config, s: EngineState, ev: Event)
    requires Paired(s.pool, s.jobs)
    ensures var t := EnvEvent(c, s, ev);
            Paired(t.pool, t.jobs) && t.jobs == s.jobs
  {
  }

  /** A sequence of process events, in order. */
  function EnvEvents(c: Config, s: EngineState, events: seq<Event>): EngineState
    requires Paired(s.pool, s.jobs)
    decreases |events|
  {
    if |events| == 0 then s
    else
      EnvEventPaired(c, s, events[0]);
      EnvEvents(c, EnvEvent(c, s, events[0]), events[1..])
  }

  lemma {:induction false} EnvEventsFacts(c: Config, s: EngineState, events: seq<Event>)
    requires Inv(c, s)
    ensures var t := EnvEvents(c, s, events);
            Inv(c, t) && t.pending == s.pending && t.jobs == s.jobs && t.solved == s.solved &&
            t.attempts == s.attempts && t.nodes == s.nodes && t.generatedInputs == s.generatedInputs &&
            t.returnValues == s.returnValues
    decreases |events|
  {
    if |events| > 0 {
      EnvEventFacts(c, s, events[0]);
      EnvEventsFacts(c, EnvEvent(c, s, events[0]), events[1..]);
    }
  }

  /**
   * `_wait` (symbolic/explore.py:177-182): while no result is waiting and
   * some process still runs after reaping, the scheduler sleeps and the
   * processes act, one event per round.  The flag is false when the events
   * ran out before the wait ended.
   */
  function WaitLoop(c: Config, s: EngineState, events: seq<Event>): (EngineState, bool)
    requires Paired(s.pool, s.jobs)
    decreases |events|
  {
    if s.finished != [] then (s, true)
    else
      var t := Reap(s);
      ReapedFacts(s.pool, s.jobs);
      if Busy(t.pool) == 0 then (t, true)
      else if |events| == 0 then (t, false)
      else
        EnvEventPaired(c, t, events[0]);
        WaitLoop(c, EnvEvent(c, t, events[0]), events[1..])
  }

  /**
   * With no result waiting, reaping before a wait changes nothing: the wait
   * reaps first itself, and a second reap finds nothing more to clear.
   */
  lemma WaitLoopAfterReap(c: Config, s: EngineState, events: seq<Event>)
    requires Paired(s.pool, s.jobs) && s.finished == []
    ensures Paired(Reap(s).pool, Reap(s).jobs)
    ensures WaitLoop(c, Reap(s), events) == WaitLoop(c, s, events)
  {
    ReapedFacts(s.pool, s.jobs);
    ReapedIdempotent(s.pool, s.jobs);
    assert Reap(Reap(s)) == Reap(s);
  }

  /**
   * A wait that ends leaves a result waiting or no process running; it
   * keeps the invariant and changes neither the queue nor the bookkeeping.
   */
  lemma {:induction false} WaitLoopFacts(c: Config, s: EngineState, events: seq<Event>)
    requires Inv(c, s)
    ensures var (t, ended) := WaitLoop(c, s, events);
            Inv(c, t) && t.pending == s.pending && t.solved == s.solved && t.attempts == s.attempts &&
            t.nodes == s.nodes && t.generatedInputs == s.generatedInputs && t.returnValues == s.returnValues &&
            |t.pool| == |s.pool| && (ended ==> t.finished != [] || Busy(t.pool) == 0)
    decreases |events|
  {
    if s.finished == [] {
      var t := Reap(s);
      ReapFacts(c, s);
      if Busy(t.pool) != 0 && |events| > 0 {
        EnvEventFacts(c, t, events[0]);
        var u := EnvEvent(c, t, events[0]);
        WaitLoopFacts(c, u, events[1..]);
        assert WaitLoop(c, s, events) == WaitLoop(c, u, events[1..]);
      }
    }
  }
}
