/**
 * The worker-slot table and the pending queue of symbolic/explore.py.
 *
 * `worker_pool` and `worker_jobs` are dictionaries keyed by worker ids
 * 1..workers, in that order; here they are sequences where slot `k` stands
 * for worker id `k + 1`.  A slot is free when its entry is `None`.  The
 * priority queue `constraints_to_solve` holds (timeout, constraint) pairs
 * and is a multiset of entries: `get` yields an entry of least timeout, and
 * which of several such entries comes first depends on how constraint
 * objects compare, which the model leaves open.
 */
module WorkerSlots {
  import opened Wrappers

  /** A queued or running job: a constraint (by id) at a solver timeout in milliseconds. */
  datatype Entry = Entry(timeout: int, cid: int)

  /**
   * A solver process as the scheduler sees it: whether `is_alive()` holds,
   * and whether it has already put its result on the finished queue.
   */
  datatype Handle = Handle(alive: bool, posted: bool)

  /** The index of the first element satisfying `p`, if any. */
  function FirstIndex<T>(s: seq<T>, p: T -> bool): (r: Option<nat>)
    ensures r.Some? ==> r.value < |s| && p(s[r.value]) && forall k :: 0 <= k < r.value ==> !p(s[k])
    ensures r.None? ==> forall k :: 0 <= k < |s| ==> !p(s[k])
  {
    if |s| == 0 then None
    else if p(s[0]) then Some(0)
    else match FirstIndex(s[1..], p)
      case None => None
      case Some(k) => Some(k + 1)
  }

  predicate IsFree(h: Option<Handle>) {
    h.None?
  }

  /** The first free slot, in id order. */
  function FirstFree(pool: seq<Option<Handle>>): (r: Option<nat>)
    ensures r.Some? ==> r.value < |pool| && pool[r.value].None? && forall k :: 0 <= k < r.value ==> pool[k].Some?
    ensures r.None? ==> forall k :: 0 <= k < |pool| ==> pool[k].Some?
  {
    FirstIndex(pool, IsFree)
  }

  /**
   * `central_queue` (symbolic/explore.py:18-23): the first free slot, or
   * `None` when every slot is busy.  The timeout arguments are ignored.
   */
  method CentralQueue(pool: seq<Option<Handle>>, timeouts: seq<int>, selectedTimeout: int) returns (w: Option<nat>)
    ensures w == FirstFree(pool)
  {
    for k := 0 to |pool|
      invariant forall j :: 0 <= j < k ==> pool[j].Some?
    {
      if pool[k].None? {
        FirstFreeIs(pool, k);
        return Some(k);
      }
    }
    FirstFreeIsNone(pool);
    return None;
  }

  /** A free slot before which every slot is busy is the first free one. */
  lemma FirstFreeIs(pool: seq<Option<Handle>>, k: nat)
    requires k < |pool| && pool[k].None? && forall j :: 0 <= j < k ==> pool[j].Some?
    ensures FirstFree(pool) == Some(k)
  {
  }

  lemma FirstFreeIsNone(pool: seq<Option<Handle>>)
    requires forall j :: 0 <= j < |pool| ==> pool[j].Some?
    ensures FirstFree(pool) == None
  {
  }

  /** The number of non-`None` slots. */
  function Busy(pool: seq<Option<Handle>>): (n: nat)
    ensures n <= |pool|
  {
    if |pool| == 0 then 0
    else Busy(pool[..|pool| - 1]) + (if pool[|pool| - 1].Some? then 1 else 0)
  }

  /** The number of slots holding a live process. */
  function Live(pool: seq<Option<Handle>>): (n: nat)
    ensures n <= Busy(pool)
  {
    if |pool| == 0 then 0
    else Live(pool[..|pool| - 1]) + (if pool[|pool| - 1].Some? && pool[|pool| - 1].value.alive then 1 else 0)
  }

  /** Every slot is busy exactly when there is no free slot. */
  lemma {:induction false} BusyFull(pool: seq<Option<Handle>>)
    ensures Busy(pool) == |pool| <==> FirstFree(pool).None?
  {
    if |pool| > 0 {
      var init := pool[..|pool| - 1];
      BusyFull(init);
      if Busy(pool) == |pool| {
        assert Busy(init) == |init|;
        forall k | 0 <= k < |pool| ensures pool[k].Some? {
          if k < |init| {
            FirstFreeIsNone(init);
            assert init[k] == pool[k];
          }
        }
        FirstFreeIsNone(pool);
      } else {
        if pool[|pool| - 1].Some? {
          assert Busy(init) < |init|;
          var j := FirstFree(init).value;
          assert pool[j] == init[j];
        }
      }
    }
  }

  /** No slot is busy exactly when every slot is free. */
  lemma {:induction false} BusyZero(pool: seq<Option<Handle>>)
    ensures Busy(pool) == 0 <==> forall k :: 0 <= k < |pool| ==> pool[k].None?
  {
    if |pool| > 0 {
      var init := pool[..|pool| - 1];
      BusyZero(init);
      if Busy(pool) == 0 {
        forall k | 0 <= k < |pool| ensures pool[k].None? {
          if k < |init| {
            assert init[k] == pool[k];
          }
        }
      } else if pool[|pool| - 1].None? {
        var k :| 0 <= k < |init| && init[k].Some?;
        assert pool[k] == init[k];
      }
    }
  }

  /** A slot after `_runningSolvers` has looked at it: a dead process is dropped. */
  function ReapSlot(h: Option<Handle>): Option<Handle> {
    if h.Some? && !h.value.alive then None else h
  }

  /** The pool after `_runningSolvers` (symbolic/explore.py:187-191). */
  function Reaped(pool: seq<Option<Handle>>): (r: seq<Option<Handle>>)
    ensures |r| == |pool|
  {
    seq(|pool|, k requires 0 <= k < |pool| => ReapSlot(pool[k]))
  }

  /** The job table after `_runningSolvers`: the job of a dropped process is dropped with it, not re-queued. */
  function ReapedJobs(pool: seq<Option<Handle>>, jobs: seq<Option<Entry>>): (r: seq<Option<Entry>>)
    requires |jobs| == |pool|
    ensures |r| == |jobs|
  {
    seq(|jobs|, k requires 0 <= k < |jobs| => if pool[k].Some? && !pool[k].value.alive then None else jobs[k])
  }

  /** Slot `k` holds a job exactly when it holds a process. */
  predicate Paired(pool: seq<Option<Handle>>, jobs: seq<Option<Entry>>) {
    |pool| == |jobs| && forall k :: 0 <= k < |pool| ==> (pool[k].None? <==> jobs[k].None?)
  }

  /** After reaping, the busy slots are exactly the live ones, and the table stays paired. */
  lemma ReapedFacts(pool: seq<Option<Handle>>, jobs: seq<Option<Entry>>)
    requires Paired(pool, jobs)
    ensures Paired(Reaped(pool), ReapedJobs(pool, jobs))
    ensures Busy(Reaped(pool)) == Live(pool) == Live(Reaped(pool))
    ensures forall k :: 0 <= k < |pool| ==> (Reaped(pool)[k].Some? <==> pool[k].Some? && pool[k].value.alive)
  {
    BusyReaped(pool);
  }

  lemma {:induction false} BusyReaped(pool: seq<Option<Handle>>)
    ensures Busy(Reaped(pool)) == Live(pool) == Live(Reaped(pool))
  {
    if |pool| > 0 {
      var init := pool[..|pool| - 1];
      BusyReaped(init);
      assert Reaped(pool)[..|pool| - 1] == Reaped(init);
    }
  }

  /** Reaping twice is reaping once. */
  lemma ReapedIdempotent(pool: seq<Option<Handle>>, jobs: seq<Option<Entry>>)
    requires |jobs| == |pool|
    ensures Reaped(Reaped(pool)) == Reaped(pool)
    ensures ReapedJobs(Reaped(pool), ReapedJobs(pool, jobs)) == ReapedJobs(pool, jobs)
  {
  }

  /** The job a slot holds, as a multiset of at most one entry. */
  function SlotJob(o: Option<Entry>): multiset<Entry> {
    if o.Some? then multiset{o.value} else multiset{}
  }

  /** The jobs held by the slot table. */
  function JobEntries(jobs: seq<Option<Entry>>): multiset<Entry> {
    if |jobs| == 0 then multiset{}
    else JobEntries(jobs[..|jobs| - 1]) + SlotJob(jobs[|jobs| - 1])
  }

  /** How many slots hold `e`. */
  function Holding(jobs: seq<Option<Entry>>, e: Entry): nat {
    if |jobs| == 0 then 0
    else Holding(jobs[..|jobs| - 1], e) + (if jobs[|jobs| - 1] == Some(e) then 1 else 0)
  }

  /** The table holds `e` as many times as there are slots holding it. */
  lemma {:induction false} JobEntriesCount(jobs: seq<Option<Entry>>, e: Entry)
    ensures JobEntries(jobs)[e] == Holding(jobs, e)
  {
    if |jobs| > 0 {
      JobEntriesCount(jobs[..|jobs| - 1], e);
    }
  }

  lemma {:induction false} HoldingUpdate(jobs: seq<Option<Entry>>, k: nat, j: Option<Entry>, e: Entry)
    requires k < |jobs|
    ensures Holding(jobs[k := j], e) + (if jobs[k] == Some(e) then 1 else 0) ==
            Holding(jobs, e) + (if j == Some(e) then 1 else 0)
  {
    var n := |jobs| - 1;
    if k < n {
      HoldingUpdate(jobs[..n], k, j, e);
      assert jobs[k := j][..n] == jobs[..n][k := j];
    } else {
      assert jobs[k := j][..n] == jobs[..n];
    }
  }

  /** Overwriting one slot of the job table swaps its job for the new one. */
  lemma JobEntriesUpdate(jobs: seq<Option<Entry>>, k: nat, j: Option<Entry>)
    requires k < |jobs|
    ensures JobEntries(jobs[k := j]) + SlotJob(jobs[k]) == JobEntries(jobs) + SlotJob(j)
  {
    forall e
      ensures (JobEntries(jobs[k := j]) + SlotJob(jobs[k]))[e] == (JobEntries(jobs) + SlotJob(j))[e]
    {
      JobEntriesCount(jobs[k := j], e);
      JobEntriesCount(jobs, e);
      HoldingUpdate(jobs, k, j, e);
    }
  }

  /** Every job in the table sits in some slot. */
  lemma {:induction false} JobEntriesMembers(jobs: seq<Option<Entry>>, e: Entry)
    ensures e in JobEntries(jobs) <==> exists k :: 0 <= k < |jobs| && jobs[k] == Some(e)
  {
    if |jobs| > 0 {
      var n := |jobs| - 1;
      JobEntriesMembers(jobs[..n], e);
      if e in JobEntries(jobs[..n]) {
        var k :| 0 <= k < n && jobs[..n][k] == Some(e);
        assert jobs[k] == Some(e);
      } else if exists k :: 0 <= k < |jobs| && jobs[k] == Some(e) {
        var k :| 0 <= k < |jobs| && jobs[k] == Some(e);
        if k < n {
          assert jobs[..n][k] == Some(e);
        }
      }
    }
  }

  /** `e` is an entry the priority queue may hand out next: one of least timeout. */
  predicate IsMin(e: Entry, q: multiset<Entry>) {
    e in q && forall x :: x in q ==> e.timeout <= x.timeout
  }

  /** A non-empty queue always has an entry to hand out. */
  lemma {:induction false} MinExists(q: multiset<Entry>)
    requires q != multiset{}
    ensures exists e :: IsMin(e, q)
    decreases |q|
  {
    var x :| x in q;
    var rest := q - multiset{x};
    assert q == rest + multiset{x};
    if rest == multiset{} {
      assert IsMin(x, q);
    } else {
      MinExists(rest);
      var m :| IsMin(m, rest);
      var e := if x.timeout < m.timeout then x else m;
      forall y | y in q ensures e.timeout <= y.timeout {
        if y != x {
          assert y in rest;
        }
      }
      assert IsMin(e, q);
    }
  }

  /** Moving an entry from the queue to the list of passed-over entries keeps their sum. */
  lemma TakeOne(q: multiset<Entry>, e: Entry, peeked: seq<Entry>)
    requires e in q
    ensures (q - multiset{e}) + multiset(peeked + [e]) == q + multiset(peeked)
  {
    assert multiset(peeked + [e]) == multiset(peeked) + multiset{e};
  }
}
