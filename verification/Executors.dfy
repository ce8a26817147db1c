/**
  A worker's turn (`Executor::run_once` in src/job_system.rs) as an imperative program over the
  shared pool. Here nobody else moves during the turn; between any two of its steps others may,
  which is what the runs of the pool allow.
 */
module Executors {
  import opened Wrappers
  import opened Seqs
  import opened Pools

  /** `steps` lead from `s` to `t`. */
  ghost predicate Leads(s: Pool, steps: seq<Step>, t: Pool)
    decreases |steps|
  {
    if steps == [] then s == t else Enabled(s, steps[0]) && Leads(After(s, steps[0]), steps[1..], t)
  }

  lemma {:induction false} LeadsFurther(s: Pool, steps: seq<Step>, t: Pool, step: Step)
    requires Leads(s, steps, t) && Enabled(t, step)
    ensures Leads(s, steps + [step], After(t, step))
    decreases |steps|
  {
    hide Enabled, After;
    var longer := steps + [step];
    if steps == [] {
      assert longer[0] == step && longer[1..] == [];
    } else {
      LeadsFurther(After(s, steps[0]), steps[1..], t, step);
      assert longer[0] == steps[0] && longer[1..] == steps[1..] + [step];
    }
  }

  /** A job of the wait list, from `from` on, is ready. */
  ghost predicate HasReady(s: Pool, wait: seq<nat>, from: nat) {
    exists i :: from <= i < |wait| && wait[i] < |s.jobs| && s.jobs[wait[i]].Ready()
  }

  /** What a worker that is looking for work can find. */
  ghost predicate HasWork(s: Pool, id: nat)
    requires id < |s.workers|
  {
    || (exists v :: 0 <= v < |s.workers| && s.workers[v].queue != [])
    || HasReady(s, s.workers[id].wait, 0)
  }

  class Executor {
    const id: nat
    var stealId: nat
    var pool: Pool
    ghost const graph: Graph
    /** The steps taken so far, from `began`. */
    ghost var steps: seq<Step>
    ghost const began: Pool

    ghost predicate Valid()
      reads this
    {
      && id < |pool.workers| && stealId < |pool.workers| && Inv(graph, pool)
      && Leads(began, steps, pool) && |pool.workers| == |began.workers|
    }

    constructor (id: nat, pool: Pool, ghost graph: Graph)
      requires id < |pool.workers| && Inv(graph, pool)
      ensures Valid() && this.id == id && this.pool == pool && began == pool && steps == [] && this.graph == graph
    {
      this.id, stealId, this.pool, this.graph, steps, began := id, id, pool, graph, [], pool;
    }

    method Take(step: Step)
      requires Valid() && Enabled(pool, step)
      modifies `pool, `steps
      ensures Valid() && pool == After(old(pool), step) && steps == old(steps) + [step]
    {
      hide Inv, Enabled;
      StepKeeps(graph, pool, step);
      LeadsFurther(began, steps, pool, step);
      pool, steps := After(pool, step), steps + [step];
    }

    /**
      Pops and executes a job; failing that, steals; failing that, promotes what is ready in the
      own wait list. Reports failure exactly when there was nothing to find.
     */
    method RunOnce() returns (ok: bool)
      requires Valid() && Idle(pool, id)
      modifies this
      ensures Valid() && Idle(pool, id) && old(steps) <= steps
      ensures ok <==> HasWork(old(pool), id)
      ensures if ok then |old(steps)| < |steps| else pool == old(pool)
      // the job at the head of the own queue has been executed
      ensures old(pool).workers[id].queue != [] ==>
                var before, j := old(pool), old(pool).workers[id].queue[0];
                && j < |before.jobs| == |pool.jobs| && pool.jobs[j] == Job(0, before.jobs[j].kids, Done)
                && (forall c :: 0 <= c < |before.jobs| && c != j ==>
                      pool.jobs[c] ==
                        before.jobs[c].(left := before.jobs[c].left - multiset(before.jobs[j].kids)[c]))
                && pool.workers == before.workers[id := before.workers[id].(queue := before.workers[id].queue[1..])]
      // a part of somebody else's queue is the own one now
      ensures old(pool).workers[id].queue == []
              && (exists v :: 0 <= v < |old(pool).workers| && old(pool).workers[v].queue != []) ==>
                exists v, k :: 0 <= v < |old(pool).workers| && v != id && 0 < k <= |old(pool).workers[v].queue| &&
                  var before, loot := old(pool), old(pool).workers[v].queue;
                  pool == before.(workers := before.workers[id := before.workers[id].(queue := loot[..k])]
                                                           [v := before.workers[v].(queue := loot[k..])])
      // what was ready in the own wait list is in the own queue now, and nothing else
      ensures (forall v :: 0 <= v < |old(pool).workers| ==> old(pool).workers[v].queue == []) ==>
                var before, queue, wait := old(pool).workers[id], pool.workers[id].queue, pool.workers[id].wait;
                && pool == old(pool).(workers := old(pool).workers[id := Worker(queue, wait, None)])
                && multiset(queue) + multiset(wait) == multiset(before.wait)
                && (forall k :: 0 <= k < |queue| ==> queue[k] < |pool.jobs| && pool.jobs[queue[k]].Ready())
                && forall k :: 0 <= k < |wait| ==> wait[k] < |pool.jobs| && !pool.jobs[wait[k]].Ready()
    {
      hide Inv, Enabled, After, Leads;
      if pool.workers[id].queue != [] {
        Execute();
        return true;
      }
      ok := StealFromOthers();
      if !ok {
        ok := PromoteReady();
      }
    }

    /**
      `execute`: the body, then one decrement per child, then the job's own. The counter of every
      other job drops by the number of times it is listed as a child, and nothing else changes.
     */
    method Execute()
      requires Valid() && Idle(pool, id) && pool.workers[id].queue != []
      modifies `pool, `steps
      ensures Valid() && Idle(pool, id) && old(steps) <= steps && |old(steps)| < |steps|
      ensures var before, j := old(pool), old(pool).workers[id].queue[0];
              && j < |before.jobs| == |pool.jobs| && pool.jobs[j] == Job(0, before.jobs[j].kids, Done)
              && (forall c :: 0 <= c < |before.jobs| && c != j ==>
                    pool.jobs[c] == before.jobs[c].(left := before.jobs[c].left - multiset(before.jobs[j].kids)[c]))
              && pool.workers == before.workers[id := before.workers[id].(queue := before.workers[id].queue[1..])]
    {
      hide Leads, Conserved, Unowed, PlacedOnce, Shape, Lowered;
      FitsAt(pool.jobs, pool.workers, id);
      ghost var before := pool;
      var j := pool.workers[id].queue[0];
      Take(Start(id));
      Take(EndBody(id));
      LoweredByNothing(before.jobs, pool.jobs, j);
      Decrement(before.jobs, j);
      LoweredElsewhere(before.jobs, pool.jobs, After(pool, Retire(id)).jobs, j, multiset(before.jobs[j].kids));
      Take(Retire(id));
      LoweredMeans(before.jobs, pool.jobs, j, multiset(before.jobs[j].kids));
    }

    method Decrement(ghost before: seq<Job>, j: nat)
      requires Valid() && id < |pool.workers| && pool.workers[id].frame == Some(j) && j < |pool.jobs|
      requires pool.jobs[j].status == Finishing(0) && Lowered(before, pool.jobs, j, multiset{})
      modifies `pool, `steps
      ensures Valid() && old(steps) <= steps
      ensures pool.workers == old(pool.workers) && pool.next == old(pool.next) && pool.main == old(pool.main)
      ensures Lowered(before, pool.jobs, j, multiset(old(pool).jobs[j].kids)) && j < |pool.jobs|
      ensures pool.jobs[j] == old(pool).jobs[j].(status := Finishing(|old(pool).jobs[j].kids|))
    {
      hide Leads, Conserved, Unowed, PlacedOnce, Assigned, Lowered;
      var kids := pool.jobs[j].kids;
      for d := 0 to |kids|
        invariant Valid() && old(steps) <= steps
        invariant pool.workers == old(pool.workers) && pool.next == old(pool.next) && pool.main == old(pool.main)
        invariant j < |pool.jobs| && pool.jobs[j] == old(pool).jobs[j].(status := Finishing(d))
        invariant Lowered(before, pool.jobs, j, multiset(kids[..d]))
      {
        KidsExist(graph, pool, j);
        ChildIsWaiting(graph, pool, id);
        assert kids[..d + 1] == kids[..d] + [kids[d]];
        LoweredMore(before, pool.jobs, After(pool, DecChild(id)).jobs, j, multiset(kids[..d]), kids[d]);
        Take(DecChild(id));
      }
      assert kids[..|kids|] == kids;
    }

    /** Goes round the other workers, starting where the last steal succeeded. */
    method StealFromOthers() returns (ok: bool)
      requires Valid() && Idle(pool, id) && pool.workers[id].queue == []
      modifies this
      ensures Valid() && Idle(pool, id) && old(steps) <= steps
      ensures ok <==> exists v :: 0 <= v < |old(pool).workers| && old(pool).workers[v].queue != []
      ensures !ok ==> pool == old(pool)
      ensures ok ==> |old(steps)| < |steps|
      ensures ok ==>
                exists v, k :: 0 <= v < |old(pool).workers| && v != id && 0 < k <= |old(pool).workers[v].queue| &&
                  var before, loot := old(pool), old(pool).workers[v].queue;
                  pool == before.(workers := before.workers[id := before.workers[id].(queue := loot[..k])]
                                                           [v := before.workers[v].(queue := loot[k..])])
    {
      hide Inv, Leads;
      var n := |pool.workers|;
      ghost var first := stealId;
      for tried := 0 to n
        invariant Valid() && Idle(pool, id) && pool == old(pool) && steps == old(steps)
        invariant stealId == (if tried == n then first else Nth(first, tried, n))
        invariant forall t :: 0 <= t < tried ==> pool.workers[Nth(first, t, n)].queue == []
      {
        if stealId != id && pool.workers[stealId].queue != [] {
          var k :| 0 < k <= |pool.workers[stealId].queue|;
          Take(Steal(id, stealId, k));
          return true;
        }
        Next(stealId, n);
        stealId := (stealId + 1) % n;
      }
      forall v | 0 <= v < n ensures pool.workers[v].queue == [] {
        AllRound(first, v, n);
      }
      return false;
    }

    /** From the end of the wait list to its start, so that swap-remove disturbs only what has been looked at. */
    method PromoteReady() returns (promoted: bool)
      requires Valid() && Idle(pool, id)
      modifies `pool, `steps
      ensures Valid() && Idle(pool, id) && old(steps) <= steps
      ensures promoted <==> HasReady(old(pool), old(pool).workers[id].wait, 0)
      ensures !promoted ==> pool == old(pool)
      ensures promoted ==> |old(steps)| < |steps|
      ensures var before, queue, wait := old(pool).workers[id], pool.workers[id].queue, pool.workers[id].wait;
              && pool == old(pool).(workers := old(pool).workers[id := Worker(queue, wait, None)])
              && before.queue <= queue
              && multiset(queue) + multiset(wait) == multiset(before.queue) + multiset(before.wait)
              && (forall k :: |before.queue| <= k < |queue| ==> queue[k] < |pool.jobs| && pool.jobs[queue[k]].Ready())
              && forall k :: 0 <= k < |wait| ==> wait[k] < |pool.jobs| && !pool.jobs[wait[k]].Ready()
    {
      hide Inv, Leads, Promoting;
      promoted := false;
      ghost var before := pool;
      var i := |pool.workers[id].wait|;
      PromotingStarts(pool.jobs, pool.workers[id]);
      while i > 0
        invariant Valid() && Idle(pool, id) && pool.jobs == before.jobs && old(steps) <= steps
        invariant 0 <= i <= |pool.workers[id].wait| <= |before.workers[id].wait|
        invariant forall k :: 0 <= k < i ==> pool.workers[id].wait[k] == before.workers[id].wait[k]
        invariant !promoted ==> pool == before
        invariant promoted <==> HasReady(before, before.workers[id].wait, i)
        invariant promoted ==> |old(steps)| < |steps|
        invariant pool == before.(workers := before.workers[id := pool.workers[id]])
        invariant Promoting(pool.jobs, before.workers[id], pool.workers[id], i)
      {
        i := i - 1;
        WaitsExist(graph, pool, id);
        PromotingMore(pool.jobs, before.workers[id], pool.workers[id], i);
        if pool.workers[id].wait[i] < |pool.jobs| && pool.jobs[pool.workers[id].wait[i]].Ready() {
          Take(Promote(id, i));
          promoted := true;
        }
      }
      PromotingEnds(pool.jobs, before.workers[id], pool.workers[id]);
    }
  }

  /** Of the wait list, from `i` on, what is ready has gone to the end of the queue. */
  ghost predicate Promoting(jobs: seq<Job>, before: Worker, now: Worker, i: nat) {
    && now.frame == before.frame && before.queue <= now.queue && i <= |now.wait|
    && multiset(now.queue) + multiset(now.wait) == multiset(before.queue) + multiset(before.wait)
    && (forall k :: |before.queue| <= k < |now.queue| ==> now.queue[k] < |jobs| && jobs[now.queue[k]].Ready())
    && forall k :: i <= k < |now.wait| ==> now.wait[k] < |jobs| && !jobs[now.wait[k]].Ready()
  }

  lemma PromotingStarts(jobs: seq<Job>, worker: Worker)
    ensures Promoting(jobs, worker, worker, |worker.wait|)
  {
  }

  lemma PromotingMore(jobs: seq<Job>, before: Worker, now: Worker, i: nat)
    requires Promoting(jobs, before, now, i + 1) && now.wait[i] < |jobs|
    ensures !jobs[now.wait[i]].Ready() ==> Promoting(jobs, before, now, i)
    ensures jobs[now.wait[i]].Ready() ==>
              Promoting(jobs, before, now.(queue := now.queue + [now.wait[i]], wait := SwapRemove(now.wait, i)), i)
  {
    SwapRemoveContents(now.wait, i);
  }

  lemma PromotingEnds(jobs: seq<Job>, before: Worker, now: Worker)
    requires Promoting(jobs, before, now, 0)
    ensures now == Worker(now.queue, now.wait, before.frame) && before.queue <= now.queue
    ensures multiset(now.queue) + multiset(now.wait) == multiset(before.queue) + multiset(before.wait)
    ensures forall k :: |before.queue| <= k < |now.queue| ==> now.queue[k] < |jobs| && jobs[now.queue[k]].Ready()
    ensures forall k :: 0 <= k < |now.wait| ==> now.wait[k] < |jobs| && !jobs[now.wait[k]].Ready()
  {
  }

  lemma WaitsExist(g: Graph, s: Pool, w: nat)
    requires Inv(g, s) && w < |s.workers|
    ensures forall k :: 0 <= k < |s.workers[w].wait| ==> s.workers[w].wait[k] < |s.jobs|
  {
    hide Conserved, Unowed, PlacedOnce, Shape;
    FitsAt(s.jobs, s.workers, w);
  }

  /** From `before` to `after`, the counter of each job but `j` has dropped as often as `drops` lists it. */
  ghost predicate Lowered(before: seq<Job>, after: seq<Job>, j: nat, drops: multiset<nat>) {
    |after| == |before|
    && forall c :: 0 <= c < |before| && c != j ==> after[c] == before[c].(left := before[c].left - drops[c])
  }

  lemma LoweredByNothing(before: seq<Job>, after: seq<Job>, j: nat)
    requires |after| == |before| && forall c :: 0 <= c < |before| && c != j ==> after[c] == before[c]
    ensures Lowered(before, after, j, multiset{})
  {
  }

  lemma LoweredMore(before: seq<Job>, jobs: seq<Job>, after: seq<Job>, j: nat, drops: multiset<nat>, c: nat)
    requires Lowered(before, jobs, j, drops) && c < |jobs| == |after| && c != j
    requires after[c] == jobs[c].(left := jobs[c].left - 1)
    requires forall i :: 0 <= i < |jobs| && i != j && i != c ==> after[i] == jobs[i]
    ensures Lowered(before, after, j, drops + multiset{c})
  {
  }

  lemma LoweredMeans(before: seq<Job>, after: seq<Job>, j: nat, drops: multiset<nat>)
    requires Lowered(before, after, j, drops)
    ensures |after| == |before|
    ensures forall c :: 0 <= c < |before| && c != j ==> after[c] == before[c].(left := before[c].left - drops[c])
  {
  }

  /** What happens to `j` itself does not count. */
  lemma LoweredElsewhere(before: seq<Job>, jobs: seq<Job>, after: seq<Job>, j: nat, drops: multiset<nat>)
    requires Lowered(before, jobs, j, drops) && |after| == |jobs|
             && forall c :: 0 <= c < |jobs| && c != j ==> after[c] == jobs[c]
    ensures Lowered(before, after, j, drops)
  {
  }

  lemma KidsExist(g: Graph, s: Pool, j: nat)
    requires Inv(g, s) && j < |s.jobs|
    ensures forall k :: 0 <= k < |s.jobs[j].kids| ==> s.jobs[j].kids[k] < |s.jobs|
  {
    hide Conserved, Unowed, PlacedOnce, Assigned;
  }

  /** The `t`-th worker on the way round from `first`. */
  function Nth(first: nat, t: nat, n: nat): int {
    if first + t < n then first + t else first + t - n
  }

  lemma Next(i: nat, n: nat)
    requires i < n
    ensures (i + 1) % n == if i + 1 < n then i + 1 else 0
  {
  }

  lemma AllRound(first: nat, v: nat, n: nat)
    requires v < n && first < n
    ensures exists t :: 0 <= t < n && Nth(first, t, n) == v
  {
    var t := if v >= first then v - first else v + n - first;
    assert Nth(first, t, n) == v;
  }
}
