/**
  The job pool (src/job_system.rs) as a state machine. One step is one atomic action of one
  thread: the main program that links and enqueues the jobs of a graph, or a worker that pops,
  runs, decrements, steals or promotes. Any interleaving of such steps is a run.
 */
module Pools {
  import opened Wrappers
  import opened Seqs

  datatype Status = Fresh | Enqueued | Running | Finishing(dec: nat) | Done

  /** `left` is `tasks_left`; `kids` are the counters that the job decrements when its body is done. */
  datatype Job = Job(left: int, kids: seq<nat>, status: Status) {

    predicate Ready() {
      left == 1 && (status.Fresh? || status.Enqueued?)
    }

    /** The counters that the job has yet to decrement. */
    function Owed(): multiset<nat> {
      match status
      case Finishing(dec) => if dec <= |kids| then multiset(kids[dec..]) else multiset{}
      case Done => multiset{}
      case _ => multiset(kids)
    }

    /** The job's own share of its counter. */
    function Own(): int {
      if status.Done? then 0 else 1
    }

    predicate Started() {
      status.Running? || status.Finishing? || status.Done?
    }

    predicate BodyDone() {
      status.Finishing? || status.Done?
    }

    predicate Placed() {
      status.Enqueued? || status.Running? || status.Finishing?
    }
  }

  datatype Worker = Worker(queue: seq<nat>, wait: seq<nat>, frame: Option<nat>) {
    function Held(): multiset<nat> {
      multiset(queue) + multiset(wait) + (if frame.Some? then multiset{frame.value} else multiset{})
    }
  }

  /**
    The last job is the root of the graph. The main program is about to link (`linked` tells
    whether it has) and enqueue job `next`; it runs on worker `main`, which works on jobs itself
    only once everything is enqueued, in `wait`.
   */
  datatype Pool = Pool(jobs: seq<Job>, workers: seq<Worker>, next: nat, linked: bool, main: nat) {
    function Root(): int {
      |jobs| - 1
    }

    function SetJob(j: nat, job: Job): Pool
      requires j < |jobs|
    {
      this.(jobs := jobs[j := job])
    }

    function SetWorker(w: nat, worker: Worker): Pool
      requires w < |workers|
    {
      this.(workers := workers[w := worker])
    }
  }

  datatype Step =
    | Link
    | Enqueue
    | Start(w: nat)
    | Tick(w: nat)
    | EndBody(w: nat)
    | DecChild(w: nat)
    | Retire(w: nat)
    | Steal(w: nat, victim: nat, k: nat)
    | Promote(w: nat, i: nat)

  function Union(ms: seq<multiset<nat>>): multiset<nat> {
    if ms == [] then multiset{} else Union(ms[..|ms| - 1]) + ms[|ms| - 1]
  }

  lemma {:induction false} UnionUpdate(ms: seq<multiset<nat>>, i: nat, m: multiset<nat>)
    requires i < |ms|
    ensures ms[i] <= Union(ms) && Union(ms[i := m]) == Union(ms) - ms[i] + m
    decreases |ms|
  {
    var n := |ms| - 1;
    if i < n {
      UnionUpdate(ms[..n], i, m);
      assert ms[i := m][..n] == ms[..n][i := m];
    } else {
      assert ms[i := m][..n] == ms[..n];
    }
  }

  lemma {:induction false} UnionHas(ms: seq<multiset<nat>>, x: nat) returns (i: nat)
    requires x in Union(ms)
    ensures i < |ms| && x in ms[i]
    decreases |ms|
  {
    var n := |ms| - 1;
    if x in ms[n] {
      i := n;
    } else {
      i := UnionHas(ms[..n], x);
    }
  }

  /** All decrements still to come. */
  function Owes(jobs: seq<Job>): multiset<nat> {
    Union(seq(|jobs|, p requires 0 <= p < |jobs| => jobs[p].Owed()))
  }

  /** All jobs in queues, wait lists and workers. */
  function Holds(workers: seq<Worker>): multiset<nat> {
    Union(seq(|workers|, w requires 0 <= w < |workers| => workers[w].Held()))
  }

  // ---------------------------------------------------------------- the steps

  /** A worker that is free to look for work. */
  predicate Idle(s: Pool, w: nat) {
    w < |s.workers| && s.workers[w].frame.None? && (w == s.main ==> s.next == |s.jobs|)
  }

  /** A worker that is executing a job. */
  predicate Busy(s: Pool, w: nat) {
    w < |s.workers| && s.workers[w].frame.Some? && s.workers[w].frame.value < |s.jobs|
  }

  predicate Enabled(s: Pool, step: Step) {
    match step
    case Link => s.next < s.Root() && !s.linked
    case Enqueue => s.main < |s.workers| && ((s.next < s.Root() && s.linked) || (s.next == s.Root() >= 0))
    case Start(w) => Idle(s, w) && s.workers[w].queue != [] && s.workers[w].queue[0] < |s.jobs|
    case Tick(w) => Busy(s, w) && s.jobs[s.workers[w].frame.value].status.Running?
    case EndBody(w) => Busy(s, w) && s.jobs[s.workers[w].frame.value].status.Running?
    case DecChild(w) =>
      && Busy(s, w)
      && var job := s.jobs[s.workers[w].frame.value];
      job.status.Finishing? && job.status.dec < |job.kids| && job.kids[job.status.dec] < |s.jobs|
    case Retire(w) =>
      && Busy(s, w)
      && var job := s.jobs[s.workers[w].frame.value];
      job.status.Finishing? && job.status.dec == |job.kids|
    case Steal(w, v, k) =>
      && Idle(s, w) && s.workers[w].queue == [] && v < |s.workers| && v != w && 0 < k <= |s.workers[v].queue|
    case Promote(w, i) =>
      && Idle(s, w) && i < |s.workers[w].wait| && s.workers[w].wait[i] < |s.jobs|
      && s.jobs[s.workers[w].wait[i]].Ready()
  }

  /** `enqueue_job`: a ready job goes to the queue, another to the wait list. */
  function Receive(worker: Worker, j: nat, ready: bool): Worker {
    if ready then worker.(queue := worker.queue + [j]) else worker.(wait := worker.wait + [j])
  }

  function After(s: Pool, step: Step): (r: Pool)
    requires Enabled(s, step)
    ensures |r.jobs| == |s.jobs| && |r.workers| == |s.workers|
  {
    match step
    case Link =>
      // `add_child(&root)`
      var root := s.jobs[s.Root()];
      s.SetJob(s.next, s.jobs[s.next].(kids := s.jobs[s.next].kids + [s.Root()]))
       .SetJob(s.Root(), root.(left := root.left + 1))
       .(linked := true)
    case Enqueue =>
      var job, worker := s.jobs[s.next], s.workers[s.main];
      s.SetJob(s.next, job.(status := Enqueued))
       .SetWorker(s.main, Receive(worker, s.next, job.Ready()))
       .(next := s.next + 1, linked := false)
    case Start(w) =>
      var j := s.workers[w].queue[0];
      s.SetJob(j, s.jobs[j].(status := Running))
       .SetWorker(w, s.workers[w].(queue := s.workers[w].queue[1..], frame := Some(j)))
    case Tick(w) => s
    case EndBody(w) =>
      var j := s.workers[w].frame.value;
      s.SetJob(j, s.jobs[j].(status := Finishing(0)))
    case DecChild(w) =>
      var j := s.workers[w].frame.value;
      var job := s.jobs[j];
      var s1 := s.SetJob(j, job.(status := Finishing(job.status.dec + 1)));
      var c := job.kids[job.status.dec];
      s1.SetJob(c, s1.jobs[c].(left := s1.jobs[c].left - 1))
    case Retire(w) =>
      var j := s.workers[w].frame.value;
      s.SetJob(j, s.jobs[j].(left := s.jobs[j].left - 1, status := Done))
       .SetWorker(w, s.workers[w].(frame := None))
    case Steal(w, v, k) =>
      s.SetWorker(w, s.workers[w].(queue := s.workers[v].queue[..k]))
       .SetWorker(v, s.workers[v].(queue := s.workers[v].queue[k..]))
    case Promote(w, i) =>
      var worker := s.workers[w];
      s.SetWorker(w, worker.(queue := worker.queue + [worker.wait[i]], wait := SwapRemove(worker.wait, i)))
  }

  // ---------------------------------------------------------------- the invariant

  /** The children of each job in the graph, with multiplicity. */
  type Graph = seq<seq<nat>>

  /** `tasks_left` is one for the job itself until it retires, and one per incoming edge not yet decremented. */
  ghost predicate Conserved(jobs: seq<Job>) {
    forall j :: 0 <= j < |jobs| ==> jobs[j].left == jobs[j].Own() + Owes(jobs)[j]
  }

  /** Nothing is owed to a job that has started. */
  ghost predicate Unowed(jobs: seq<Job>) {
    forall j :: 0 <= j < |jobs| && jobs[j].Started() ==> Owes(jobs)[j] == 0
  }

  /** A job that is enqueued and not done is in exactly one queue, wait list or worker; any other job is in none. */
  ghost predicate PlacedOnce(jobs: seq<Job>, workers: seq<Worker>) {
    forall j: nat :: Holds(workers)[j] == if j < |jobs| && jobs[j].Placed() then 1 else 0
  }

  /** Queued jobs are ready, waiting jobs are enqueued, and a worker's job is started but not done. */
  ghost predicate Assigned(jobs: seq<Job>, workers: seq<Worker>) {
    forall w :: 0 <= w < |workers| ==> WorkerFits(jobs, workers[w])
  }

  ghost predicate WorkerFits(jobs: seq<Job>, worker: Worker) {
    && (forall k :: 0 <= k < |worker.queue| ==> Queues(jobs, worker.queue[k]))
    && (forall k :: 0 <= k < |worker.wait| ==> Waits(jobs, worker.wait[k]))
    && (worker.frame.Some? ==> Works(jobs, worker.frame.value))
  }

  predicate Queues(jobs: seq<Job>, j: nat) {
    j < |jobs| && jobs[j].status.Enqueued? && jobs[j].left == 1
  }

  predicate Waits(jobs: seq<Job>, j: nat) {
    j < |jobs| && jobs[j].status.Enqueued?
  }

  predicate Works(jobs: seq<Job>, j: nat) {
    j < |jobs| && (jobs[j].status.Running? || jobs[j].status.Finishing?)
  }

  ghost predicate Shape(g: Graph, s: Pool) {
    && |s.jobs| == |g| + 1 && s.next <= |s.jobs| && s.main < |s.workers| && (s.linked ==> s.next < s.Root())
    && (forall p :: 0 <= p < |g| ==>
          s.jobs[p].kids == g[p] + (if p < s.next || (p == s.next && s.linked) then [|g|] else []))
    && s.jobs[|g|].kids == []
    && (forall j :: 0 <= j < |s.jobs| ==> (s.jobs[j].status.Fresh? <==> j >= s.next))
    && (forall j :: 0 <= j < |s.jobs| && s.jobs[j].status.Finishing? ==> s.jobs[j].status.dec <= |s.jobs[j].kids|)
  }

  ghost predicate IsGraph(g: Graph) {
    forall p, k :: 0 <= p < |g| && 0 <= k < |g[p]| ==> g[p][k] < |g|
  }

  ghost predicate Inv(g: Graph, s: Pool) {
    && IsGraph(g) && Shape(g, s) && Conserved(s.jobs) && Unowed(s.jobs)
    && PlacedOnce(s.jobs, s.workers) && Assigned(s.jobs, s.workers)
  }

  // ---------------------------------------------------------------- one job or one worker changes

  lemma OwesAfter(jobs: seq<Job>, j: nat, job: Job)
    requires j < |jobs|
    ensures jobs[j].Owed() <= Owes(jobs) && Owes(jobs[j := job]) == Owes(jobs) - jobs[j].Owed() + job.Owed()
  {
    hide Job.Owed;
    var ms := seq(|jobs|, p requires 0 <= p < |jobs| => jobs[p].Owed());
    UnionUpdate(ms, j, job.Owed());
    var jobs1 := jobs[j := job];
    assert ms[j := job.Owed()] == seq(|jobs1|, p requires 0 <= p < |jobs1| => jobs1[p].Owed());
  }

  lemma HoldsAfter(workers: seq<Worker>, w: nat, worker: Worker)
    requires w < |workers|
    ensures workers[w].Held() <= Holds(workers)
            && Holds(workers[w := worker]) == Holds(workers) - workers[w].Held() + worker.Held()
  {
    hide Worker.Held;
    var ms := seq(|workers|, v requires 0 <= v < |workers| => workers[v].Held());
    UnionUpdate(ms, w, worker.Held());
    var workers1 := workers[w := worker];
    assert ms[w := worker.Held()] == seq(|workers1|, v requires 0 <= v < |workers1| => workers1[v].Held());
  }

  /** Two workers hold different jobs. */
  lemma HeldTwice(workers: seq<Worker>, w: nat, v: nat)
    requires w < |workers| && v < |workers| && w != v
    ensures workers[w].Held() + workers[v].Held() <= Holds(workers)
  {
    hide Holds;
    HoldsAfter(workers, w, Worker([], [], None));
    HoldsAfter(workers[w := Worker([], [], None)], v, Worker([], [], None));
  }

  lemma OnlyHere(jobs: seq<Job>, workers: seq<Worker>, w: nat, j: nat)
    requires PlacedOnce(jobs, workers) && w < |workers| && j in workers[w].Held()
    ensures workers[w].Held()[j] == 1
    ensures forall v :: 0 <= v < |workers| && v != w ==> j !in workers[v].Held()
  {
    hide Holds, Worker.Held;
    HoldsAfter(workers, w, workers[w]);
    forall v | 0 <= v < |workers| && v != w ensures j !in workers[v].Held() {
      HeldTwice(workers, w, v);
    }
  }

  /** A change of one job's status that neither settles nor creates a debt. */
  lemma StatusChanges(jobs: seq<Job>, j: nat, job: Job)
    requires Conserved(jobs) && Unowed(jobs) && j < |jobs|
    requires job.Owed() == jobs[j].Owed() && job.left - job.Own() == jobs[j].left - jobs[j].Own()
    requires job.Started() ==> jobs[j].Started() || jobs[j].left == 1
    ensures Conserved(jobs[j := job]) && Unowed(jobs[j := job])
  {
    hide Owes, Job.Owed;
    OwesAfter(jobs, j, job);
  }

  lemma LeftIsNoDebt(job: Job, left: int)
    ensures var j := job.(left := left);
            j.Owed() == job.Owed() && j.Own() == job.Own() && j.Started() == job.Started() && j.Placed() == job.Placed()
  {
  }

  /** A change of one job's debts together with the counter of one child. */
  lemma DebtChanges(jobs: seq<Job>, j: nat, job: Job, c: nat, d: int)
    requires Conserved(jobs) && Unowed(jobs) && j < |jobs| && c < |jobs| && c != j
    requires d == 1 || d == -1
    requires if d == 1 then job.Owed() == jobs[j].Owed() + multiset{c} else jobs[j].Owed() == job.Owed() + multiset{c}
    requires job.left == jobs[j].left && job.Own() == jobs[j].Own() && job.Started() == jobs[j].Started()
             && !jobs[c].Started()
    ensures var after := jobs[j := job][c := jobs[c].(left := jobs[c].left + d)];
            Conserved(after) && Unowed(after)
  {
    hide Owes, Job.Owed, Job.Own, Job.Started;
    var child := jobs[c].(left := jobs[c].left + d);
    LeftIsNoDebt(jobs[c], jobs[c].left + d);
    OwesShift(jobs, j, job, c, child, d);
  }

  lemma OwesShift(jobs: seq<Job>, j: nat, job: Job, c: nat, child: Job, d: int)
    requires j < |jobs| && c < |jobs| && c != j && child.Owed() == jobs[c].Owed()
    requires d == 1 || d == -1
    requires if d == 1 then job.Owed() == jobs[j].Owed() + multiset{c} else jobs[j].Owed() == job.Owed() + multiset{c}
    ensures forall i: nat :: Owes(jobs[j := job][c := child])[i] == if i == c then Owes(jobs)[i] + d else Owes(jobs)[i]
  {
    hide Owes, Job.Owed;
    OwesAfter(jobs, j, job);
    OwesAfter(jobs[j := job], c, child);
  }

  /** A worker that does not hold `j` is not affected by what happens to `j`. */
  lemma Unaffected(jobs: seq<Job>, j: nat, job: Job, worker: Worker)
    requires j < |jobs| && WorkerFits(jobs, worker) && j !in worker.Held()
    ensures WorkerFits(jobs[j := job], worker)
  {
    forall k | 0 <= k < |worker.queue| ensures worker.queue[k] != j { assert worker.queue[k] in worker.queue; }
    forall k | 0 <= k < |worker.wait| ensures worker.wait[k] != j { assert worker.wait[k] in worker.wait; }
  }

  /** Job `j`, held by worker `w`, changes, and so does the worker: everything else stays as it was. */
  lemma WorkerMoves(jobs: seq<Job>, workers: seq<Worker>, w: nat, worker: Worker, j: nat, job: Job)
    requires PlacedOnce(jobs, workers) && Assigned(jobs, workers) && w < |workers| && j < |jobs|
    requires j in workers[w].Held() && WorkerFits(jobs[j := job], worker)
    requires worker.Held() == if job.Placed() then workers[w].Held() else workers[w].Held() - multiset{j}
    ensures PlacedOnce(jobs[j := job], workers[w := worker]) && Assigned(jobs[j := job], workers[w := worker])
  {
    hide Holds, Worker.Held, WorkerFits, Job.Placed;
    OnlyHere(jobs, workers, w, j);
    HoldsAfter(workers, w, worker);
    forall v | 0 <= v < |workers| && v != w ensures WorkerFits(jobs[j := job], workers[v]) {
      Unaffected(jobs, j, job, workers[v]);
    }
  }

  /** A job that no worker holds is given to one. */
  lemma JobArrives(jobs: seq<Job>, workers: seq<Worker>, w: nat, worker: Worker, j: nat, job: Job)
    requires PlacedOnce(jobs, workers) && Assigned(jobs, workers) && w < |workers| && j < |jobs|
    requires !jobs[j].Placed() && job.Placed() && worker.Held() == workers[w].Held() + multiset{j}
    requires WorkerFits(jobs[j := job], worker)
    ensures PlacedOnce(jobs[j := job], workers[w := worker]) && Assigned(jobs[j := job], workers[w := worker])
  {
    hide Holds, Worker.Held, WorkerFits, Job.Placed;
    HoldsAfter(workers, w, worker);
    forall v | 0 <= v < |workers| && v != w ensures WorkerFits(jobs[j := job], workers[v]) {
      HoldsAfter(workers, v, workers[v]);
      Unaffected(jobs, j, job, workers[v]);
    }
  }

  lemma NotHeld(jobs: seq<Job>, workers: seq<Worker>, w: nat, j: nat)
    requires PlacedOnce(jobs, workers) && w < |workers| && j < |jobs| && !jobs[j].Placed()
    ensures j !in workers[w].Held()
  {
    hide Holds, Worker.Held;
    HoldsAfter(workers, w, workers[w]);
  }

  /** A worker rearranges what it holds. */
  lemma SameHeld(jobs: seq<Job>, workers: seq<Worker>, w: nat, worker: Worker)
    requires PlacedOnce(jobs, workers) && Assigned(jobs, workers) && w < |workers|
    requires worker.Held() == workers[w].Held() && WorkerFits(jobs, worker)
    ensures PlacedOnce(jobs, workers[w := worker]) && Assigned(jobs, workers[w := worker])
  {
    hide Holds, Worker.Held, WorkerFits;
    HoldsAfter(workers, w, worker);
  }

  lemma FitsAt(jobs: seq<Job>, workers: seq<Worker>, w: nat)
    requires Assigned(jobs, workers) && w < |workers|
    ensures WorkerFits(jobs, workers[w])
  {
  }

  /** Neither the children nor the freshness of a job change with its status. */
  lemma ShapeStays(g: Graph, s: Pool, j: nat, job: Job)
    requires Shape(g, s) && j < |s.jobs| && job.kids == s.jobs[j].kids
    requires !s.jobs[j].status.Fresh? && !job.status.Fresh? && (job.status.Finishing? ==> job.status.dec <= |job.kids|)
    ensures Shape(g, s.SetJob(j, job))
  {
  }

  lemma ShapeOf(g: Graph, s: Pool, workers: seq<Worker>)
    requires Shape(g, s) && |workers| == |s.workers|
    ensures Shape(g, s.(workers := workers))
  {
  }

  // ---------------------------------------------------------------- every step keeps the invariant

  lemma LinkKeeps(g: Graph, s: Pool)
    requires Inv(g, s) && Enabled(s, Link)
    ensures Inv(g, After(s, Link))
  {
    hide Owes, Holds, Conserved, Unowed;
    var p, r, s' := s.next, s.Root(), After(s, Link);
    DebtChanges(s.jobs, p, s.jobs[p].(kids := s.jobs[p].kids + [r]), r, 1);
    assert Assigned(s'.jobs, s.workers) by {
      forall w | 0 <= w < |s.workers| ensures WorkerFits(s'.jobs, s.workers[w]) {
        assert WorkerFits(s.jobs, s.workers[w]);
      }
    }
  }

  lemma ReceiveFits(jobs: seq<Job>, worker: Worker, j: nat, ready: bool)
    requires WorkerFits(jobs, worker) && Waits(jobs, j) && (ready ==> Queues(jobs, j))
    ensures WorkerFits(jobs, Receive(worker, j, ready))
            && Receive(worker, j, ready).Held() == worker.Held() + multiset{j}
  {
  }

  lemma ShapeEnqueued(g: Graph, s: Pool)
    requires Shape(g, s) && Enabled(s, Enqueue)
    ensures Shape(g, After(s, Enqueue)) && s.next < |s.jobs| && s.jobs[s.next].status.Fresh?
  {
  }

  lemma EnqueueKeeps(g: Graph, s: Pool)
    requires Inv(g, s) && Enabled(s, Enqueue)
    ensures Inv(g, After(s, Enqueue))
  {
    hide Owes, Holds, Conserved, Unowed, PlacedOnce, Assigned, Shape;
    var p, s', worker := s.next, After(s, Enqueue), s.workers[s.main];
    ShapeEnqueued(g, s);
    hide WorkerFits, Receive, Worker.Held;
    StatusChanges(s.jobs, p, s'.jobs[p]);
    FitsAt(s.jobs, s.workers, s.main);
    NotHeld(s.jobs, s.workers, s.main, p);
    Unaffected(s.jobs, p, s'.jobs[p], worker);
    ReceiveFits(s'.jobs, worker, p, s.jobs[p].Ready());
    JobArrives(s.jobs, s.workers, s.main, s'.workers[s.main], p, s'.jobs[p]);
  }

  lemma HeadFits(jobs: seq<Job>, worker: Worker)
    requires WorkerFits(jobs, worker) && worker.queue != []
    ensures Queues(jobs, worker.queue[0]) && worker.queue[0] in worker.Held()
  {
    assert worker.queue == [worker.queue[0]] + worker.queue[1..];
  }

  /** The head of the queue becomes the job the worker runs. */
  lemma PoppedFits(jobs: seq<Job>, worker: Worker, job: Job)
    requires WorkerFits(jobs, worker) && worker.queue != [] && worker.frame.None? && worker.queue[0] < |jobs|
    requires worker.Held()[worker.queue[0]] == 1 && job.status.Running?
    ensures var j := worker.queue[0];
            var popped := worker.(queue := worker.queue[1..], frame := Some(j));
            WorkerFits(jobs[j := job], popped) && popped.Held() == worker.Held()
  {
    var j := worker.queue[0];
    assert worker.queue == [j] + worker.queue[1..];
    Unaffected(jobs, j, job, Worker(worker.queue[1..], worker.wait, None));
  }

  lemma StartKeeps(g: Graph, s: Pool, w: nat)
    requires Inv(g, s) && Enabled(s, Start(w))
    ensures Inv(g, After(s, Start(w)))
  {
    hide Owes, Holds, Conserved, Unowed, PlacedOnce, Assigned, Shape, WorkerFits, Worker.Held;
    var j, s', worker := s.workers[w].queue[0], After(s, Start(w)), s.workers[w];
    FitsAt(s.jobs, s.workers, w);
    HeadFits(s.jobs, worker);
    StatusChanges(s.jobs, j, s'.jobs[j]);
    OnlyHere(s.jobs, s.workers, w, j);
    PoppedFits(s.jobs, worker, s'.jobs[j]);
    WorkerMoves(s.jobs, s.workers, w, s'.workers[w], j, s'.jobs[j]);
    ShapeStays(g, s, j, s'.jobs[j]);
    ShapeOf(g, s.SetJob(j, s'.jobs[j]), s'.workers);
  }

  /** The job of a busy worker changes its status and stays with the worker. */
  lemma FrameMoves(jobs: seq<Job>, workers: seq<Worker>, w: nat, j: nat, job: Job)
    requires PlacedOnce(jobs, workers) && Assigned(jobs, workers) && w < |workers| && j < |jobs|
    requires workers[w].frame == Some(j) && (job.status.Running? || job.status.Finishing?)
    ensures PlacedOnce(jobs[j := job], workers) && Assigned(jobs[j := job], workers)
  {
    hide Holds, PlacedOnce, Assigned;
    FitsAt(jobs, workers, w);
    OnlyHere(jobs, workers, w, j);
    Unaffected(jobs, j, job, workers[w].(frame := None));
    WorkerMoves(jobs, workers, w, workers[w], j, job);
    assert workers[w := workers[w]] == workers;
  }

  lemma EndBodyKeeps(g: Graph, s: Pool, w: nat)
    requires Inv(g, s) && Enabled(s, EndBody(w))
    ensures Inv(g, After(s, EndBody(w)))
  {
    hide Owes, Holds, Conserved, Unowed, PlacedOnce, Assigned, Shape;
    var j, s' := s.workers[w].frame.value, After(s, EndBody(w));
    assert s.jobs[j].kids[0..] == s.jobs[j].kids;
    StatusChanges(s.jobs, j, s'.jobs[j]);
    FrameMoves(s.jobs, s.workers, w, j, s'.jobs[j]);
    ShapeStays(g, s, j, s'.jobs[j]);
  }

  /** The child of a decrement is neither started nor ready: the counter still includes this edge. */
  lemma ChildIsWaiting(g: Graph, s: Pool, w: nat)
    requires Inv(g, s) && Enabled(s, DecChild(w))
    ensures var job := s.jobs[s.workers[w].frame.value];
            var c := job.kids[job.status.dec];
            && c != s.workers[w].frame.value && !s.jobs[c].Started() && s.jobs[c].left >= 2
            && job.Owed() == job.(status := Finishing(job.status.dec + 1)).Owed() + multiset{c}
  {
    hide Owes, Holds, Conserved, Unowed, PlacedOnce, Assigned, Shape;
    var j := s.workers[w].frame.value;
    var job := s.jobs[j];
    var d := job.status.dec;
    assert job.kids[d..] == [job.kids[d]] + job.kids[d + 1..];
    OwesAfter(s.jobs, j, job);
    OwedIsWaiting(s.jobs, job.kids[d]);
  }

  /** A job to which something is owed has not started, and its counter says so. */
  lemma OwedIsWaiting(jobs: seq<Job>, c: nat)
    requires Conserved(jobs) && Unowed(jobs) && c < |jobs| && Owes(jobs)[c] > 0
    ensures !jobs[c].Started() && jobs[c].left >= 2
  {
    hide Owes;
  }

  lemma DecChildKeeps(g: Graph, s: Pool, w: nat)
    requires Inv(g, s) && Enabled(s, DecChild(w))
    ensures Inv(g, After(s, DecChild(w)))
  {
    hide Owes, Holds, Conserved, Unowed, PlacedOnce, Assigned, Shape, Job.Owed;
    var j := s.workers[w].frame.value;
    var job := s.jobs[j];
    var c := job.kids[job.status.dec];
    ChildIsWaiting(g, s, w);
    DecrementIs(s, w);
    var further := job.(status := Finishing(job.status.dec + 1));
    DebtChanges(s.jobs, j, further, c, -1);
    FrameMoves(s.jobs, s.workers, w, j, further);
    ShapeStays(g, s, j, further);
    hide Enabled, After;
    ChildDrops(s.jobs[j := further], s.workers, c);
    ShapeOfLeft(g, s.SetJob(j, further), c, s.jobs[c].left - 1);
  }

  /** A decrement seen as two changes: the parent goes on, and the counter of the child drops. */
  lemma DecrementIs(s: Pool, w: nat)
    requires Enabled(s, DecChild(w))
    ensures var j := s.workers[w].frame.value;
            var job := s.jobs[j];
            var c := job.kids[job.status.dec];
            c != j ==> After(s, DecChild(w)) ==
                       s.SetJob(j, job.(status := Finishing(job.status.dec + 1)))
                         .SetJob(c, s.jobs[c].(left := s.jobs[c].left - 1))
  {
  }

  lemma ShapeOfLeft(g: Graph, s: Pool, c: nat, left: int)
    requires Shape(g, s) && c < |s.jobs|
    ensures Shape(g, s.SetJob(c, s.jobs[c].(left := left)))
  {
  }

  /** A counter above one is in no queue, so dropping it leaves every worker as it was. */
  lemma ChildDrops(jobs: seq<Job>, workers: seq<Worker>, c: nat)
    requires PlacedOnce(jobs, workers) && Assigned(jobs, workers) && c < |jobs| && jobs[c].left >= 2
    ensures var after := jobs[c := jobs[c].(left := jobs[c].left - 1)];
            PlacedOnce(after, workers) && Assigned(after, workers)
  {
    hide Owes, Holds;
    var after := jobs[c := jobs[c].(left := jobs[c].left - 1)];
    forall v | 0 <= v < |workers| ensures WorkerFits(after, workers[v]) {
      assert WorkerFits(jobs, workers[v]);
    }
  }

  lemma FrameHeld(worker: Worker)
    requires worker.frame.Some?
    ensures worker.frame.value in worker.Held()
  {
  }

  lemma RetiredFits(jobs: seq<Job>, worker: Worker, job: Job)
    requires WorkerFits(jobs, worker) && worker.frame.Some? && worker.frame.value < |jobs|
             && worker.Held()[worker.frame.value] == 1
    ensures var j, retired := worker.frame.value, worker.(frame := None);
            WorkerFits(jobs[j := job], retired) && retired.Held() == worker.Held() - multiset{j}
  {
    Unaffected(jobs, worker.frame.value, job, worker.(frame := None));
  }

  lemma RetireKeeps(g: Graph, s: Pool, w: nat)
    requires Inv(g, s) && Enabled(s, Retire(w))
    ensures Inv(g, After(s, Retire(w)))
  {
    hide Owes, Holds, Conserved, Unowed, PlacedOnce, Assigned, Shape, WorkerFits, Worker.Held;
    var j, s' := s.workers[w].frame.value, After(s, Retire(w));
    StatusChanges(s.jobs, j, s'.jobs[j]);
    FitsAt(s.jobs, s.workers, w);
    FrameHeld(s.workers[w]);
    OnlyHere(s.jobs, s.workers, w, j);
    RetiredFits(s.jobs, s.workers[w], s'.jobs[j]);
    WorkerMoves(s.jobs, s.workers, w, s'.workers[w], j, s'.jobs[j]);
    ShapeStays(g, s, j, s'.jobs[j]);
    ShapeOf(g, s.SetJob(j, s'.jobs[j]), s'.workers);
  }

  lemma StealKeeps(g: Graph, s: Pool, w: nat, v: nat, k: nat)
    requires Inv(g, s) && Enabled(s, Steal(w, v, k))
    ensures Inv(g, After(s, Steal(w, v, k)))
  {
    hide Owes, Conserved, Unowed, Shape, PlacedOnce, Assigned;
    var s' := After(s, Steal(w, v, k));
    StealMoves(s.jobs, s.workers, w, v, k);
    ShapeOf(g, s, s'.workers);
  }

  lemma StealMoves(jobs: seq<Job>, workers: seq<Worker>, w: nat, v: nat, k: nat)
    requires PlacedOnce(jobs, workers) && Assigned(jobs, workers) && w < |workers| && v < |workers| && w != v
    requires workers[w].queue == [] && k <= |workers[v].queue|
    ensures var after := workers[w := workers[w].(queue := workers[v].queue[..k])]
                         [v := workers[v].(queue := workers[v].queue[k..])];
            PlacedOnce(jobs, after) && Assigned(jobs, after)
  {
    hide Holds, PlacedOnce, Assigned, WorkerFits, Worker.Held;
    var thief, robbed := workers[w].(queue := workers[v].queue[..k]), workers[v].(queue := workers[v].queue[k..]);
    FitsAt(jobs, workers, w);
    FitsAt(jobs, workers, v);
    StolenFits(jobs, workers[w], workers[v], k);
    TwoRearrange(jobs, workers, w, thief, v, robbed);
  }

  lemma StolenFits(jobs: seq<Job>, thief: Worker, robbed: Worker, k: nat)
    requires WorkerFits(jobs, thief) && WorkerFits(jobs, robbed) && thief.queue == [] && k <= |robbed.queue|
    ensures WorkerFits(jobs, thief.(queue := robbed.queue[..k]))
            && WorkerFits(jobs, robbed.(queue := robbed.queue[k..]))
    ensures thief.(queue := robbed.queue[..k]).Held() + robbed.(queue := robbed.queue[k..]).Held() ==
              thief.Held() + robbed.Held()
  {
    assert robbed.queue == robbed.queue[..k] + robbed.queue[k..];
  }

  lemma TwoRearrange(jobs: seq<Job>, workers: seq<Worker>, w: nat, a: Worker, v: nat, b: Worker)
    requires PlacedOnce(jobs, workers) && Assigned(jobs, workers) && w < |workers| && v < |workers| && w != v
    requires a.Held() + b.Held() == workers[w].Held() + workers[v].Held() && WorkerFits(jobs, a) && WorkerFits(jobs, b)
    ensures PlacedOnce(jobs, workers[w := a][v := b]) && Assigned(jobs, workers[w := a][v := b])
  {
    hide Holds, Worker.Held, WorkerFits;
    HoldsAfter(workers, w, a);
    HoldsAfter(workers[w := a], v, b);
    HeldTwice(workers, w, v);
    assert Holds(workers[w := a][v := b]) == Holds(workers);
  }

  lemma PromoteKeeps(g: Graph, s: Pool, w: nat, i: nat)
    requires Inv(g, s) && Enabled(s, Promote(w, i))
    ensures Inv(g, After(s, Promote(w, i)))
  {
    hide Owes, Holds, Conserved, Unowed, Shape, PlacedOnce, Assigned, WorkerFits, Worker.Held;
    var s' := After(s, Promote(w, i));
    FitsAt(s.jobs, s.workers, w);
    PromotedFits(s.jobs, s.workers[w], i);
    SameHeld(s.jobs, s.workers, w, s'.workers[w]);
    ShapeOf(g, s, s'.workers);
  }

  lemma PromotedFits(jobs: seq<Job>, worker: Worker, i: nat)
    requires WorkerFits(jobs, worker) && i < |worker.wait| && worker.wait[i] < |jobs| && jobs[worker.wait[i]].Ready()
    ensures var promoted := worker.(queue := worker.queue + [worker.wait[i]], wait := SwapRemove(worker.wait, i));
            WorkerFits(jobs, promoted) && promoted.Held() == worker.Held()
  {
    SwapRemoveContents(worker.wait, i);
    assert worker.wait[i] in worker.wait;
  }

  lemma StepKeeps(g: Graph, s: Pool, step: Step)
    requires Inv(g, s) && Enabled(s, step)
    ensures Inv(g, After(s, step))
  {
    hide Inv, Enabled, After;
    match step
    case Link => LinkKeeps(g, s);
    case Enqueue => EnqueueKeeps(g, s);
    case Start(w) => StartKeeps(g, s, w);
    case Tick(w) => TickKeeps(g, s, w);
    case EndBody(w) => EndBodyKeeps(g, s, w);
    case DecChild(w) => DecChildKeeps(g, s, w);
    case Retire(w) => RetireKeeps(g, s, w);
    case Steal(w, v, k) => StealKeeps(g, s, w, v, k);
    case Promote(w, i) => PromoteKeeps(g, s, w, i);
  }

  lemma TickKeeps(g: Graph, s: Pool, w: nat)
    requires Inv(g, s) && Enabled(s, Tick(w))
    ensures Inv(g, After(s, Tick(w)))
  {
  }

  // ---------------------------------------------------------------- building the jobs of a graph

  /** The children of each job are those of the edges, with multiplicity. */
  ghost predicate Children(jobs: seq<Job>, edges: seq<(nat, nat)>) {
    forall p, c :: 0 <= p < |jobs| && 0 <= c ==> multiset(jobs[p].kids)[c] == multiset(edges)[(p, c)]
  }

  lemma ChildrenMore(jobs: seq<Job>, edges: seq<(nat, nat)>, p: nat, c: nat)
    requires Children(jobs, edges) && p < |jobs| && c < |jobs| && p != c
    ensures Children(jobs[p := jobs[p].(kids := jobs[p].kids + [c])][c := jobs[c].(left := jobs[c].left + 1)],
                     edges + [(p, c)])
  {
  }

  /** `get_jobs`: a fresh job per node, and one `add_child` per edge. */
  method GetJobs(n: nat, edges: seq<(nat, nat)>) returns (jobs: seq<Job>)
    requires forall e :: e in edges ==> e.0 < n && e.1 < n && e.0 != e.1
    ensures |jobs| == n && Conserved(jobs) && Children(jobs, edges) && forall j :: 0 <= j < n ==> jobs[j].status.Fresh?
  {
    hide Conserved, Unowed, Children, Owes;
    jobs := seq(n, _ => Job(1, [], Fresh));
    NewJobs(jobs);
    for k := 0 to |edges|
      invariant |jobs| == n && Built(jobs, edges[..k])
    {
      var (p, c) := edges[k];
      assert edges[k] in edges;
      EdgeBuilds(jobs, edges, k, p, c);
      jobs := jobs[p := jobs[p].(kids := jobs[p].kids + [c])];
      jobs := jobs[c := jobs[c].(left := jobs[c].left + 1)];
    }
    assert edges[..|edges|] == edges;
  }

  /** The jobs once the given edges have been added. */
  ghost predicate Built(jobs: seq<Job>, edges: seq<(nat, nat)>) {
    Conserved(jobs) && Unowed(jobs) && Children(jobs, edges) && forall j :: 0 <= j < |jobs| ==> jobs[j].status.Fresh?
  }

  lemma EdgeBuilds(jobs: seq<Job>, edges: seq<(nat, nat)>, k: nat, p: nat, c: nat)
    requires k < |edges| && edges[k] == (p, c) && Built(jobs, edges[..k]) && p < |jobs| && c < |jobs| && p != c
    ensures Built(jobs[p := jobs[p].(kids := jobs[p].kids + [c])][c := jobs[c].(left := jobs[c].left + 1)],
                  edges[..k + 1])
  {
    hide Conserved, Unowed, Children, Owes;
    assert edges[..k + 1] == edges[..k] + [edges[k]];
    AddChild(jobs, p, c);
    ChildrenMore(jobs, edges[..k], p, c);
  }

  lemma DebtorOf(jobs: seq<Job>, x: nat) returns (p: nat)
    requires x in Owes(jobs)
    ensures p < |jobs| && x in jobs[p].Owed()
  {
    hide Job.Owed;
    var ms := seq(|jobs|, p requires 0 <= p < |jobs| => jobs[p].Owed());
    p := UnionHas(ms, x);
  }

  lemma HolderOf(workers: seq<Worker>, x: nat) returns (w: nat)
    requires x in Holds(workers)
    ensures w < |workers| && x in workers[w].Held()
  {
    hide Worker.Held;
    var ms := seq(|workers|, w requires 0 <= w < |workers| => workers[w].Held());
    w := UnionHas(ms, x);
  }

  lemma NewJobs(jobs: seq<Job>)
    requires forall j :: 0 <= j < |jobs| ==> jobs[j] == Job(1, [], Fresh)
    ensures Built(jobs, [])
  {
    OwesNothing(jobs);
    hide Owes;
  }

  lemma AddChild(jobs: seq<Job>, p: nat, c: nat)
    requires Conserved(jobs) && Unowed(jobs) && p < |jobs| && c < |jobs| && p != c
    requires jobs[p].status.Fresh? && jobs[c].status.Fresh?
    ensures var after := jobs[p := jobs[p].(kids := jobs[p].kids + [c])][c := jobs[c].(left := jobs[c].left + 1)];
            Conserved(after) && Unowed(after)
  {
    hide Conserved, Unowed;
    DebtChanges(jobs, p, jobs[p].(kids := jobs[p].kids + [c]), c, 1);
  }

  lemma OwesNothing(jobs: seq<Job>)
    requires forall j :: 0 <= j < |jobs| ==> jobs[j].Owed() == multiset{}
    ensures forall x: nat :: Owes(jobs)[x] == 0
  {
    forall x: nat ensures Owes(jobs)[x] == 0 {
      if x in Owes(jobs) {
        var _ := DebtorOf(jobs, x);
      }
    }
  }

  lemma HoldsNothing(workers: seq<Worker>)
    requires forall w :: 0 <= w < |workers| ==> workers[w] == Worker([], [], None)
    ensures forall x: nat :: Holds(workers)[x] == 0
  {
    forall x: nat ensures Holds(workers)[x] == 0 {
      if x in Holds(workers) {
        var _ := HolderOf(workers, x);
      }
    }
  }

  /** The state in which `run_graph` begins: all jobs built, the root fresh, nothing enqueued. */
  ghost predicate Initial(g: Graph, s: Pool) {
    && IsGraph(g) && |s.jobs| == |g| + 1 && s.next == 0 && !s.linked && s.main < |s.workers|
    && Conserved(s.jobs)
    && (forall p :: 0 <= p < |g| ==> s.jobs[p].kids == g[p]) && s.jobs[|g|].kids == []
    && (forall j :: 0 <= j < |s.jobs| ==> s.jobs[j].status.Fresh?)
    && (forall w :: 0 <= w < |s.workers| ==> s.workers[w] == Worker([], [], None))
  }

  lemma KidsInRange(jobs: seq<Job>, edges: seq<(nat, nat)>)
    requires Children(jobs, edges) && forall e :: e in edges ==> e.1 < |jobs|
    ensures forall p :: 0 <= p < |jobs| ==> forall k :: 0 <= k < |jobs[p].kids| ==> jobs[p].kids[k] < |jobs|
  {
    forall p, k | 0 <= p < |jobs| && 0 <= k < |jobs[p].kids| ensures jobs[p].kids[k] < |jobs| {
      assert multiset(jobs[p].kids)[jobs[p].kids[k]] > 0;
      assert (p, jobs[p].kids[k]) in edges;
    }
  }

  /** `run_graph` up to its loop: the jobs of the graph and the root. */
  method Prepare(n: nat, edges: seq<(nat, nat)>, workers: nat, main: nat) returns (s: Pool, ghost g: Graph)
    requires (forall e :: e in edges ==> e.0 < n && e.1 < n && e.0 != e.1) && main < workers
    ensures |g| == n && Initial(g, s)
            && forall p, c :: 0 <= p < n && 0 <= c ==> multiset(g[p])[c] == multiset(edges)[(p, c)]
  {
    var jobs := GetJobs(n, edges);
    hide Conserved;
    g := seq(n, p requires 0 <= p < n => jobs[p].kids);
    KidsInRange(jobs, edges);
    RootJoins(jobs, Job(1, [], Fresh));
    s := Pool(jobs + [Job(1, [], Fresh)], seq(workers, _ => Worker([], [], None)), 0, false, main);
  }

  lemma RootJoins(jobs: seq<Job>, root: Job)
    requires Conserved(jobs) && root == Job(1, [], Fresh)
    requires forall p :: 0 <= p < |jobs| ==>
               jobs[p].status.Fresh? && forall k :: 0 <= k < |jobs[p].kids| ==> jobs[p].kids[k] < |jobs|
    ensures Conserved(jobs + [root])
  {
    var all := jobs + [root];
    var ms := seq(|all|, p requires 0 <= p < |all| => all[p].Owed());
    assert ms[..|jobs|] == seq(|jobs|, p requires 0 <= p < |jobs| => jobs[p].Owed());
    assert Owes(all) == Owes(jobs) + multiset{};
    if |jobs| in Owes(jobs) {
      var _ := DebtorOf(jobs, |jobs|);
    }
  }

  lemma InitialHolds(g: Graph, s: Pool)
    requires Initial(g, s)
    ensures Inv(g, s)
  {
    HoldsNothing(s.workers);
    hide Holds, Owes;
  }

  // ---------------------------------------------------------------- runs

  /** `states` is a run of the pool on `g` through `steps`. */
  ghost predicate Run(g: Graph, states: seq<Pool>, steps: seq<Step>) {
    && |states| == |steps| + 1
    && Initial(g, states[0])
    && forall k :: 0 <= k < |steps| ==> Enabled(states[k], steps[k]) && states[k + 1] == After(states[k], steps[k])
  }

  lemma {:induction false} RunKeeps(g: Graph, states: seq<Pool>, steps: seq<Step>, k: nat)
    requires Run(g, states, steps) && k < |states|
    ensures Inv(g, states[k]) && |states[k].jobs| == |g| + 1
    decreases k
  {
    hide Enabled, After;
    if k == 0 {
      InitialHolds(g, states[0]);
    } else {
      RunKeeps(g, states, steps, k - 1);
      StepKeeps(g, states[k - 1], steps[k - 1]);
    }
  }

  /** Counters are never negative; a counter at one is exactly a job whose edges have all been decremented. */
  lemma CountersAreNatural(g: Graph, s: Pool, j: nat)
    requires Inv(g, s) && j < |s.jobs|
    ensures s.jobs[j].left >= 0
    ensures s.jobs[j].left <= 0 <==> s.jobs[j].status.Done?
    ensures s.jobs[j].Ready() <==> !s.jobs[j].Started() && Owes(s.jobs)[j] == 0
  {
    hide Owes, Holds;
  }

  /** Once enqueued, a ready job stays ready until it is started. */
  lemma ReadyStays(g: Graph, s: Pool, step: Step, j: nat)
    requires Inv(g, s) && Enabled(s, step) && j < |s.jobs| && s.jobs[j].Ready()
             && (s.jobs[j].status.Enqueued? || j < |g|)
    ensures var job := After(s, step).jobs[j]; job.Ready() || (step.Start? && job.status.Running?)
  {
    hide Owes, Holds, PlacedOnce, Conserved, Unowed;
    match step
    case DecChild(w) => ChildIsWaiting(g, s, w);
    case Start(w) => FitsAt(s.jobs, s.workers, w);
    case EndBody(w) => FitsAt(s.jobs, s.workers, w);
    case Retire(w) => FitsAt(s.jobs, s.workers, w);
    case _ =>
  }

  /** A job starts only when the bodies of all its parents are done. */
  lemma ParentsFirst(g: Graph, s: Pool, p: nat, c: nat)
    requires Inv(g, s) && p < |g| && c in g[p] && s.jobs[c].Started()
    ensures s.jobs[p].BodyDone()
  {
    hide Owes, Holds, PlacedOnce, Assigned;
    var k :| 0 <= k < |g[p]| && g[p][k] == c;
    assert s.jobs[p].kids[k] == c;
    OwesAfter(s.jobs, p, s.jobs[p]);
  }

  /** `wait` returns, its counter being zero, only when every body is done. */
  lemma RootIsLast(g: Graph, s: Pool)
    requires Inv(g, s) && s.jobs[|g|].left <= 0
    ensures forall p :: 0 <= p <= |g| ==> s.jobs[p].BodyDone()
  {
    hide Owes, Holds, PlacedOnce, Assigned;
    forall p | 0 <= p < |g| ensures s.jobs[p].BodyDone() {
      assert s.jobs[p].kids[|g[p]|] == |g|;
      OwesAfter(s.jobs, p, s.jobs[p]);
    }
  }

  // ---------------------------------------------------------------- exactly once

  /** The job that a step starts. */
  ghost predicate Begins(s: Pool, step: Step, j: nat) {
    step.Start? && Enabled(s, step) && s.workers[step.w].queue[0] == j
  }

  ghost function Starts(states: seq<Pool>, steps: seq<Step>, j: nat): nat
    requires |states| == |steps| + 1
  {
    if steps == [] then 0
    else
      var n := |steps| - 1;
      Starts(states[..n + 1], steps[..n], j) + (if Begins(states[n], steps[n], j) then 1 else 0)
  }

  lemma StartedOnce(g: Graph, s: Pool, step: Step, j: nat)
    requires Inv(g, s) && Enabled(s, step) && j < |s.jobs|
    ensures Begins(s, step, j) ==> !s.jobs[j].Started() && After(s, step).jobs[j].Started()
    ensures !Begins(s, step, j) ==> After(s, step).jobs[j].Started() == s.jobs[j].Started()
  {
    hide Owes, Holds, PlacedOnce, Conserved, Unowed;
    match step
    case Start(w) => FitsAt(s.jobs, s.workers, w);
    case EndBody(w) => FitsAt(s.jobs, s.workers, w);
    case Retire(w) => FitsAt(s.jobs, s.workers, w);
    case DecChild(w) => FitsAt(s.jobs, s.workers, w);
    case _ =>
  }

  /** Along any run a job has been started exactly once if it has started, and not at all otherwise. */
  lemma {:induction false} RunsOnce(g: Graph, states: seq<Pool>, steps: seq<Step>, j: nat)
    requires Run(g, states, steps) && j <= |g|
    ensures |states[|steps|].jobs| == |g| + 1
    ensures Starts(states, steps, j) == if states[|steps|].jobs[j].Started() then 1 else 0
    decreases |steps|
  {
    hide Inv, Enabled, After, Begins;
    RunKeeps(g, states, steps, |steps|);
    if steps != [] {
      var n := |steps| - 1;
      RunsOnce(g, states[..n + 1], steps[..n], j);
      RunKeeps(g, states, steps, n);
      StartedOnce(g, states[n], steps[n], j);
    }
  }

  // ---------------------------------------------------------------- no deadlock, and termination

  /** `rank` witnesses that the graph has no cycle. */
  ghost predicate Acyclic(g: Graph, rank: seq<nat>) {
    |rank| == |g| && forall p, k :: 0 <= p < |g| && 0 <= k < |g[p]| && g[p][k] < |g| ==> rank[p] < rank[g[p][k]]
  }

  /** Among the unfinished jobs there is one to which nothing is owed. */
  lemma {:induction false} SomeJobIsReady(g: Graph, rank: seq<nat>, s: Pool, j: nat) returns (r: nat)
    requires Inv(g, s) && Acyclic(g, rank) && j <= |g| && !s.jobs[j].status.Done?
    ensures r <= |g| && !s.jobs[r].status.Done? && Owes(s.jobs)[r] == 0
    decreases if j == |g| then 1 else 0, if j == |g| then 0 else rank[j]
  {
    hide Holds, PlacedOnce, Assigned, Owes;
    if Owes(s.jobs)[j] == 0 {
      return j;
    }
    var p := DebtorOf(s.jobs, j);
    Parent(g, s, p, j);
    r := SomeJobIsReady(g, rank, s, p);
  }

  /** What owes a decrement to `j` is an unfinished parent of `j`. */
  lemma Parent(g: Graph, s: Pool, p: nat, j: nat)
    requires Inv(g, s) && p < |s.jobs| && j in s.jobs[p].Owed()
    ensures p < |g| && !s.jobs[p].status.Done? && (j < |g| ==> j in g[p])
  {
    hide Owes, Holds, PlacedOnce, Assigned;
    assert j in s.jobs[p].kids;
  }

  /** Whether a step is one of the program's own: neither a steal nor a micro step inside a body. */
  predicate Proper(step: Step) {
    !step.Steal? && !step.Tick?
  }

  /** While some job is not done, some proper step is possible. */
  lemma Progress(g: Graph, rank: seq<nat>, s: Pool) returns (step: Step)
    requires Inv(g, s) && Acyclic(g, rank)
    requires exists j :: 0 <= j < |s.jobs| && !s.jobs[j].status.Done?
    ensures Proper(step) && Enabled(s, step)
  {
    hide Owes, Holds, Conserved, Unowed;
    if s.next <= |g| {
      step := if s.next < |g| && !s.linked then Link else Enqueue;
    } else if w :| 0 <= w < |s.workers| && s.workers[w].frame.Some? {
      step := BusyStep(g, s, w);
    } else if w :| 0 <= w < |s.workers| && s.workers[w].queue != [] {
      FitsAt(s.jobs, s.workers, w);
      step := Start(w);
    } else {
      step := PromotableStep(g, rank, s);
    }
  }

  lemma BusyStep(g: Graph, s: Pool, w: nat) returns (step: Step)
    requires Inv(g, s) && w < |s.workers| && s.workers[w].frame.Some?
    ensures Proper(step) && Enabled(s, step)
  {
    hide Owes, Holds, Conserved, Unowed, PlacedOnce;
    FitsAt(s.jobs, s.workers, w);
    var job := s.jobs[s.workers[w].frame.value];
    step := if job.status.Running? then EndBody(w)
            else if job.status.dec < |job.kids| then DecChild(w) else Retire(w);
  }

  /** With nothing queued and no worker busy, an unfinished job that is ready sits in its owner's wait list. */
  lemma PromotableStep(g: Graph, rank: seq<nat>, s: Pool) returns (step: Step)
    requires Inv(g, s) && Acyclic(g, rank) && s.next == |s.jobs|
    requires exists j :: 0 <= j < |s.jobs| && !s.jobs[j].status.Done?
    requires forall w :: 0 <= w < |s.workers| ==> s.workers[w].frame.None? && s.workers[w].queue == []
    ensures Proper(step) && Enabled(s, step)
  {
    hide Owes, Holds;
    var j :| 0 <= j < |s.jobs| && !s.jobs[j].status.Done?;
    var r := SomeJobIsReady(g, rank, s, j);
    assert Holds(s.workers)[r] == 1 by { NotFinished(g, s, r); }
    var w := HolderOf(s.workers, r);
    assert r in s.workers[w].wait;
    var i :| 0 <= i < |s.workers[w].wait| && s.workers[w].wait[i] == r;
    FitsAt(s.jobs, s.workers, w);
    step := Promote(w, i);
  }

  lemma NotFinished(g: Graph, s: Pool, r: nat)
    requires Inv(g, s) && s.next == |s.jobs| && r < |s.jobs| && !s.jobs[r].status.Done?
    ensures s.jobs[r].Placed() && Holds(s.workers)[r] == 1
  {
    hide Holds, Owes;
  }

  function Sum(xs: seq<int>): int {
    if xs == [] then 0 else Sum(xs[..|xs| - 1]) + xs[|xs| - 1]
  }

  lemma {:induction false} SumUpdate(xs: seq<int>, i: nat, x: int)
    requires i < |xs|
    ensures Sum(xs[i := x]) == Sum(xs) - xs[i] + x
    decreases |xs|
  {
    var n := |xs| - 1;
    if i < n {
      SumUpdate(xs[..n], i, x);
      assert xs[i := x][..n] == xs[..n][i := x];
    } else {
      assert xs[i := x][..n] == xs[..n];
    }
  }

  lemma {:induction false} SumNatural(xs: seq<int>)
    requires forall i :: 0 <= i < |xs| ==> xs[i] >= 0
    ensures Sum(xs) >= 0
    decreases |xs|
  {
    if xs != [] { SumNatural(xs[..|xs| - 1]); }
  }

  /** How many steps a job still has before it, with `kids` children to decrement. */
  function Potential(status: Status, kids: nat): int {
    match status
    case Fresh => kids + 5
    case Enqueued => kids + 3
    case Running => kids + 2
    case Finishing(dec) => kids + 1 - dec
    case Done => 0
  }

  /** The children of job `j` once it is linked to the root; the root has none. */
  function Kids(g: Graph, j: nat): nat {
    if j < |g| then |g[j]| + 1 else 0
  }

  function JobPotentials(g: Graph, jobs: seq<Job>): int {
    Sum(seq(|jobs|, j requires 0 <= j < |jobs| => Potential(jobs[j].status, Kids(g, j))))
  }

  function Waiting(workers: seq<Worker>): int {
    Sum(seq(|workers|, w requires 0 <= w < |workers| => |workers[w].wait|))
  }

  function Unlinked(g: Graph, s: Pool): int {
    if s.next >= |g| then 0 else |g| - s.next - (if s.linked then 1 else 0)
  }

  /** Bounds the proper steps that are left. */
  function Measure(g: Graph, s: Pool): int {
    JobPotentials(g, s.jobs) + Waiting(s.workers) + Unlinked(g, s)
  }

  lemma PotentialAfter(g: Graph, jobs: seq<Job>, j: nat, job: Job)
    requires j < |jobs|
    ensures JobPotentials(g, jobs[j := job]) ==
            JobPotentials(g, jobs) - Potential(jobs[j].status, Kids(g, j)) + Potential(job.status, Kids(g, j))
  {
    hide Potential, Kids;
    var xs := seq(|jobs|, i requires 0 <= i < |jobs| => Potential(jobs[i].status, Kids(g, i)));
    SumUpdate(xs, j, Potential(job.status, Kids(g, j)));
    var jobs1 := jobs[j := job];
    assert xs[j := Potential(job.status, Kids(g, j))] ==
           seq(|jobs1|, i requires 0 <= i < |jobs1| => Potential(jobs1[i].status, Kids(g, i)));
  }

  lemma WaitingAfter(workers: seq<Worker>, w: nat, worker: Worker)
    requires w < |workers|
    ensures Waiting(workers[w := worker]) == Waiting(workers) - |workers[w].wait| + |worker.wait|
  {
    var xs: seq<int> := seq(|workers|, v requires 0 <= v < |workers| => |workers[v].wait|);
    SumUpdate(xs, w, |worker.wait|);
    var workers1 := workers[w := worker];
    assert xs[w := |worker.wait|] == seq(|workers1|, v requires 0 <= v < |workers1| => |workers1[v].wait|);
  }

  lemma LinkMeasure(g: Graph, s: Pool)
    requires Inv(g, s) && Enabled(s, Link)
    ensures Measure(g, After(s, Link)) == Measure(g, s) - 1
  {
    hide JobPotentials, Waiting, Owes, Holds, Conserved, Unowed, PlacedOnce, Assigned;
    var s' := After(s, Link);
    PotentialAfter(g, s.jobs, s.next, s'.jobs[s.next]);
    PotentialAfter(g, s.jobs[s.next := s'.jobs[s.next]], s.Root(), s'.jobs[s.Root()]);
  }

  lemma EnqueueMeasure(g: Graph, s: Pool)
    requires Inv(g, s) && Enabled(s, Enqueue)
    ensures Measure(g, After(s, Enqueue)) < Measure(g, s)
  {
    hide JobPotentials, Waiting, Owes, Holds, Conserved, Unowed, PlacedOnce, Assigned;
    var s' := After(s, Enqueue);
    PotentialAfter(g, s.jobs, s.next, s'.jobs[s.next]);
    WaitingAfter(s.workers, s.main, s'.workers[s.main]);
  }

  /** A worker's job moves on to a later status. */
  lemma WorkMeasure(g: Graph, s: Pool, w: nat, worker: Worker, j: nat, job: Job)
    requires w < |s.workers| && j < |s.jobs| && |worker.wait| == |s.workers[w].wait|
    requires Potential(job.status, Kids(g, j)) == Potential(s.jobs[j].status, Kids(g, j)) - 1
    ensures Measure(g, s.SetJob(j, job).SetWorker(w, worker)) == Measure(g, s) - 1
  {
    hide JobPotentials, Waiting, Potential, Kids;
    PotentialAfter(g, s.jobs, j, job);
    WaitingAfter(s.workers, w, worker);
  }

  lemma DecChildMeasure(g: Graph, s: Pool, w: nat)
    requires Inv(g, s) && Enabled(s, DecChild(w))
    ensures Measure(g, After(s, DecChild(w))) == Measure(g, s) - 1
  {
    hide JobPotentials, Waiting, Owes, Holds, Conserved, Unowed, PlacedOnce, Assigned, Shape;
    var j, s' := s.workers[w].frame.value, After(s, DecChild(w));
    var c := s.jobs[j].kids[s.jobs[j].status.dec];
    ChildIsWaiting(g, s, w);
    PotentialAfter(g, s.jobs, j, s'.jobs[j]);
    PotentialAfter(g, s.jobs[j := s'.jobs[j]], c, s'.jobs[c]);
  }

  lemma WaitMeasure(g: Graph, s: Pool, step: Step)
    requires Enabled(s, step) && (step.Steal? || step.Promote?)
    ensures Measure(g, After(s, step)) == Measure(g, s) - (if step.Promote? then 1 else 0)
  {
    hide JobPotentials, Waiting;
    var s' := After(s, step);
    match step
    case Steal(w, v, k) =>
      WaitingAfter(s.workers, w, s'.workers[w]);
      WaitingAfter(s.workers[w := s'.workers[w]], v, s'.workers[v]);
    case Promote(w, i) => WaitingAfter(s.workers, w, s'.workers[w]);
  }

  lemma StartMeasure(g: Graph, s: Pool, w: nat)
    requires Inv(g, s) && Enabled(s, Start(w))
    ensures Measure(g, After(s, Start(w))) == Measure(g, s) - 1
  {
    hide Measure, Owes, Holds, Conserved, Unowed, PlacedOnce, Shape;
    var j, s' := s.workers[w].queue[0], After(s, Start(w));
    FitsAt(s.jobs, s.workers, w);
    WorkMeasure(g, s, w, s'.workers[w], j, s'.jobs[j]);
  }

  lemma EndBodyMeasure(g: Graph, s: Pool, w: nat)
    requires Enabled(s, EndBody(w))
    ensures Measure(g, After(s, EndBody(w))) == Measure(g, s) - 1
  {
    hide Measure;
    var j, s' := s.workers[w].frame.value, After(s, EndBody(w));
    WorkMeasure(g, s, w, s.workers[w], j, s'.jobs[j]);
    assert s.workers[w := s.workers[w]] == s.workers;
  }

  lemma RetireMeasure(g: Graph, s: Pool, w: nat)
    requires Inv(g, s) && Enabled(s, Retire(w))
    ensures Measure(g, After(s, Retire(w))) == Measure(g, s) - 1
  {
    hide Measure, Owes, Holds, Conserved, Unowed, PlacedOnce, Assigned;
    var j, s' := s.workers[w].frame.value, After(s, Retire(w));
    WorkMeasure(g, s, w, s'.workers[w], j, s'.jobs[j]);
  }

  /** Every proper step brings the end closer; steals and micro steps neither delay nor advance it. */
  lemma MeasureDecreases(g: Graph, s: Pool, step: Step)
    requires Inv(g, s) && Enabled(s, step)
    ensures Proper(step) ==> Measure(g, After(s, step)) < Measure(g, s)
    ensures !Proper(step) ==> Measure(g, After(s, step)) == Measure(g, s)
  {
    hide Inv, Enabled, Measure;
    match step
    case Link => LinkMeasure(g, s);
    case Enqueue => EnqueueMeasure(g, s);
    case Start(w) => StartMeasure(g, s, w);
    case Tick(w) =>
    case EndBody(w) => EndBodyMeasure(g, s, w);
    case DecChild(w) => DecChildMeasure(g, s, w);
    case Retire(w) => RetireMeasure(g, s, w);
    case Steal(w, v, k) => WaitMeasure(g, s, step);
    case Promote(w, i) => WaitMeasure(g, s, step);
  }

  lemma MeasureNatural(g: Graph, s: Pool)
    requires Inv(g, s)
    ensures Measure(g, s) >= 0
  {
    hide Owes, Holds;
    forall j | 0 <= j < |s.jobs| ensures Potential(s.jobs[j].status, Kids(g, j)) >= 0 {
      assert s.jobs[j].status.Finishing? ==> s.jobs[j].status.dec <= Kids(g, j);
    }
    PotentialsNatural(g, s.jobs);
    WaitingNatural(s.workers);
  }

  lemma PotentialsNatural(g: Graph, jobs: seq<Job>)
    requires forall j :: 0 <= j < |jobs| ==> Potential(jobs[j].status, Kids(g, j)) >= 0
    ensures JobPotentials(g, jobs) >= 0
  {
    hide Potential, Kids;
    var xs := seq(|jobs|, j requires 0 <= j < |jobs| => Potential(jobs[j].status, Kids(g, j)));
    SumNatural(xs);
  }

  lemma WaitingNatural(workers: seq<Worker>)
    ensures Waiting(workers) >= 0
  {
    var xs: seq<int> := seq(|workers|, w requires 0 <= w < |workers| => |workers[w].wait|);
    SumNatural(xs);
  }

  function ProperSteps(steps: seq<Step>): nat {
    if steps == [] then 0 else ProperSteps(steps[..|steps| - 1]) + (if Proper(steps[|steps| - 1]) then 1 else 0)
  }

  /** A run has a bounded number of proper steps, whatever steals and micro steps come in between. */
  lemma {:induction false} RunsAreBounded(g: Graph, states: seq<Pool>, steps: seq<Step>)
    requires Run(g, states, steps)
    ensures ProperSteps(steps) <= Measure(g, states[0]) - Measure(g, states[|steps|])
    ensures ProperSteps(steps) <= Measure(g, states[0])
    decreases |steps|
  {
    hide Inv, Enabled, After, Measure;
    RunKeeps(g, states, steps, |steps|);
    MeasureNatural(g, states[|steps|]);
    if steps != [] {
      var n := |steps| - 1;
      RunsAreBounded(g, states[..n + 1], steps[..n]);
      RunKeeps(g, states, steps, n);
      MeasureDecreases(g, states[n], steps[n]);
    }
  }

  // ---------------------------------------------------------------- the trace of a run

  /** The jobs of the graph whose bodies took a micro step, in the order in which they did. */
  ghost function Trace(g: Graph, states: seq<Pool>, steps: seq<Step>): seq<nat>
    requires |states| == |steps| + 1
  {
    if steps == [] then []
    else
      var n := |steps| - 1;
      Trace(g, states[..n + 1], steps[..n]) + Ticked(g, states[n], steps[n])
  }

  ghost function Ticked(g: Graph, s: Pool, step: Step): seq<nat> {
    if step.Tick? && Busy(s, step.w) && s.workers[step.w].frame.value < |g| then [s.workers[step.w].frame.value] else []
  }

  /** A job that has taken a micro step has started. */
  lemma {:induction false} TicksOfStarted(g: Graph, states: seq<Pool>, steps: seq<Step>)
    requires Run(g, states, steps)
    ensures |states[|steps|].jobs| == |g| + 1
    ensures forall a :: 0 <= a < |Trace(g, states, steps)| ==>
              Trace(g, states, steps)[a] < |g| && states[|steps|].jobs[Trace(g, states, steps)[a]].Started()
    decreases |steps|
  {
    hide Inv, Enabled, After, Begins;
    RunKeeps(g, states, steps, |steps|);
    if steps != [] {
      var n := |steps| - 1;
      TicksOfStarted(g, states[..n + 1], steps[..n]);
      RunKeeps(g, states, steps, n);
      forall j | 0 <= j <= |g| ensures states[n].jobs[j].Started() ==> states[n + 1].jobs[j].Started() {
        StartedOnce(g, states[n], steps[n], j);
      }
      TickIsRunning(g, states[n], steps[n]);
      var before, ticked := Trace(g, states[..n + 1], steps[..n]), Ticked(g, states[n], steps[n]);
      forall a | 0 <= a < |before + ticked|
        ensures (before + ticked)[a] < |g| && states[n + 1].jobs[(before + ticked)[a]].Started()
      {
        if a >= |before| { assert ticked[a - |before|] in ticked; }
      }
    }
  }

  lemma TickIsRunning(g: Graph, s: Pool, step: Step)
    requires Inv(g, s) && Enabled(s, step)
    ensures forall j :: j in Ticked(g, s, step) ==> j < |s.jobs| && s.jobs[j].status.Running? && After(s, step) == s
  {
  }

  /** In `t` no job comes after one of its children. */
  ghost predicate Follows(g: Graph, t: seq<nat>) {
    && (forall a :: 0 <= a < |t| ==> t[a] < |g|)
    && forall a, b :: 0 <= a < b < |t| ==> t[a] !in g[t[b]]
  }

  /** No job takes a micro step after a child of its has taken one: along an edge, bodies do not overlap. */
  lemma {:induction false} TraceFollowsEdges(g: Graph, states: seq<Pool>, steps: seq<Step>)
    requires Run(g, states, steps)
    ensures |states| == |steps| + 1 && Follows(g, Trace(g, states, steps))
    decreases |steps|
  {
    hide Inv, Enabled, After;
    TicksOfStarted(g, states, steps);
    if steps != [] {
      var n := |steps| - 1;
      TraceFollowsEdges(g, states[..n + 1], steps[..n]);
      RunKeeps(g, states, steps, n);
      TicksOfStarted(g, states[..n + 1], steps[..n]);
      TickIsRunning(g, states[n], steps[n]);
      var before := Trace(g, states[..n + 1], steps[..n]);
      if Ticked(g, states[n], steps[n]) != [] {
        var p := Ticked(g, states[n], steps[n])[0];
        assert p in Ticked(g, states[n], steps[n]);
        forall a | 0 <= a < |before| ensures before[a] !in g[p] {
          if before[a] in g[p] { ParentsFirst(g, states[n], p, before[a]); }
        }
        assert Trace(g, states, steps) == before + [p];
      }
    }
  }
}
