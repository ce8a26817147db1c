/**
  Executing a stage (src/lib.rs, `execute_stage`): running its systems on the pool ends in the
  same state as running them one by one in sorted order.

  The body of a system is a sequence of micro steps of a deterministic program with a local state.
  A micro step may read the cells the system declares and write those it declares as mutable.
 */
module Stages {
  import opened Wrappers
  import opened Accesses
  import opened Systems
  import opened Schedules
  import opened Pools

  type Memory<V> = map<Cell, V>

  datatype Program<!L, !V> = Program(step: (L, Memory<V>) -> (L, Memory<V>), access: Access)

  datatype State<L, V> = State(locals: seq<L>, mem: Memory<V>)

  ghost predicate Agree<V>(a: Memory<V>, b: Memory<V>, cells: set<Cell>) {
    && a.Keys == b.Keys
    && forall c :: c in a && c in cells ==> a[c] == b[c]
  }

  ghost function Touches(a: Access): set<Cell> {
    a.Reads() + a.Writes()
  }

  /** A program stays within its declaration; one with exclusive access may do anything. */
  ghost predicate Honest<L(!new), V(!new)>(p: Program<L, V>) {
    !p.access.exclusive ==>
      && (forall l, m :: p.step(l, m).1.Keys == m.Keys)
      && (forall l, m, c :: c in m && c !in p.access.Writes() ==> p.step(l, m).1[c] == m[c])
      && (forall l, m, n :: Agree(m, n, Touches(p.access)) ==>
            p.step(l, m).0 == p.step(l, n).0 && Agree(p.step(l, m).1, p.step(l, n).1, Touches(p.access)))
  }

  function Transfer<L, V>(from: Cell, to: Cell, f: (L, V) -> (L, V), l: L, m: Memory<V>): (L, Memory<V>) {
    if from in m && to in m then (f(l, m[from]).0, m[to := f(l, m[from]).1]) else (l, m)
  }

  /** A program that writes one cell, which it declares, from one that it reads is within its declaration. */
  lemma WriterIsHonest<L(!new), V(!new)>(access: Access, from: Cell, to: Cell, f: (L, V) -> (L, V))
    requires from in access.Reads() && to in access.Writes()
    ensures Honest(Program((l, m) => Transfer(from, to, f, l, m), access))
  {
    var p := Program((l, m) => Transfer(from, to, f, l, m), access);
    assert forall l, m :: p.step(l, m) == Transfer(from, to, f, l, m);
    hide Access.Reads, Access.Writes;
    forall l, m ensures p.step(l, m).1.Keys == m.Keys {}
    forall l, m, n | Agree(m, n, Touches(p.access))
      ensures p.step(l, m).0 == p.step(l, n).0 && Agree(p.step(l, m).1, p.step(l, n).1, Touches(p.access))
    {
      assert from in Touches(p.access);
      assert from in m <==> from in n;
      assert to in m <==> to in n;
    }
  }

  /** The system has returned: a further step would change nothing. */
  ghost predicate Halted<L(!new), V(!new)>(p: Program<L, V>, l: L) {
    forall m :: p.step(l, m) == (l, m)
  }

  function StepOf<L, V>(ps: seq<Program<L, V>>, s: State<L, V>, i: nat): (r: State<L, V>)
    requires i < |ps| == |s.locals|
    ensures |r.locals| == |ps|
  {
    var (l, m) := ps[i].step(s.locals[i], s.mem);
    State(s.locals[i := l], m)
  }

  ghost predicate Within<L, V>(ps: seq<Program<L, V>>, s: State<L, V>, sched: seq<nat>) {
    |ps| == |s.locals| && forall k :: 0 <= k < |sched| ==> sched[k] < |ps|
  }

  /** Micro steps of the systems named by `sched`, one after the other. */
  function Exec<L, V>(ps: seq<Program<L, V>>, s: State<L, V>, sched: seq<nat>): (r: State<L, V>)
    requires Within(ps, s, sched)
    ensures |r.locals| == |ps|
    decreases |sched|
  {
    if sched == [] then s else Exec(ps, StepOf(ps, s, sched[0]), sched[1..])
  }

  lemma {:induction false} ExecAppends<L, V>(ps: seq<Program<L, V>>, s: State<L, V>, sched: seq<nat>, i: nat)
    requires Within(ps, s, sched) && i < |ps|
    ensures Within(ps, s, sched + [i]) && Exec(ps, s, sched + [i]) == StepOf(ps, Exec(ps, s, sched), i)
    ensures var before := Exec(ps, s, sched);
            var (l, m) := ps[i].step(before.locals[i], before.mem);
            Exec(ps, s, sched + [i]) == State(before.locals[i := l], m)
    ensures Exec(ps, s, []) == s
    decreases |sched|
  {
    var all := sched + [i];
    if sched != [] {
      ExecAppends(ps, StepOf(ps, s, sched[0]), sched[1..], i);
      assert all[1..] == sched[1..] + [i];
    } else {
      assert all[1..] == [];
    }
  }

  // ---------------------------------------------------------------- steps of disjoint systems commute

  lemma MemoriesCommute<L(!new), V(!new)>(p: Program<L, V>, q: Program<L, V>, l: L, k: L, m: Memory<V>)
    requires Honest(p) && Honest(q) && p.access.IsDisjoint(q.access)
    ensures q.step(k, p.step(l, m).1).0 == q.step(k, m).0
    ensures p.step(l, q.step(k, m).1).0 == p.step(l, m).0
    ensures q.step(k, p.step(l, m).1).1 == p.step(l, q.step(k, m).1).1
  {
    DisjointMeans(p.access, q.access);
    var mp, mq := p.step(l, m).1, q.step(k, m).1;
    assert Agree(m, mp, Touches(q.access));
    assert Agree(m, mq, Touches(p.access));
    var pq, qp := q.step(k, mp).1, p.step(l, mq).1;
    assert pq.Keys == m.Keys && qp.Keys == m.Keys;
    forall c | c in m ensures pq[c] == qp[c] {
      if c in p.access.Writes() {
        assert pq[c] == mp[c] && qp[c] == mp[c];
      } else if c in q.access.Writes() {
        assert pq[c] == mq[c] && qp[c] == mq[c];
      }
    }
  }

  lemma StepsCommute<L(!new), V(!new)>(ps: seq<Program<L, V>>, s: State<L, V>, i: nat, k: nat)
    requires i < |ps| == |s.locals| && k < |ps| && i != k
    requires Honest(ps[i]) && Honest(ps[k]) && ps[i].access.IsDisjoint(ps[k].access)
    ensures StepOf(ps, StepOf(ps, s, i), k) == StepOf(ps, StepOf(ps, s, k), i)
  {
    MemoriesCommute(ps[i], ps[k], s.locals[i], s.locals[k], s.mem);
    hide Honest;
    var a, b := StepOf(ps, StepOf(ps, s, i), k), StepOf(ps, StepOf(ps, s, k), i);
    assert a.locals == b.locals;
  }

  // ---------------------------------------------------------------- sorting a schedule

  ghost predicate Nondecreasing(t: seq<nat>) {
    forall a, b :: 0 <= a < b < |t| ==> t[a] <= t[b]
  }

  /** Puts `x` before the first element that is not smaller. */
  function Insert(x: nat, t: seq<nat>): seq<nat>
    decreases |t|
  {
    if t == [] || x <= t[0] then [x] + t else [t[0]] + Insert(x, t[1..])
  }

  /** The micro steps of system 0, then those of system 1, and so on. */
  function Serial(t: seq<nat>): seq<nat>
    decreases |t|
  {
    if t == [] then [] else Insert(t[0], Serial(t[1..]))
  }

  lemma {:induction false} InsertContents(x: nat, t: seq<nat>)
    ensures multiset(Insert(x, t)) == multiset(t) + multiset{x}
    ensures forall y :: y in Insert(x, t) ==> y == x || y in t
    decreases |t|
  {
    if t != [] && x > t[0] {
      InsertContents(x, t[1..]);
      assert t == [t[0]] + t[1..];
    }
  }

  lemma {:induction false} InsertSorts(x: nat, t: seq<nat>)
    requires Nondecreasing(t)
    ensures Nondecreasing(Insert(x, t))
    decreases |t|
  {
    if t != [] && x > t[0] {
      var r := Insert(x, t[1..]);
      InsertSorts(x, t[1..]);
      InsertContents(x, t[1..]);
      forall b | 0 <= b < |r| ensures t[0] <= r[b] {
        assert r[b] in r;
      }
    }
  }

  lemma {:induction false} SerialSorts(t: seq<nat>)
    ensures Nondecreasing(Serial(t)) && multiset(Serial(t)) == multiset(t)
    decreases |t|
  {
    if t != [] {
      SerialSorts(t[1..]);
      InsertSorts(t[0], Serial(t[1..]));
      InsertContents(t[0], Serial(t[1..]));
      assert t == [t[0]] + t[1..];
    }
  }

  lemma SameElements(s: seq<nat>, t: seq<nat>)
    requires multiset(s) == multiset(t)
    ensures forall x :: x in s <==> x in t
  {
    forall x ensures x in s <==> x in t {
      assert x in s <==> x in multiset(s);
      assert x in t <==> x in multiset(t);
    }
  }

  ghost predicate AllHonest<L(!new), V(!new)>(ps: seq<Program<L, V>>) {
    forall i :: 0 <= i < |ps| ==> Honest(ps[i])
  }

  /** A micro step of `x` can be put off past steps of smaller systems that are disjoint from `x`. */
  lemma {:induction false} InsertExec<L(!new), V(!new)>(ps: seq<Program<L, V>>, s: State<L, V>, x: nat, t: seq<nat>)
    requires Within(ps, s, t) && x < |ps| && AllHonest(ps)
    requires forall y :: y in t && y < x ==> ps[x].access.IsDisjoint(ps[y].access)
    ensures Within(ps, s, [x] + t) && Within(ps, s, Insert(x, t))
    ensures Exec(ps, s, [x] + t) == Exec(ps, s, Insert(x, t))
    decreases |t|
  {
    hide Honest, StepOf;
    if t != [] && x > t[0] {
      var y, rest := t[0], t[1..];
      var s1 := StepOf(ps, s, y);
      assert y in t;
      StepsCommute(ps, s, x, y);
      InsertExec(ps, s1, x, rest);
      assert ([x] + t)[1..] == t && ([x] + rest)[1..] == rest;
      assert ([y] + Insert(x, rest))[1..] == Insert(x, rest);
    }
  }

  /** Systems that are out of order in the schedule are disjoint. */
  ghost predicate Reorderable<L, V>(ps: seq<Program<L, V>>, t: seq<nat>) {
    forall a, b :: 0 <= a < b < |t| && t[b] < t[a] < |ps| ==> ps[t[a]].access.IsDisjoint(ps[t[b]].access)
  }

  /** An interleaving that only swaps disjoint systems is equivalent to the serial order. */
  lemma {:induction false} SerialExec<L(!new), V(!new)>(ps: seq<Program<L, V>>, s: State<L, V>, t: seq<nat>)
    requires Within(ps, s, t) && AllHonest(ps) && Reorderable(ps, t)
    ensures Within(ps, s, Serial(t)) && Exec(ps, s, t) == Exec(ps, s, Serial(t))
    decreases |t|
  {
    SerialSorts(t);
    SameElements(t, Serial(t));
    hide Honest, StepOf;
    if t != [] {
      var x, rest := t[0], t[1..];
      SerialSorts(rest);
      SameElements(rest, Serial(rest));
      SerialExec(ps, StepOf(ps, s, x), rest);
      forall y | y in Serial(rest) && y < x ensures ps[x].access.IsDisjoint(ps[y].access) {
        var b :| 0 <= b < |rest| && rest[b] == y;
        assert t[b + 1] == y;
      }
      assert ([x] + Serial(rest))[1..] == Serial(rest);
      InsertExec(ps, s, x, Serial(rest));
    }
  }

  // ---------------------------------------------------------------- the serial result is unique

  lemma {:induction false} LocalUntouched<L, V>(ps: seq<Program<L, V>>, s: State<L, V>, t: seq<nat>, i: nat)
    requires Within(ps, s, t) && i < |ps| && i !in t
    ensures Exec(ps, s, t).locals[i] == s.locals[i]
    decreases |t|
  {
    if t != [] {
      assert t[0] in t;
      LocalUntouched(ps, StepOf(ps, s, t[0]), t[1..], i);
    }
  }

  ghost predicate Finished<L(!new), V(!new)>(ps: seq<Program<L, V>>, s: State<L, V>) {
    |ps| == |s.locals| && forall i :: 0 <= i < |ps| ==> Halted(ps[i], s.locals[i])
  }

  lemma HaltedStep<L(!new), V(!new)>(ps: seq<Program<L, V>>, s: State<L, V>, i: nat)
    requires i < |ps| == |s.locals| && Halted(ps[i], s.locals[i])
    ensures StepOf(ps, s, i) == s
  {
    assert s.locals[i := s.locals[i]] == s.locals;
  }

  /**
    Two serial schedules, each running the systems one after the other until all have returned,
    end in the same state, however the steps are counted.
   */
  lemma {:induction false} SerialIsUnique<L(!new), V(!new)>(ps: seq<Program<L, V>>, s: State<L, V>, a: seq<nat>,
                                                            b: seq<nat>, lo: nat)
    requires Within(ps, s, a) && Within(ps, s, b) && Nondecreasing(a) && Nondecreasing(b) && lo <= |ps|
    requires (forall k :: 0 <= k < |a| ==> lo <= a[k]) && forall k :: 0 <= k < |b| ==> lo <= b[k]
    requires Finished(ps, Exec(ps, s, a)) && Finished(ps, Exec(ps, s, b))
    ensures Exec(ps, s, a) == Exec(ps, s, b)
    decreases |a| + |b|, |ps| - lo
  {
    hide Halted, StepOf;
    if lo < |ps| {
      if a != [] && a[0] == lo && b != [] && b[0] == lo {
        SerialIsUnique(ps, StepOf(ps, s, lo), a[1..], b[1..], lo);
      } else if a != [] && a[0] == lo {
        assert lo !in b;
        LocalUntouched(ps, s, b, lo);
        HaltedStep(ps, s, lo);
        SerialIsUnique(ps, s, a[1..], b, lo);
      } else if b != [] && b[0] == lo {
        assert lo !in a;
        LocalUntouched(ps, s, a, lo);
        HaltedStep(ps, s, lo);
        SerialIsUnique(ps, s, a, b[1..], lo);
      } else {
        SerialIsUnique(ps, s, a, b, lo + 1);
      }
    }
  }

  // ---------------------------------------------------------------- pool runs of a stage

  /** The programs of a stage, the job graph of its schedule, and the pool before the first job is enqueued. */
  ghost predicate Staged<L(!new), V(!new)>(stage: seq<System>, ps: seq<Program<L, V>>, g: Graph) {
    && DistinctIds(stage) && Ordered(stage) && |ps| == |stage| == |g| && AllHonest(ps)
    && (forall i :: 0 <= i < |stage| ==> ps[i].access == stage[i].access)
    && forall p, c :: 0 <= p < |g| && 0 <= c < |g| ==> multiset(g[p])[c] == Edges(stage, p, c)
  }

  /** The graph that the scheduler and the pool build for a sorted stage is the one meant above. */
  method StagePool(stage: seq<System>, workers: nat, main: nat) returns (s: Pool, ghost g: Graph)
    requires DistinctIds(stage) && Ordered(stage) && main < workers
    ensures Initial(g, s) && |g| == |stage|
    ensures forall p, c :: 0 <= p < |g| && 0 <= c < |g| ==> multiset(g[p])[c] == Edges(stage, p, c)
  {
    var edges := StageGraph(stage);
    s, g := Prepare(|stage|, edges, workers, main);
  }

  /** Any programs that stay within the declarations of a sorted stage can be run on that graph. */
  lemma AnyPrograms<L(!new), V(!new)>(stage: seq<System>, ps: seq<Program<L, V>>, g: Graph)
    requires forall i, j :: 0 <= i < j < |stage| ==> stage[i].id != stage[j].id
    requires forall i, j :: 0 <= i < |stage| && 0 <= j < |stage| && stage[j].id in stage[i].after ==> j < i
    requires |ps| == |stage| == |g|
    requires forall i :: 0 <= i < |stage| ==> Honest(ps[i]) && ps[i].access == stage[i].access
    requires forall p, c :: 0 <= p < |g| && 0 <= c < |g| ==> multiset(g[p])[c] == Edges(stage, p, c)
    ensures Staged(stage, ps, g)
  {
    hide Honest, Edges;
  }

  /** What the systems have done after a run of the pool. */
  ghost function Reached<L, V>(ps: seq<Program<L, V>>, s0: State<L, V>, g: Graph, states: seq<Pool>,
                               steps: seq<Step>): (r: State<L, V>)
    requires |ps| == |s0.locals| == |g| && Run(g, states, steps)
    ensures |r.locals| == |ps|
  {
    TraceFollowsEdges(g, states, steps);
    Exec(ps, s0, Trace(g, states, steps))
  }

  /** Before the first step the systems have done nothing. */
  lemma NothingReached<L, V>(ps: seq<Program<L, V>>, s0: State<L, V>, g: Graph, s: Pool)
    requires |ps| == |s0.locals| == |g| && Initial(g, s)
    ensures Run(g, [s], []) && Reached(ps, s0, g, [s], []) == s0
  {
  }

  lemma RunFurther(g: Graph, states: seq<Pool>, steps: seq<Step>, step: Step)
    requires Run(g, states, steps) && Enabled(states[|steps|], step)
    ensures Run(g, states + [After(states[|steps|], step)], steps + [step])
  {
    hide Enabled, After, Initial;
  }

  /**
    Whatever has happened before, while a worker is running the body of a system, that system can
    take a step of its program, on what has been reached so far.
   */
  lemma TickRunsProgram<L, V>(ps: seq<Program<L, V>>, s0: State<L, V>, g: Graph, states: seq<Pool>, steps: seq<Step>,
                              w: nat, j: nat)
    requires |ps| == |s0.locals| == |g| && Run(g, states, steps) && w < |states[|steps|].workers|
    requires states[|steps|].workers[w].frame == Some(j) && j < |g|
    requires j < |states[|steps|].jobs| && states[|steps|].jobs[j].status.Running?
    ensures Enabled(states[|steps|], Tick(w)) && After(states[|steps|], Tick(w)) == states[|steps|]
    ensures Run(g, states + [states[|steps|]], steps + [Tick(w)])
    ensures var now := Reached(ps, s0, g, states, steps);
            var (l, m) := ps[j].step(now.locals[j], now.mem);
            Reached(ps, s0, g, states + [states[|steps|]], steps + [Tick(w)]) == State(now.locals[j := l], m)
  {
    RunFurther(g, states, steps, Tick(w));
    var states', steps' := states + [states[|steps|]], steps + [Tick(w)];
    assert states'[..|steps'|] == states && steps'[..|steps'| - 1] == steps;
    TraceFollowsEdges(g, states, steps);
    TraceFollowsEdges(g, states', steps');
    hide Run;
    ExecAppends(ps, s0, Trace(g, states, steps), j);
  }

  /** No other step of the pool does anything to the world. */
  lemma OthersRunNothing<L, V>(ps: seq<Program<L, V>>, s0: State<L, V>, g: Graph, states: seq<Pool>, steps: seq<Step>,
                               step: Step)
    requires |ps| == |s0.locals| == |g| && Run(g, states, steps) && Enabled(states[|steps|], step)
    requires !step.Tick? || states[|steps|].workers[step.w].frame == Some(|g|)
    ensures Run(g, states + [After(states[|steps|], step)], steps + [step])
    ensures Reached(ps, s0, g, states + [After(states[|steps|], step)], steps + [step]) ==
              Reached(ps, s0, g, states, steps)
  {
    RunFurther(g, states, steps, step);
    var states', steps' := states + [After(states[|steps|], step)], steps + [step];
    assert states'[..|steps'|] == states && steps'[..|steps'| - 1] == steps;
    TraceFollowsEdges(g, states, steps);
    TraceFollowsEdges(g, states', steps');
    hide Run, After;
    assert Trace(g, states', steps') == Trace(g, states, steps);
  }

  /** The pool takes the body of a system for finished only when the system has returned. */
  ghost predicate BodiesReturn<L(!new), V(!new)>(ps: seq<Program<L, V>>, s0: State<L, V>, g: Graph, states: seq<Pool>,
                                                 steps: seq<Step>)
    requires |ps| == |s0.locals| == |g| && Run(g, states, steps)
  {
    forall k :: 0 <= k < |steps| && Ends(g, states[k], steps[k]).Some? ==>
      var j := Ends(g, states[k], steps[k]).value;
      Halted(ps[j], Reached(ps, s0, g, states[..k + 1], steps[..k]).locals[j])
  }

  /**
    Any run can be one in which bodies return: it starts as one, and stays one with every step, as
    long as a body ends only where one more step of its program would change nothing.
   */
  lemma ReturnsFurther<L(!new), V(!new)>(ps: seq<Program<L, V>>, s0: State<L, V>, g: Graph, states: seq<Pool>,
                                         steps: seq<Step>, step: Step)
    requires |ps| == |s0.locals| == |g| && Run(g, states, steps) && Enabled(states[|steps|], step)
    requires steps == [] || BodiesReturn(ps, s0, g, states, steps)
    requires forall j :: step.EndBody? && states[|steps|].workers[step.w].frame == Some(j) && 0 <= j < |g| ==>
               var l := Reached(ps, s0, g, states, steps).locals[j];
               forall m :: ps[j].step(l, m) == (l, m)
    ensures Run(g, states + [After(states[|steps|], step)], steps + [step])
    ensures BodiesReturn(ps, s0, g, states + [After(states[|steps|], step)], steps + [step])
  {
    RunFurther(g, states, steps, step);
    hide Enabled, After, Reached, Run;
    var n, states', steps' := |steps|, states + [After(states[|steps|], step)], steps + [step];
    forall k | 0 <= k < n + 1 && Ends(g, states'[k], steps'[k]).Some?
      ensures Run(g, states'[..k + 1], steps'[..k])
      ensures var j := Ends(g, states'[k], steps'[k]).value;
              Halted(ps[j], Reached(ps, s0, g, states'[..k + 1], steps'[..k]).locals[j])
    {
      if k < n {
        ReturnedBefore(ps, s0, g, states, steps, k);
        assert states'[..k + 1] == states[..k + 1] && steps'[..k] == steps[..k];
        assert steps'[k] == steps[k] && states'[k] == states[k];
      } else {
        assert states'[..n + 1] == states && steps'[..n] == steps;
        EndsMeans(g, states[n], step);
      }
      hide BodiesReturn, Ends;
    }
  }

  lemma ReturnedBefore<L(!new), V(!new)>(ps: seq<Program<L, V>>, s0: State<L, V>, g: Graph, states: seq<Pool>,
                                         steps: seq<Step>, k: nat)
    requires |ps| == |s0.locals| == |g| && Run(g, states, steps) && BodiesReturn(ps, s0, g, states, steps)
    requires k < |steps| && Ends(g, states[k], steps[k]).Some?
    ensures Run(g, states[..k + 1], steps[..k])
    ensures var j := Ends(g, states[k], steps[k]).value;
            Halted(ps[j], Reached(ps, s0, g, states[..k + 1], steps[..k]).locals[j])
  {
    hide Halted, Reached, Ends, Enabled, After;
  }

  lemma EndsMeans(g: Graph, s: Pool, step: Step)
    requires Enabled(s, step)
    ensures Ends(g, s, step).Some? ==> step.EndBody? && s.workers[step.w].frame == Ends(g, s, step)
  {
  }

  /** The job of the graph whose body a step ends. */
  ghost function Ends(g: Graph, s: Pool, step: Step): (r: Option<nat>)
    ensures r.Some? ==> r.value < |g|
  {
    if step.EndBody? && Busy(s, step.w) && s.workers[step.w].frame.value < |g| then Some(s.workers[step.w].frame.value)
    else None
  }

  /** No two systems that are in conflict overlap, and they run in the order of the stage. */
  lemma TraceIsReorderable<L(!new), V(!new)>(stage: seq<System>, ps: seq<Program<L, V>>, g: Graph, states: seq<Pool>,
                                             steps: seq<Step>)
    requires Staged(stage, ps, g) && Run(g, states, steps)
    ensures Reorderable(ps, Trace(g, states, steps))
  {
    hide Honest, Run;
    TraceFollowsEdges(g, states, steps);
    var t := Trace(g, states, steps);
    forall a, b | 0 <= a < b < |t| && t[b] < t[a] < |ps| ensures ps[t[a]].access.IsDisjoint(ps[t[b]].access) {
      assert t[a] !in multiset(g[t[b]]);
      EdgesGoForward(stage, t[b], t[a]);
    }
  }

  /**
    However the pool interleaves the bodies, the components, the resources and the systems end up
    as if the systems had run one by one in sorted order.
   */
  lemma ParallelIsSerial<L(!new), V(!new)>(stage: seq<System>, ps: seq<Program<L, V>>, s0: State<L, V>,
                                           g: Graph, states: seq<Pool>, steps: seq<Step>)
    requires Staged(stage, ps, g) && |s0.locals| == |ps| && Run(g, states, steps)
    ensures var t := Trace(g, states, steps);
            && Nondecreasing(Serial(t)) && multiset(Serial(t)) == multiset(t) && Within(ps, s0, Serial(t))
            && Reached(ps, s0, g, states, steps) == Exec(ps, s0, Serial(t))
  {
    hide Honest, Run;
    TraceFollowsEdges(g, states, steps);
    TraceIsReorderable(stage, ps, g, states, steps);
    SerialSorts(Trace(g, states, steps));
    SerialExec(ps, s0, Trace(g, states, steps));
  }

  /** Once the body of a system is done, its program has returned and stays so. */
  lemma {:induction false} DoneIsHalted<L(!new), V(!new)>(ps: seq<Program<L, V>>, s0: State<L, V>,
                                                          g: Graph, states: seq<Pool>, steps: seq<Step>, j: nat)
    requires |ps| == |s0.locals| == |g| && Run(g, states, steps) && BodiesReturn(ps, s0, g, states, steps) && j < |g|
    ensures |states[|steps|].jobs| == |g| + 1
    ensures states[|steps|].jobs[j].BodyDone() ==> Halted(ps[j], Reached(ps, s0, g, states, steps).locals[j])
    decreases |steps|
  {
    hide Inv, Enabled, After, Halted, StepOf, Ends, Ticked;
    RunKeeps(g, states, steps, |steps|);
    if steps != [] {
      var n := |steps| - 1;
      RunKeeps(g, states, steps, n);
      BodiesReturnBefore(ps, s0, g, states, steps);
      DoneIsHalted(ps, s0, g, states[..n + 1], steps[..n], j);
      BodyEnds(g, states[n], steps[n], j);
      TraceFollowsEdges(g, states[..n + 1], steps[..n]);
      TraceFollowsEdges(g, states, steps);
      TickedStep(ps, s0, g, states, steps, j);
    }
  }

  lemma BodiesReturnBefore<L(!new), V(!new)>(ps: seq<Program<L, V>>, s0: State<L, V>, g: Graph, states: seq<Pool>,
                                             steps: seq<Step>)
    requires |ps| == |s0.locals| == |g| && Run(g, states, steps) && BodiesReturn(ps, s0, g, states, steps)
             && steps != []
    ensures Run(g, states[..|steps|], steps[..|steps| - 1])
            && BodiesReturn(ps, s0, g, states[..|steps|], steps[..|steps| - 1])
  {
    hide Enabled, After, Halted, Ends, Reached;
    var n := |steps| - 1;
    forall k | 0 <= k < n && Ends(g, states[..n + 1][k], steps[..n][k]).Some?
      ensures var j := Ends(g, states[k], steps[k]).value;
              Halted(ps[j], Reached(ps, s0, g, states[..n + 1][..k + 1], steps[..n][..k]).locals[j])
    {
      assert states[..n + 1][..k + 1] == states[..k + 1] && steps[..n][..k] == steps[..k];
    }
  }

  /** A step ends the body of `j`, or leaves it done or not done as it was. */
  lemma BodyEnds(g: Graph, s: Pool, step: Step, j: nat)
    requires Inv(g, s) && Enabled(s, step) && j < |g|
    ensures After(s, step).jobs[j].BodyDone() ==> s.jobs[j].BodyDone() || Ends(g, s, step) == Some(j)
    ensures j in Ticked(g, s, step) ==> !s.jobs[j].BodyDone() && !After(s, step).jobs[j].BodyDone()
    ensures |Ticked(g, s, step)| <= 1
  {
    hide Owes, Holds, PlacedOnce, Conserved, Unowed;
    match step
    case Start(w) => FitsAt(s.jobs, s.workers, w);
    case EndBody(w) => FitsAt(s.jobs, s.workers, w);
    case Retire(w) => FitsAt(s.jobs, s.workers, w);
    case DecChild(w) => FitsAt(s.jobs, s.workers, w);
    case _ =>
  }

  lemma TickedStep<L(!new), V(!new)>(ps: seq<Program<L, V>>, s0: State<L, V>, g: Graph, states: seq<Pool>,
                                     steps: seq<Step>, j: nat)
    requires |ps| == |s0.locals| == |g| && Run(g, states, steps) && steps != [] && j < |g|
    ensures Run(g, states[..|steps|], steps[..|steps| - 1])
    ensures j !in Ticked(g, states[|steps| - 1], steps[|steps| - 1]) ==>
              Reached(ps, s0, g, states, steps).locals[j] ==
                Reached(ps, s0, g, states[..|steps|], steps[..|steps| - 1]).locals[j]
  {
    hide Enabled, After;
    var n := |steps| - 1;
    TraceFollowsEdges(g, states, steps);
    TraceFollowsEdges(g, states[..n + 1], steps[..n]);
    var before := Trace(g, states[..n + 1], steps[..n]);
    if Ticked(g, states[n], steps[n]) == [] {
      assert Trace(g, states, steps) == before;
    } else {
      ExecAppends(ps, s0, before, Ticked(g, states[n], steps[n])[0]);
    }
  }

  /** When `wait` has returned, every system has returned. */
  lemma WaitFinishes<L(!new), V(!new)>(ps: seq<Program<L, V>>, s0: State<L, V>, g: Graph, states: seq<Pool>,
                                       steps: seq<Step>)
    requires |ps| == |s0.locals| == |g| && Run(g, states, steps) && BodiesReturn(ps, s0, g, states, steps)
    requires |states[|steps|].jobs| == |g| + 1 && states[|steps|].jobs[|g|].left <= 0
    ensures Finished(ps, Reached(ps, s0, g, states, steps))
  {
    hide Halted, Inv;
    RunKeeps(g, states, steps, |steps|);
    RootIsLast(g, states[|steps|]);
    forall j | 0 <= j < |ps| ensures Halted(ps[j], Reached(ps, s0, g, states, steps).locals[j]) {
      DoneIsHalted(ps, s0, g, states, steps, j);
    }
  }

  /**
    Any two runs of a stage, with any workers, queues and steals, that start from the same state
    and have been waited for, end in the same state.
   */
  lemma RunsAgree<L(!new), V(!new)>(stage: seq<System>, ps: seq<Program<L, V>>, s0: State<L, V>, g: Graph,
                                    states: seq<Pool>, steps: seq<Step>, states': seq<Pool>, steps': seq<Step>)
    requires Staged(stage, ps, g) && |s0.locals| == |ps|
    requires Run(g, states, steps) && BodiesReturn(ps, s0, g, states, steps)
    requires Run(g, states', steps') && BodiesReturn(ps, s0, g, states', steps')
    requires |states[|steps|].jobs| == |g| + 1 && states[|steps|].jobs[|g|].left <= 0
    requires |states'[|steps'|].jobs| == |g| + 1 && states'[|steps'|].jobs[|g|].left <= 0
    ensures Reached(ps, s0, g, states, steps) == Reached(ps, s0, g, states', steps')
  {
    hide AllHonest, Run, BodiesReturn, Finished, Reached;
    TraceFollowsEdges(g, states, steps);
    TraceFollowsEdges(g, states', steps');
    WaitFinishes(ps, s0, g, states, steps);
    WaitFinishes(ps, s0, g, states', steps');
    ParallelIsSerial(stage, ps, s0, g, states, steps);
    ParallelIsSerial(stage, ps, s0, g, states', steps');
    var a, b := Serial(Trace(g, states, steps)), Serial(Trace(g, states', steps'));
    SerialIsUnique(ps, s0, a, b, 0);
  }

  /**
    Running the graph and waiting for it ends in the same state as the serial execution: any
    schedule that runs the systems one after the other, in sorted order, until all have returned.
   */
  lemma ParallelMatchesSerial<L(!new), V(!new)>(stage: seq<System>, ps: seq<Program<L, V>>, s0: State<L, V>, g: Graph,
                                                states: seq<Pool>, steps: seq<Step>, serial: seq<nat>)
    requires Staged(stage, ps, g) && |s0.locals| == |ps|
    requires Run(g, states, steps) && BodiesReturn(ps, s0, g, states, steps)
    requires |states[|steps|].jobs| == |g| + 1 && states[|steps|].jobs[|g|].left <= 0
    requires Within(ps, s0, serial) && Nondecreasing(serial) && Finished(ps, Exec(ps, s0, serial))
    ensures Reached(ps, s0, g, states, steps) == Exec(ps, s0, serial)
  {
    hide AllHonest, Run, BodiesReturn, Finished, Reached;
    TraceFollowsEdges(g, states, steps);
    WaitFinishes(ps, s0, g, states, steps);
    ParallelIsSerial(stage, ps, s0, g, states, steps);
    SerialIsUnique(ps, s0, Serial(Trace(g, states, steps)), serial, 0);
  }

  // ---------------------------------------------------------------- a stage does not deadlock

  /** The positions in a sorted stage witness that its graph has no cycle. */
  lemma StageIsAcyclic<L(!new), V(!new)>(stage: seq<System>, ps: seq<Program<L, V>>, g: Graph)
    requires Staged(stage, ps, g)
    ensures Acyclic(g, seq(|g|, i => i))
  {
    hide Honest;
    forall p, k | 0 <= p < |g| && 0 <= k < |g[p]| && g[p][k] < |g| ensures p < g[p][k] {
      assert g[p][k] in multiset(g[p]);
      EdgesGoForward(stage, p, g[p][k]);
    }
  }

  /** In every run of a stage, while some job is not done, some proper step is possible. */
  lemma StageProgresses<L(!new), V(!new)>(stage: seq<System>, ps: seq<Program<L, V>>, g: Graph, states: seq<Pool>,
                                          steps: seq<Step>)
    returns (step: Step)
    requires Staged(stage, ps, g) && Run(g, states, steps)
    requires exists j :: 0 <= j < |states[|steps|].jobs| && !states[|steps|].jobs[j].status.Done?
    ensures Proper(step) && Enabled(states[|steps|], step)
  {
    hide AllHonest, Acyclic, Inv, Enabled, After;
    StageIsAcyclic(stage, ps, g);
    RunKeeps(g, states, steps, |steps|);
    step := Progress(g, seq(|g|, i => i), states[|steps|]);
  }

  /** A run of a stage stops only when it is complete: then `wait` on the root has returned. */
  lemma StuckIsFinished<L(!new), V(!new)>(stage: seq<System>, ps: seq<Program<L, V>>, g: Graph, states: seq<Pool>,
                                          steps: seq<Step>)
    requires Staged(stage, ps, g) && Run(g, states, steps)
    requires forall step :: Proper(step) ==> !Enabled(states[|steps|], step)
    ensures |states[|steps|].jobs| == |g| + 1 && states[|steps|].jobs[|g|].left <= 0
    ensures forall j :: 0 <= j <= |g| ==> states[|steps|].jobs[j].status.Done?
  {
    hide AllHonest, Inv, Enabled, After, Proper;
    RunKeeps(g, states, steps, |steps|);
    if exists j :: 0 <= j < |states[|steps|].jobs| && !states[|steps|].jobs[j].status.Done? {
      var _ := StageProgresses(stage, ps, g, states, steps);
    }
    CountersAreNatural(g, states[|steps|], |g|);
  }
}
