/**
  `map_reduce` with its jobs on the pool (src/job_system.rs): the mapping jobs finish in any order,
  and of a reduction that has been split any part may take the next step. The runs of this machine
  include whatever the workers of a pool do; none of them depends on the order.
 */
module Reductions {
  import opened Wrappers
  import opened MapReduce

  /**
    A call of `reduce_recursive` on the cells `[lo, hi)`: not yet begun, in its loop with the cells
    from `k` on still to come, split in two, returned, or dead because a result was not there.
   */
  datatype Task<R> =
    | Todo(lo: nat, hi: nat, depth: nat)
    | Loop(k: nat, hi: nat, acc: R)
    | Both(left: Task<R>, right: Task<R>)
    | Value(r: R)
    | Dead

  datatype Problem<!T, !R> = Problem(data: seq<T>, init: () -> R, map_: T -> R, reduce: (R, R) -> R, depth: nat)

  /** Before the reduction, `wait` on the mapping jobs has not returned. */
  datatype State<R> = State(cells: seq<JobResult<R>>, task: Option<Task<R>>)

  /** A mapping job finishes, the reduction begins, or the part of it at `path` (`true` is left) takes a step. */
  datatype Move = Finish(k: nat) | Begin | At(path: seq<bool>)

  function Start<T, R>(p: Problem<T, R>): State<R> {
    State(seq(|p.data|, _ => Pending), None)
  }

  /** Whether the call, or what it has been split into, can take a step at `path`. */
  predicate CanStep<R>(t: Task<R>, path: seq<bool>)
    decreases path
  {
    match t
    case Todo(lo, hi, _) => path == [] && lo <= hi
    case Loop(k, hi, _) => path == [] && k <= hi
    case Both(l, r) => if path == [] then l.Value? && r.Value? else CanStep(if path[0] then l else r, path[1..])
    case _ => false
  }

  /** `take().unwrap()` of the cell `k`, and what is done with the result. */
  function TakeThen<R>(cells: seq<JobResult<R>>, k: nat, next: R -> Task<R>): (seq<JobResult<R>>, Task<R>) {
    if k < |cells| && cells[k].Done? then (cells[k := Pending], next(cells[k].value)) else (cells, Dead)
  }

  function Stepped<T, R>(p: Problem<T, R>, cells: seq<JobResult<R>>, t: Task<R>,
                         path: seq<bool>): (seq<JobResult<R>>, Task<R>)
    requires CanStep(t, path)
    decreases path
  {
    match t
    case Todo(lo, hi, depth) =>
      if lo == hi then (cells, Value(p.init()))
      else if hi - lo == 1 then TakeThen(cells, lo, r => Value(r))
      else if depth > 0 then
        var mid := Mid(lo, hi);
        (cells, Both(Todo(lo, mid, depth - 1), Todo(mid, hi, depth - 1)))
      else TakeThen(cells, lo, r => Loop(lo + 1, hi, r))
    case Loop(k, hi, acc) =>
      if k == hi then (cells, Value(acc)) else TakeThen(cells, k, r => Loop(k + 1, hi, p.reduce(acc, r)))
    case Both(l, r) =>
      if path == [] then (cells, Value(p.reduce(l.r, r.r)))
      else if path[0] then
        var (after, next) := Stepped(p, cells, l, path[1..]);
        (after, Both(next, r))
      else
        var (after, next) := Stepped(p, cells, r, path[1..]);
        (after, Both(l, next))
  }

  predicate Enabled<R>(s: State<R>, move: Move) {
    match move
    case Finish(k) => s.task.None? && k < |s.cells| && s.cells[k].Pending?
    case Begin => s.task.None? && forall k :: 0 <= k < |s.cells| ==> s.cells[k].Done?
    case At(path) => s.task.Some? && CanStep(s.task.value, path)
  }

  function After<T, R>(p: Problem<T, R>, s: State<R>, move: Move): State<R>
    requires |s.cells| == |p.data| && Enabled(s, move)
  {
    match move
    case Finish(k) => State(s.cells[k := Done(p.map_(p.data[k]))], None)
    case Begin => State(s.cells, Some(Todo(0, |s.cells|, p.depth)))
    case At(path) =>
      var (cells, task) := Stepped(p, s.cells, s.task.value, path);
      State(cells, Some(task))
  }

  // ---------------------------------------------------------------- what a part owns, and what it will return

  /** What the cells from `lo` to `hi` reduce to. */
  ghost function Reduced<T, R>(p: Problem<T, R>, lo: nat, hi: nat): R
    requires lo <= hi <= |p.data|
  {
    if lo == hi then p.init() else Fold(p.reduce, Mapped(p.map_, p.data)[lo..hi])
  }

  ghost predicate Full<T, R>(p: Problem<T, R>, cells: seq<JobResult<R>>, lo: nat, hi: nat) {
    |cells| == |p.data| && hi <= |cells| && forall k :: lo <= k < hi ==> cells[k] == Done(p.map_(p.data[k]))
  }

  ghost predicate Empty<R>(cells: seq<JobResult<R>>, lo: nat, hi: nat) {
    hi <= |cells| && forall k :: lo <= k < hi ==> cells[k] == Pending
  }

  /**
    The call on `[lo, hi)` owns these cells: the results it has yet to take are there, those it has
    taken are not, and it is on the way to their reduction.
   */
  ghost predicate Owns<T, R>(p: Problem<T, R>, cells: seq<JobResult<R>>, t: Task<R>, lo: nat, hi: nat)
    decreases t
  {
    && lo <= hi <= |p.data|
    && match t
       case Todo(a, b, _) => a == lo && b == hi && Full(p, cells, lo, hi)
       case Loop(k, b, acc) =>
         b == hi && lo < k <= hi && Empty(cells, lo, k) && Full(p, cells, k, hi) && acc == Reduced(p, lo, k)
       case Both(l, r) =>
         var mid := Mid(lo, hi);
         lo < mid < hi && Owns(p, cells, l, lo, mid) && Owns(p, cells, r, mid, hi)
       case Value(r) => |cells| == |p.data| && Empty(cells, lo, hi) && r == Reduced(p, lo, hi)
       case Dead => false
  }

  /** Nothing outside `[lo, hi)` changes. */
  ghost predicate Within<R>(before: seq<JobResult<R>>, after: seq<JobResult<R>>, lo: nat, hi: nat) {
    |after| == |before| && forall k :: 0 <= k < |before| && !(lo <= k < hi) ==> after[k] == before[k]
  }

  /** The two halves do not disturb each other. */
  lemma {:induction false} OwnsApart<T, R>(p: Problem<T, R>, before: seq<JobResult<R>>, after: seq<JobResult<R>>,
                                           t: Task<R>, lo: nat, hi: nat, a: nat, b: nat)
    requires Owns(p, before, t, lo, hi) && Within(before, after, a, b) && (hi <= a || b <= lo)
    ensures Owns(p, after, t, lo, hi)
    decreases t
  {
    if t.Both? {
      var mid := Mid(lo, hi);
      OwnsApart(p, before, after, t.left, lo, mid, a, b);
      OwnsApart(p, before, after, t.right, mid, hi, a, b);
    }
  }

  lemma OneMore<T, R>(p: Problem<T, R>, lo: nat, k: nat)
    requires lo <= k < |p.data|
    ensures Reduced(p, lo, k + 1) == if lo == k then p.map_(p.data[k])
                                     else p.reduce(Reduced(p, lo, k), p.map_(p.data[k]))
  {
    var xs := Mapped(p.map_, p.data);
    assert xs[lo..k + 1][..k - lo] == xs[lo..k] && xs[lo..k + 1][k - lo] == p.map_(p.data[k]);
  }

  lemma Halves<T, R(!new)>(p: Problem<T, R>, lo: nat, mid: nat, hi: nat)
    requires Associative(p.reduce) && lo < mid < hi <= |p.data|
    ensures Reduced(p, lo, hi) == p.reduce(Reduced(p, lo, mid), Reduced(p, mid, hi))
  {
    var xs := Mapped(p.map_, p.data);
    FoldSplits(p.reduce, xs[lo..mid], xs[mid..hi]);
    assert xs[lo..mid] + xs[mid..hi] == xs[lo..hi];
  }

  lemma TodoOwns<T, R(!new)>(p: Problem<T, R>, cells: seq<JobResult<R>>, t: Task<R>, lo: nat, hi: nat)
    requires t.Todo? && Owns(p, cells, t, lo, hi)
    ensures var (after, next) := Stepped(p, cells, t, []);
            Owns(p, after, next, lo, hi) && Within(cells, after, lo, hi)
  {
    if lo < hi { OneMore(p, lo, lo); }
    hide Reduced, Mid;
  }

  lemma LoopOwns<T, R(!new)>(p: Problem<T, R>, cells: seq<JobResult<R>>, t: Task<R>, lo: nat, hi: nat)
    requires t.Loop? && Owns(p, cells, t, lo, hi)
    ensures var (after, next) := Stepped(p, cells, t, []);
            Owns(p, after, next, lo, hi) && Within(cells, after, lo, hi)
  {
    if t.k < hi { OneMore(p, lo, t.k); }
    hide Reduced, Mid;
  }

  lemma JoinOwns<T, R(!new)>(p: Problem<T, R>, cells: seq<JobResult<R>>, t: Task<R>, lo: nat, hi: nat)
    requires Associative(p.reduce) && Owns(p, cells, t, lo, hi) && t.Both? && CanStep(t, [])
    ensures var (after, next) := Stepped(p, cells, t, []);
            Owns(p, after, next, lo, hi) && Within(cells, after, lo, hi)
  {
    hide Mid;
    Halves(p, lo, Mid(lo, hi), hi);
    hide Reduced, Full, Associative;
  }

  /** A step of any part finds the result it takes, disturbs nobody, and stays on the way to the reduction. */
  lemma {:induction false} SteppedOwns<T, R(!new)>(p: Problem<T, R>, cells: seq<JobResult<R>>, t: Task<R>,
                                                   path: seq<bool>, lo: nat, hi: nat)
    requires Associative(p.reduce) && Owns(p, cells, t, lo, hi) && CanStep(t, path)
    ensures var (after, next) := Stepped(p, cells, t, path);
            Owns(p, after, next, lo, hi) && Within(cells, after, lo, hi)
    decreases path
  {
    hide Reduced, Full, Empty, Associative, Mid;
    match t
    case Todo(_, _, _) => TodoOwns(p, cells, t, lo, hi);
    case Loop(_, _, _) => LoopOwns(p, cells, t, lo, hi);
    case Both(l, r) =>
      var mid := Mid(lo, hi);
      if path == [] {
        JoinOwns(p, cells, t, lo, hi);
      } else {
        var after := Stepped(p, cells, t, path).0;
        if path[0] {
          SteppedOwns(p, cells, l, path[1..], lo, mid);
          OwnsApart(p, cells, after, r, mid, hi, lo, mid);
        } else {
          SteppedOwns(p, cells, r, path[1..], mid, hi);
          OwnsApart(p, cells, after, l, lo, mid, mid, hi);
        }
      }
    case _ =>
  }

  // ---------------------------------------------------------------- every state of every run

  ghost predicate Inv<T, R>(p: Problem<T, R>, s: State<R>) {
    && |s.cells| == |p.data|
    && match s.task
       case None => forall k :: 0 <= k < |s.cells| && s.cells[k] != Pending ==> s.cells[k] == Done(p.map_(p.data[k]))
       case Some(t) => Owns(p, s.cells, t, 0, |p.data|)
  }

  lemma StepKeeps<T, R(!new)>(p: Problem<T, R>, s: State<R>, move: Move)
    requires Associative(p.reduce) && Inv(p, s) && Enabled(s, move)
    ensures Inv(p, After(p, s, move))
  {
    if move.At? { SteppedOwns(p, s.cells, s.task.value, move.path, 0, |p.data|); }
  }

  /** `moves` lead from `s` to `t`. */
  ghost predicate Leads<T, R>(p: Problem<T, R>, s: State<R>, moves: seq<Move>, t: State<R>)
    requires |s.cells| == |p.data|
    decreases |moves|
  {
    if moves == [] then s == t
    else Enabled(s, moves[0]) && |After(p, s, moves[0]).cells| == |p.data|
         && Leads(p, After(p, s, moves[0]), moves[1..], t)
  }

  lemma {:induction false} RunKeeps<T, R(!new)>(p: Problem<T, R>, s: State<R>, moves: seq<Move>, t: State<R>)
    requires Associative(p.reduce) && Inv(p, s) && Leads(p, s, moves, t)
    ensures Inv(p, t)
    decreases |moves|
  {
    if moves != [] {
      StepKeeps(p, s, moves[0]);
      RunKeeps(p, After(p, s, moves[0]), moves[1..], t);
    }
  }

  /** Some part of the reduction has failed to find a result. */
  predicate Fails<R>(t: Task<R>) {
    t.Dead? || (t.Both? && (Fails(t.left) || Fails(t.right)))
  }

  lemma {:induction false} OwnersLive<T, R>(p: Problem<T, R>, cells: seq<JobResult<R>>, t: Task<R>, lo: nat, hi: nat)
    requires Owns(p, cells, t, lo, hi)
    ensures !Fails(t)
    decreases t
  {
    if t.Both? {
      var mid := Mid(lo, hi);
      OwnersLive(p, cells, t.left, lo, mid);
      OwnersLive(p, cells, t.right, mid, hi);
    }
  }

  /**
    In no order of the mapping jobs and of the parts of the reduction does an `unwrap` fail, and
    every order that comes to an end has taken every result and returns the left fold of the mapped
    input, in input order.
   */
  lemma AnyOrder<T, R(!new)>(p: Problem<T, R>, moves: seq<Move>, t: State<R>)
    requires Associative(p.reduce) && Leads(p, Start(p), moves, t)
    ensures t.task.Some? ==> !Fails(t.task.value)
    ensures t.task.Some? && t.task.value.Value? ==>
              && t.task.value.r == (if p.data == [] then p.init() else Fold(p.reduce, Mapped(p.map_, p.data)))
              && Empty(t.cells, 0, |p.data|)
  {
    RunKeeps(p, Start(p), moves, t);
    var xs := Mapped(p.map_, p.data);
    assert xs[0..|p.data|] == xs;
    if t.task.Some? { OwnersLive(p, t.cells, t.task.value, 0, |p.data|); }
  }

  // ---------------------------------------------------------------- every run comes to an end

  /** The steps that a call has yet to take. */
  ghost function Left<R>(t: Task<R>): nat
    decreases t
  {
    match t
    case Todo(lo, hi, depth) => Cost(if lo <= hi then hi - lo else 0, depth)
    case Loop(k, hi, _) => if k <= hi then hi - k + 1 else 0
    case Both(l, r) => 1 + Left(l) + Left(r)
    case _ => 0
  }

  /** The steps of a call on `n` cells. */
  ghost function Cost(n: nat, depth: nat): nat
    decreases depth
  {
    if n <= 1 then 1
    else if depth > 0 then 2 + Cost(n / 2, depth - 1) + Cost(n - n / 2, depth - 1)
    else n + 1
  }

  lemma {:induction false} SteppedOnce<T, R(!new)>(p: Problem<T, R>, cells: seq<JobResult<R>>, t: Task<R>,
                                                   path: seq<bool>, lo: nat, hi: nat)
    requires Owns(p, cells, t, lo, hi) && CanStep(t, path)
    ensures Left(Stepped(p, cells, t, path).1) + 1 == Left(t)
    decreases path
  {
    if t.Both? && path != [] {
      var mid := Mid(lo, hi);
      if path[0] {
        SteppedOnce(p, cells, t.left, path[1..], lo, mid);
      } else {
        SteppedOnce(p, cells, t.right, path[1..], mid, hi);
      }
    }
  }

  /** A call that has not returned can take a step. */
  lemma {:induction false} SomePart<T, R>(p: Problem<T, R>, cells: seq<JobResult<R>>, t: Task<R>, lo: nat, hi: nat)
    returns (path: seq<bool>)
    requires Owns(p, cells, t, lo, hi) && !t.Value?
    ensures CanStep(t, path)
    decreases t
  {
    path := [];
    if t.Both? {
      var mid := Mid(lo, hi);
      if !t.left.Value? {
        var rest := SomePart(p, cells, t.left, lo, mid);
        path := [true] + rest;
        assert path[1..] == rest;
      } else if !t.right.Value? {
        var rest := SomePart(p, cells, t.right, mid, hi);
        path := [false] + rest;
        assert path[1..] == rest;
      }
    }
  }

  /** The mapping jobs that have not finished. */
  ghost function Unmapped<R>(cells: seq<JobResult<R>>): nat {
    if cells == [] then 0 else Unmapped(cells[..|cells| - 1]) + (if cells[|cells| - 1].Pending? then 1 else 0)
  }

  lemma {:induction false} MappedOne<R>(cells: seq<JobResult<R>>, k: nat, v: R)
    requires k < |cells| && cells[k].Pending?
    ensures Unmapped(cells[k := Done(v)]) + 1 == Unmapped(cells)
    decreases |cells|
  {
    var n := |cells| - 1;
    if k < n {
      MappedOne(cells[..n], k, v);
      assert cells[k := Done(v)][..n] == cells[..n][k := Done(v)];
    } else {
      assert cells[k := Done(v)][..n] == cells[..n];
    }
  }

  lemma {:induction false} AllMapped<R>(cells: seq<JobResult<R>>)
    ensures Unmapped(cells) == 0 <==> forall k :: 0 <= k < |cells| ==> !cells[k].Pending?
    decreases |cells|
  {
    if cells != [] { AllMapped(cells[..|cells| - 1]); }
  }

  lemma {:induction false} NoneMapped<R>(cells: seq<JobResult<R>>)
    requires forall k :: 0 <= k < |cells| ==> cells[k].Pending?
    ensures Unmapped(cells) == |cells|
    decreases |cells|
  {
    if cells != [] { NoneMapped(cells[..|cells| - 1]); }
  }

  /** The moves to come. */
  ghost function MovesLeft<T, R>(p: Problem<T, R>, s: State<R>): nat {
    match s.task
    case None => Unmapped(s.cells) + 1 + Cost(|p.data|, p.depth)
    case Some(t) => Left(t)
  }

  lemma MoveCounts<T, R(!new)>(p: Problem<T, R>, s: State<R>, move: Move)
    requires Inv(p, s) && Enabled(s, move)
    ensures MovesLeft(p, After(p, s, move)) + 1 == MovesLeft(p, s)
  {
    match move
    case Finish(k) => MappedOne(s.cells, k, p.map_(p.data[k]));
    case Begin => AllMapped(s.cells);
    case At(path) => SteppedOnce(p, s.cells, s.task.value, path, 0, |p.data|);
  }

  /** Until the reduction has returned some move is possible. */
  lemma Progress<T, R(!new)>(p: Problem<T, R>, s: State<R>) returns (move: Move)
    requires Inv(p, s) && (s.task.Some? ==> !s.task.value.Value?)
    ensures Enabled(s, move)
  {
    match s.task
    case None =>
      if k :| 0 <= k < |s.cells| && s.cells[k].Pending? {
        move := Finish(k);
      } else {
        move := Begin;
      }
    case Some(t) =>
      var path := SomePart(p, s.cells, t, 0, |p.data|);
      move := At(path);
  }

  lemma {:induction false} MovesCount<T, R(!new)>(p: Problem<T, R>, s: State<R>, moves: seq<Move>, t: State<R>)
    requires Associative(p.reduce) && Inv(p, s) && Leads(p, s, moves, t)
    ensures MovesLeft(p, t) + |moves| == MovesLeft(p, s)
    decreases |moves|
  {
    if moves != [] {
      StepKeeps(p, s, moves[0]);
      MoveCounts(p, s, moves[0]);
      MovesCount(p, After(p, s, moves[0]), moves[1..], t);
    }
  }

  /** Every run that cannot go on has returned, after the same number of moves whatever the order. */
  lemma EveryRunEnds<T, R(!new)>(p: Problem<T, R>, moves: seq<Move>, t: State<R>)
    requires Associative(p.reduce) && Leads(p, Start(p), moves, t)
    ensures |moves| <= |p.data| + 1 + Cost(|p.data|, p.depth)
    ensures t.task.Some? && t.task.value.Value? <==> |moves| == |p.data| + 1 + Cost(|p.data|, p.depth)
    ensures t.task.Some? && t.task.value.Value? <==> forall move :: !Enabled(t, move)
  {
    RunKeeps(p, Start(p), moves, t);
    MovesCount(p, Start(p), moves, t);
    NoneMapped(Start(p).cells);
    if !(t.task.Some? && t.task.value.Value?) {
      var move := Progress(p, t);
      MoveCounts(p, t, move);
    }
  }
}
