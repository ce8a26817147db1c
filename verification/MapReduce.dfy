/** `map_reduce` on the pool (src/job_system.rs): the results sit in cells, and are taken out as they are reduced. */
module MapReduce {

  datatype JobResult<R> = Done(value: R) | Panicked | Pending

  ghost predicate Associative<R(!new)>(f: (R, R) -> R) {
    forall a, b, c :: f(f(a, b), c) == f(a, f(b, c))
  }

  lemma SumIsAssociative()
    ensures Associative((a: int, b: int) => a + b)
  {
  }

  /** The sequential reduction, from the left. */
  ghost function Fold<R>(f: (R, R) -> R, xs: seq<R>): R
    requires xs != []
  {
    if |xs| == 1 then xs[0] else f(Fold(f, xs[..|xs| - 1]), xs[|xs| - 1])
  }

  /** One value is its own reduction, and each further one is reduced into what there is. */
  lemma FoldMeans<R>(f: (R, R) -> R, xs: seq<R>, x: R)
    ensures Fold(f, [x]) == x
    ensures xs != [] ==> Fold(f, xs + [x]) == f(Fold(f, xs), x)
  {
    assert (xs + [x])[..|xs|] == xs;
  }

  /** An associative reduction can be split anywhere. */
  lemma {:induction false} FoldSplits<R(!new)>(f: (R, R) -> R, xs: seq<R>, ys: seq<R>)
    requires Associative(f) && xs != [] && ys != []
    ensures Fold(f, xs + ys) == f(Fold(f, xs), Fold(f, ys))
    decreases |ys|
  {
    var n := |ys| - 1;
    assert (xs + ys)[..|xs| + n] == xs + ys[..n];
    if n > 0 {
      FoldSplits(f, xs, ys[..n]);
    } else {
      assert xs + ys[..n] == xs;
    }
  }

  /** The values of cells that are all done. */
  ghost function Values<R>(cells: seq<JobResult<R>>): (r: seq<R>)
    requires forall k :: 0 <= k < |cells| ==> cells[k].Done?
    ensures |r| == |cells|
  {
    seq(|cells|, k requires 0 <= k < |cells| => cells[k].value)
  }

  /** `take().unwrap()`: panics unless the result is there, and leaves the cell empty. */
  method Take<R>(cells: array<JobResult<R>>, k: nat) returns (r: R)
    requires k < cells.Length && cells[k].Done?
    modifies cells
    ensures r == old(cells[k].value) && cells[..] == old(cells[..])[k := Pending]
  {
    r := cells[k].value;
    cells[k] := Pending;
  }

  /** Every cell in `[lo, hi)` is taken, and no other cell changes. */
  ghost predicate Taken<R>(before: seq<JobResult<R>>, after: seq<JobResult<R>>, lo: nat, hi: nat) {
    && |before| == |after|
    && (forall k :: lo <= k < hi && k < |after| ==> after[k] == Pending)
    && forall k :: 0 <= k < |after| && !(lo <= k < hi) ==> after[k] == before[k]
  }

  /** Where a range is split. */
  function Mid(lo: nat, hi: nat): (mid: nat)
    requires lo <= hi
    ensures lo <= mid <= hi && (lo + 2 <= hi ==> lo < mid < hi)
  {
    lo + (hi - lo) / 2
  }

  /**
    Reduces the cells in `[lo, hi)`. Down to `maxDepth` levels the range is split in two halves
    that are reduced in parallel; here the right one goes first, in `Reductions` they interleave.
   */
  method ReduceRecursive<R(!new)>(cells: array<JobResult<R>>, lo: nat, hi: nat, init: () -> R, reduce: (R, R) -> R,
                                  maxDepth: nat)
    returns (r: R)
    requires lo <= hi <= cells.Length && Associative(reduce)
    requires forall k :: lo <= k < hi ==> cells[k].Done?
    modifies cells
    ensures Taken(old(cells[..]), cells[..], lo, hi)
    ensures r == if lo == hi then init() else Fold(reduce, Values(old(cells[lo..hi])))
    decreases maxDepth
  {
    if lo == hi {
      r := init();
    } else if hi - lo == 1 {
      r := Take(cells, lo);
    } else if maxDepth > 0 {
      var mid := Mid(lo, hi);
      ghost var left, right := Values(cells[lo..mid]), Values(cells[mid..hi]);
      assert Values(cells[lo..hi]) == left + right;
      var rhs := ReduceRecursive(cells, mid, hi, init, reduce, maxDepth - 1);
      assert cells[lo..mid] == old(cells[lo..mid]);
      var lhs := ReduceRecursive(cells, lo, mid, init, reduce, maxDepth - 1);
      FoldSplits(reduce, left, right);
      r := reduce(lhs, rhs);
    } else {
      r := ReduceLoop(cells, lo, hi, reduce);
    }
  }

  /** The sequential case: the first result, and then one after the other. */
  method ReduceLoop<R(!new)>(cells: array<JobResult<R>>, lo: nat, hi: nat, reduce: (R, R) -> R) returns (result: R)
    requires lo < hi <= cells.Length && forall k :: lo <= k < hi ==> cells[k].Done?
    modifies cells
    ensures Taken(old(cells[..]), cells[..], lo, hi)
    ensures result == Fold(reduce, Values(old(cells[lo..hi])))
  {
    ghost var values := Values(cells[lo..hi]);
    result := Take(cells, lo);
    for k := lo + 1 to hi
      invariant Taken(old(cells[..]), cells[..], lo, k)
      invariant result == Fold(reduce, values[..k - lo])
    {
      var res := Take(cells, k);
      assert values[k - lo] == res;
      assert values[..k + 1 - lo][..k - lo] == values[..k - lo];
      result := reduce(result, res);
    }
    assert values[..hi - lo] == values;
  }

  /** `ilog2` of a number of threads. */
  function Ilog2(n: nat): nat
    requires n > 0
  {
    if n == 1 then 0 else 1 + Ilog2(n / 2)
  }

  function Mapped<T, R>(f: T -> R, data: seq<T>): (r: seq<R>)
    ensures |r| == |data| && forall k :: 0 <= k < |data| ==> r[k] == f(data[k])
  {
    seq(|data|, k requires 0 <= k < |data| => f(data[k]))
  }

  /**
    One job per element fills its cell, and the cells are reduced. The result is the left fold of
    the mapped elements in input order, for every number of threads; `init` is for no elements.
   */
  method Run<T, R(!new)>(data: seq<T>, init: () -> R, map_: T -> R, reduce: (R, R) -> R, parallelism: nat)
    returns (r: R)
    requires Associative(reduce) && parallelism > 0
    ensures r == if data == [] then init() else Fold(reduce, Mapped(map_, data))
  {
    var jobs := new JobResult<R>[|data|](_ => Pending);
    for k := 0 to |data|
      invariant forall i :: 0 <= i < k ==> jobs[i] == Done(map_(data[i]))
    {
      jobs[k] := Done(map_(data[k]));
    }
    ghost var cells := jobs[0..|data|];
    assert Values(cells) == Mapped(map_, data);
    r := ReduceRecursive(jobs, 0, |data|, init, reduce, Ilog2(parallelism));
  }
}
