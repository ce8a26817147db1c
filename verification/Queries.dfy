/**
  Queries (src/query.rs): iteration, fetching, counting and batching.

  A query is a list of fragments. Its iterator zips the iterators of the fragments, table by
  table over the live archetypes; `fetch` goes through the index instead.
 */
module Queries {
  import opened Wrappers
  import opened TypeIds
  import opened Seqs
  import opened EntityIds
  import opened EntityIndexes
  import opened Tables
  import opened Stores
  import opened Filings

  /** `&T`, `Option<&T>`, `EntityId` and `Has<T>`. */
  datatype Fragment = Ref(t: TypeId) | Opt(t: TypeId) | Id | Has(t: TypeId)

  datatype Item = Component(v: Value) | Maybe(o: Option<Value>) | Entity(id: EntityId) | Flag(b: bool)

  /** A query tuple, and the filter as a condition on the columns of a table. */
  datatype Query = Query(parts: seq<Fragment>, filter: set<TypeId> -> bool)

  /** What a query yields for one entity. */
  type Row = seq<Item>

  // ---------------------------------------------------------------- one fragment on one table

  function FragmentIter(f: Fragment, s: TableState): seq<Item> {
    match f
    case Ref(t) => if t in s.cols then seq(|s.cols[t]|, i requires 0 <= i < |s.cols[t]| => Component(s.cols[t][i]))
                   else []
    case Opt(t) =>
      if t in s.cols then seq(|s.cols[t]|, i requires 0 <= i < |s.cols[t]| => Maybe(Some(s.cols[t][i])))
      else seq(|s.entities|, _ => Maybe(None))
    case Id => seq(|s.entities|, i requires 0 <= i < |s.entities| => Entity(s.entities[i]))
    case Has(t) => seq(|s.entities|, _ => Flag(t in s.cols))
  }

  /** `iter_range`. */
  function FragmentRange(f: Fragment, s: TableState, lo: nat, hi: nat): seq<Item>
    requires s.Full() && lo <= hi <= |s.entities|
  {
    match f
    case Ref(t) => if t in s.cols then seq(hi - lo, i requires 0 <= i < hi - lo => Component(s.cols[t][lo..hi][i]))
                   else []
    case Opt(t) =>
      if t in s.cols then seq(hi - lo, i requires 0 <= i < hi - lo => Maybe(Some(s.cols[t][lo..hi][i])))
      else seq(hi - lo, _ => Maybe(None))
    case Id => seq(hi - lo, i requires 0 <= i < hi - lo => Entity(s.entities[lo..hi][i]))
    case Has(t) => seq(hi - lo, _ => Flag(t in s.cols))
  }

  function GetComponent(s: TableState, t: TypeId, row: nat): Option<Value> {
    if t in s.cols && row < |s.cols[t]| then Some(s.cols[t][row]) else None
  }

  function FragmentFetch(f: Fragment, s: TableState, row: nat): Option<Item> {
    match f
    case Ref(t) => (match GetComponent(s, t, row) case Some(v) => Some(Component(v)) case None => None)
    case Opt(t) => Some(Maybe(GetComponent(s, t, row)))
    case Id => if row < |s.entities| then Some(Entity(s.entities[row])) else None
    case Has(t) => Some(Flag(t in s.cols))
  }

  predicate FragmentContains(f: Fragment, s: TableState) {
    f.Ref? ==> f.t in s.cols
  }

  // ---------------------------------------------------------------- the tuple iterator

  /** Zips its inner iterators, given by what they have left. */
  class TupleIterator {
    var inner: seq<seq<Item>>

    constructor (inner: seq<seq<Item>>)
      ensures this.inner == inner
    {
      this.inner := inner;
    }

    /** Takes one item from each inner iterator, and stops at the first that has none. */
    method Next() returns (r: Option<Row>)
      modifies this
      ensures (forall k :: 0 <= k < |old(inner)| ==> old(inner)[k] != []) ==>
                r == Some(Heads(old(inner))) && inner == Tails(old(inner))
      ensures r.Some? <==> forall k :: 0 <= k < |old(inner)| ==> old(inner)[k] != []
    {
      ghost var all := inner;
      var row: Row := [];
      for k := 0 to |inner|
        invariant |inner| == |all| && |row| == k
        invariant forall j :: 0 <= j < k ==> all[j] != [] && row[j] == all[j][0] && inner[j] == all[j][1..]
        invariant forall j :: k <= j < |all| ==> inner[j] == all[j]
      {
        if inner[k] == [] {
          return None;
        }
        row := row + [inner[k][0]];
        inner := inner[k := inner[k][1..]];
      }
      assert row == Heads(all) && inner == Tails(all);
      return Some(row);
    }
  }

  function Heads(its: seq<seq<Item>>): Row
    requires forall k :: 0 <= k < |its| ==> its[k] != []
  {
    seq(|its|, k requires 0 <= k < |its| => its[k][0])
  }

  function Tails(its: seq<seq<Item>>): seq<seq<Item>>
    requires forall k :: 0 <= k < |its| ==> its[k] != []
  {
    seq(|its|, k requires 0 <= k < |its| => its[k][1..])
  }

  /** Everything the iterator yields until it stops. */
  ghost function Yields(its: seq<seq<Item>>): seq<Row>
    requires its != []
    decreases |its[0]|
  {
    if exists k :: 0 <= k < |its| && its[k] == [] then [] else [Heads(its)] + Yields(Tails(its))
  }

  /** Iterators of one length are zipped without loss. */
  lemma {:induction false} YieldsAll(its: seq<seq<Item>>, n: nat)
    requires its != [] && forall k :: 0 <= k < |its| ==> |its[k]| == n
    ensures |Yields(its)| == n
    ensures forall r :: 0 <= r < n ==>
              |Yields(its)[r]| == |its| && forall k :: 0 <= k < |its| ==> Yields(its)[r][k] == its[k][r]
    decreases n
  {
    if n > 0 {
      YieldsAll(Tails(its), n - 1);
      assert !exists k :: 0 <= k < |its| && its[k] == [];
      assert Yields(its) == [Heads(its)] + Yields(Tails(its));
      forall r | 0 <= r < n
        ensures |Yields(its)[r]| == |its| && forall k :: 0 <= k < |its| ==> Yields(its)[r][k] == its[k][r]
      {
        if r > 0 {
          assert Yields(its)[r] == Yields(Tails(its))[r - 1];
          assert forall k :: 0 <= k < |its| ==> Tails(its)[k][r - 1] == its[k][r];
        }
      }
    } else {
      assert its[0] == [];
    }
  }

  // ---------------------------------------------------------------- a query on one table

  predicate Contains(q: Query, s: TableState) {
    forall k :: 0 <= k < |q.parts| ==> FragmentContains(q.parts[k], s)
  }

  function Iters(q: Query, s: TableState): (its: seq<seq<Item>>)
    ensures |its| == |q.parts|
  {
    seq(|q.parts|, k requires 0 <= k < |q.parts| => FragmentIter(q.parts[k], s))
  }

  ghost function TableIter(q: Query, s: TableState): seq<Row>
    requires q.parts != []
  {
    Yields(Iters(q, s))
  }

  /** The tuple's `fetch`: all fragments, or nothing. */
  function FetchRow(q: Query, s: TableState, row: nat): Option<Row> {
    if forall k :: 0 <= k < |q.parts| ==> FragmentFetch(q.parts[k], s, row).Some?
    then Some(seq(|q.parts|, k requires 0 <= k < |q.parts| && FragmentFetch(q.parts[k], s, row).Some?
                             => FragmentFetch(q.parts[k], s, row).value))
    else None
  }

  /** A table that has all the columns yields each of its rows once, as `fetch` sees it; another yields none. */
  lemma TableIterIsFetch(q: Query, s: TableState)
    requires q.parts != [] && s.Full()
    ensures Contains(q, s) ==> |TableIter(q, s)| == |s.entities|
    ensures !Contains(q, s) ==> TableIter(q, s) == []
    ensures forall row :: 0 <= row < |s.entities| ==>
              FetchRow(q, s, row) == if Contains(q, s) then Some(TableIter(q, s)[row]) else None
  {
    var its := Iters(q, s);
    if Contains(q, s) {
      YieldsAll(its, |s.entities|);
      forall row | 0 <= row < |s.entities| ensures FetchRow(q, s, row) == Some(TableIter(q, s)[row]) {
        forall k | 0 <= k < |q.parts| ensures FragmentFetch(q.parts[k], s, row) == Some(its[k][row]) {}
        assert FetchRow(q, s, row).value == TableIter(q, s)[row];
      }
    } else {
      var k :| 0 <= k < |q.parts| && !FragmentContains(q.parts[k], s);
      assert its[k] == [];
      forall row | 0 <= row < |s.entities| ensures FetchRow(q, s, row).None? {
        assert FragmentFetch(q.parts[k], s, row).None?;
      }
    }
  }

  // ---------------------------------------------------------------- ranges and batches

  function Ranges(q: Query, s: TableState, lo: nat, hi: nat): (its: seq<seq<Item>>)
    requires s.Full() && lo <= hi <= |s.entities|
    ensures |its| == |q.parts|
  {
    seq(|q.parts|, k requires 0 <= k < |q.parts| => FragmentRange(q.parts[k], s, lo, hi))
  }

  ghost function RangeIter(q: Query, s: TableState, lo: nat, hi: nat): seq<Row>
    requires q.parts != [] && s.Full() && lo <= hi <= |s.entities|
  {
    Yields(Ranges(q, s, lo, hi))
  }

  /** The range of a fragment is that range of its iteration. */
  lemma FragmentSlice(f: Fragment, s: TableState, lo: nat, hi: nat)
    requires s.Full() && lo <= hi <= |s.entities|
    ensures FragmentContains(f, s) ==>
              |FragmentIter(f, s)| == |s.entities| && FragmentRange(f, s, lo, hi) == FragmentIter(f, s)[lo..hi]
    ensures !FragmentContains(f, s) ==> FragmentRange(f, s, lo, hi) == []
  {
  }

  /** Iterating over a range of rows is that range of the iteration. */
  lemma RangeIsSlice(q: Query, s: TableState, lo: nat, hi: nat)
    requires q.parts != [] && s.Full() && lo <= hi <= |s.entities|
    ensures Contains(q, s) ==> |TableIter(q, s)| == |s.entities| && RangeIter(q, s, lo, hi) == TableIter(q, s)[lo..hi]
    ensures !Contains(q, s) ==> RangeIter(q, s, lo, hi) == []
  {
    hide FragmentIter, FragmentRange, FragmentContains, TableState.Full;
    var its := Ranges(q, s, lo, hi);
    forall k | 0 <= k < |q.parts|
      ensures FragmentContains(q.parts[k], s) ==>
                |Iters(q, s)[k]| == |s.entities| && its[k] == Iters(q, s)[k][lo..hi]
      ensures !FragmentContains(q.parts[k], s) ==> its[k] == []
    {
      FragmentSlice(q.parts[k], s, lo, hi);
    }
    if Contains(q, s) {
      YieldsAll(Iters(q, s), |s.entities|);
      YieldsAll(its, hi - lo);
      forall r | 0 <= r < hi - lo ensures RangeIter(q, s, lo, hi)[r] == TableIter(q, s)[lo + r] {
        forall k | 0 <= k < |q.parts| ensures its[k][r] == Iters(q, s)[k][lo + r] {}
      }
    } else {
      var k :| 0 <= k < |q.parts| && !FragmentContains(q.parts[k], s);
      assert its[k] == [];
    }
  }

  /** The row ranges that `par_for_each` spawns a job for. */
  function Batches(len: nat, size: nat): seq<(nat, nat)>
    requires size > 0
  {
    seq(len / size, i requires 0 <= i => (i * size, i * size + size)) + [(len - len % size, len)]
  }

  lemma BatchBounds(len: nat, size: nat, i: nat)
    requires size > 0 && i < |Batches(len, size)|
    ensures Batches(len, size)[i].0 <= Batches(len, size)[i].1 <= len
    ensures Batches(len, size)[i].0 == i * size
    ensures Batches(len, size)[i].1 == if i == len / size then len else (i + 1) * size
  {
    var n := len / size;
    assert len == n * size + len % size;
    if i < n {
      assert (i + 1) * size <= n * size;
    }
  }

  /** What the first `n` jobs cover. */
  ghost function Covered<T>(s: seq<T>, size: nat, n: nat): seq<seq<T>>
    requires size > 0 && n <= |Batches(|s|, size)|
  {
    seq(n, i requires 0 <= i < n =>
      BatchBounds(|s|, size, i);
      s[Batches(|s|, size)[i].0..Batches(|s|, size)[i].1])
  }

  lemma {:induction false} CoveredPrefix<T>(s: seq<T>, size: nat, n: nat)
    requires size > 0 && n <= |s| / size
    ensures n * size <= |s| && Flatten(Covered(s, size, n)) == s[..n * size]
    decreases n
  {
    assert n * size <= |s| / size * size;
    if n > 0 {
      CoveredPrefix(s, size, n - 1);
      BatchBounds(|s|, size, n - 1);
      var c := Covered(s, size, n);
      assert c[..n - 1] == Covered(s, size, n - 1);
      assert s[..n * size] == s[..(n - 1) * size] + s[(n - 1) * size..n * size];
    }
  }

  /** The batches partition the rows, in order, for every batch size. */
  lemma BatchesPartition<T>(s: seq<T>, size: nat)
    requires size > 0
    ensures Flatten(Covered(s, size, |Batches(|s|, size)|)) == s
  {
    var n := |s| / size;
    CoveredPrefix(s, size, n);
    BatchBounds(|s|, size, n);
    var c := Covered(s, size, n + 1);
    assert c[..n] == Covered(s, size, n);
    assert s == s[..n * size] + s[n * size..];
  }

  /** What the job for one batch of rows iterates over. */
  ghost function BatchIter(q: Query, s: TableState, size: nat, i: nat): seq<Row>
    requires q.parts != [] && s.Full() && size > 0 && i < |Batches(|s.entities|, size)|
  {
    BatchBounds(|s.entities|, size, i);
    RangeIter(q, s, Batches(|s.entities|, size)[i].0, Batches(|s.entities|, size)[i].1)
  }

  /** What the jobs for one table iterate over. */
  ghost function TableJobs(q: Query, s: TableState, size: nat): (jobs: seq<seq<Row>>)
    requires q.parts != [] && s.Full() && size > 0
    ensures |jobs| == |Batches(|s.entities|, size)|
  {
    seq(|Batches(|s.entities|, size)|, i requires 0 <= i < |Batches(|s.entities|, size)| => BatchIter(q, s, size, i))
  }

  /** All batches together see what one iteration over the table sees. */
  lemma BatchedIsSerial(q: Query, s: TableState, size: nat)
    requires q.parts != [] && s.Full() && size > 0
    ensures Flatten(TableJobs(q, s, size)) == TableIter(q, s)
  {
    var jobs := TableJobs(q, s, size);
    var n := |jobs|;
    TableIterIsFetch(q, s);
    var rows := TableIter(q, s);
    if Contains(q, s) {
      forall i | 0 <= i < n ensures jobs[i] == Covered(rows, size, n)[i] {
        BatchBounds(|s.entities|, size, i);
        RangeIsSlice(q, s, Batches(|s.entities|, size)[i].0, Batches(|s.entities|, size)[i].1);
      }
      assert jobs == Covered(rows, size, n);
      BatchesPartition(rows, size);
    } else {
      forall i | 0 <= i < n ensures jobs[i] == [] {
        BatchBounds(|s.entities|, size, i);
        RangeIsSlice(q, s, Batches(|s.entities|, size)[i].0, Batches(|s.entities|, size)[i].1);
      }
      FlattenNothing(jobs);
    }
  }

  lemma {:induction false} FlattenNothing<T>(ss: seq<seq<T>>)
    requires forall i :: 0 <= i < |ss| ==> ss[i] == []
    ensures Flatten(ss) == []
  {
    if ss != [] { FlattenNothing(ss[..|ss| - 1]); }
  }

  // ---------------------------------------------------------------- a query on a world

  ghost predicate Matches(q: Query, s: TableState) {
    q.filter(s.cols.Keys) && Contains(q, s)
  }

  /** `iter`: the tables are filtered, and one without the columns yields nothing by itself. */
  ghost function Iter<T>(q: Query, states: map<T, TableState>, live: seq<T>): seq<Row>
    requires q.parts != [] && forall k :: 0 <= k < |live| ==> live[k] in states
  {
    if live == [] then []
    else
      var n := |live| - 1;
      Iter(q, states, live[..n]) + (if q.filter(states[live[n]].cols.Keys) then TableIter(q, states[live[n]]) else [])
  }

  /** The jobs that `par_for_each` spawns for one table: none if it is empty or filtered out. */
  ghost function Spawned(q: Query, s: TableState, parallelism: nat): seq<seq<Row>>
    requires q.parts != [] && s.Full() && parallelism > 0
  {
    if s.entities != [] && q.filter(s.cols.Keys) then TableJobs(q, s, |s.entities| / parallelism + 1) else []
  }

  lemma SpawnedIsIter(q: Query, s: TableState, parallelism: nat)
    requires q.parts != [] && s.Full() && parallelism > 0
    ensures Flatten(Spawned(q, s, parallelism)) == if q.filter(s.cols.Keys) then TableIter(q, s) else []
  {
    hide TableJobs, TableIter, Contains;
    if s.entities != [] && q.filter(s.cols.Keys) {
      BatchedIsSerial(q, s, |s.entities| / parallelism + 1);
    } else {
      TableIterIsFetch(q, s);
    }
  }

  /** The jobs of `par_for_each`, in the order in which they are spawned. */
  ghost function ParallelJobs<T>(q: Query, states: map<T, TableState>, live: seq<T>, parallelism: nat): seq<seq<Row>>
    requires q.parts != [] && parallelism > 0
             && forall k :: 0 <= k < |live| ==> live[k] in states && states[live[k]].Full()
  {
    if live == [] then []
    else
      var n := |live| - 1;
      ParallelJobs(q, states, live[..n], parallelism) + Spawned(q, states[live[n]], parallelism)
  }

  lemma {:induction false} FlattenAppends<T>(a: seq<seq<T>>, b: seq<seq<T>>)
    ensures Flatten(a + b) == Flatten(a) + Flatten(b)
    decreases |b|
  {
    var all := a + b;
    if b == [] {
      assert all == a;
    } else {
      var n := |b| - 1;
      FlattenAppends(a, b[..n]);
      assert all[..|all| - 1] == a + b[..n];
    }
  }

  lemma {:induction false} SpawnedInOrder<T>(q: Query, states: map<T, TableState>, live: seq<T>, parallelism: nat)
    requires q.parts != [] && parallelism > 0
             && forall k :: 0 <= k < |live| ==> live[k] in states && states[live[k]].Full()
    ensures Flatten(ParallelJobs(q, states, live, parallelism)) == Iter(q, states, live)
    decreases |live|
  {
    hide TableState.Full, Spawned, TableIter;
    if live != [] {
      var n := |live| - 1;
      SpawnedInOrder(q, states, live[..n], parallelism);
      FlattenAppends(ParallelJobs(q, states, live[..n], parallelism), Spawned(q, states[live[n]], parallelism));
      SpawnedIsIter(q, states[live[n]], parallelism);
    }
  }

  lemma {:induction false} FlattenWithout<T>(ss: seq<seq<T>>, i: nat)
    requires i < |ss|
    ensures multiset(Flatten(ss)) == multiset(Flatten(RemoveAt(ss, i))) + multiset(ss[i])
    decreases |ss|
  {
    var n := |ss| - 1;
    if i == n {
      assert RemoveAt(ss, i) == ss[..n];
    } else {
      FlattenWithout(ss[..n], i);
      var rest := RemoveAt(ss, i);
      assert rest[..n - 1] == RemoveAt(ss[..n], i) && rest[n - 1] == ss[n];
      hide RemoveAt;
      assert Flatten(rest) == Flatten(RemoveAt(ss[..n], i)) + ss[n];
    }
  }

  lemma {:induction false} FlattenPermuted<T>(a: seq<seq<T>>, b: seq<seq<T>>)
    requires multiset(a) == multiset(b)
    ensures multiset(Flatten(a)) == multiset(Flatten(b))
    decreases |a|
  {
    if a == [] {
      assert |multiset(b)| == 0;
    } else {
      var n := |a| - 1;
      assert a == a[..n] + [a[n]];
      assert a[n] in multiset(b);
      var i :| 0 <= i < |b| && b[i] == a[n];
      RemoveAtContents(b, i);
      FlattenPermuted(a[..n], RemoveAt(b, i));
      FlattenWithout(b, i);
    }
  }

  /** In whatever order the jobs run, `par_for_each` visits exactly the items of `iter`, each as often. */
  lemma ParallelIsIter<T>(q: Query, states: map<T, TableState>, live: seq<T>, parallelism: nat, ran: seq<seq<Row>>)
    requires q.parts != [] && parallelism > 0
             && forall k :: 0 <= k < |live| ==> live[k] in states && states[live[k]].Full()
    requires multiset(ran) == multiset(ParallelJobs(q, states, live, parallelism))
    ensures multiset(Flatten(ran)) == multiset(Iter(q, states, live))
  {
    SpawnedInOrder(q, states, live, parallelism);
    FlattenPermuted(ran, ParallelJobs(q, states, live, parallelism));
  }

  function Count<T>(q: Query, states: map<T, TableState>, live: seq<T>): nat
    requires forall k :: 0 <= k < |live| ==> live[k] in states
  {
    if live == [] then 0
    else
      var n := |live| - 1;
      var s := states[live[n]];
      Count(q, states, live[..n]) + (if q.filter(s.cols.Keys) && Contains(q, s) then |s.entities| else 0)
  }

  /** `fetch`, through the index. */
  function Fetch<T>(q: Query, store: Store<T>, id: EntityId): Option<Row> {
    if !store.index.IsLive(id) then None
    else
      var t := store.index.slots[id.index].use.table;
      if t !in store.tables || !q.filter(store.tables[t].cols.Keys) then None
      else FetchRow(q, store.tables[t], store.index.slots[id.index].use.row)
  }

  predicate ContainsId<T>(q: Query, store: Store<T>, id: EntityId) {
    && store.index.IsLive(id)
    && var t := store.index.slots[id.index].use.table;
    t in store.tables && q.filter(store.tables[t].cols.Keys) && Contains(q, store.tables[t])
  }

  /** The entities of the matching tables, in the order of iteration. */
  ghost function Spanned<T>(q: Query, states: map<T, TableState>, live: seq<T>): seq<EntityId>
    requires forall k :: 0 <= k < |live| ==> live[k] in states
  {
    if live == [] then []
    else
      var n := |live| - 1;
      Spanned(q, states, live[..n]) + (if Matches(q, states[live[n]]) then states[live[n]].entities else [])
  }

  /** The `j`-th item is what `fetch` gives for the `j`-th entity spanned. */
  lemma {:induction false} IterIsFetch<T>(q: Query, store: Store<T>, live: seq<T>)
    requires store.Agree() && q.parts != [] && forall k :: 0 <= k < |live| ==> live[k] in store.tables
    ensures |Iter(q, store.tables, live)| == |Spanned(q, store.tables, live)| == Count(q, store.tables, live)
    ensures forall j :: 0 <= j < |Spanned(q, store.tables, live)| ==>
              Fetch(q, store, Spanned(q, store.tables, live)[j]) == Some(Iter(q, store.tables, live)[j])
    decreases |live|
  {
    if live != [] {
      var n := |live| - 1;
      var s := store.tables[live[n]];
      IterIsFetch(q, store, live[..n]);
      TableIterIsFetch(q, s);
      if Matches(q, s) {
        forall row | 0 <= row < |s.entities| ensures Fetch(q, store, s.entities[row]) == Some(TableIter(q, s)[row]) {
          var id := s.entities[row];
          assert store.index.slots[id.index] == Slot(id.generation, Live(live[n], row));
        }
      }
    }
  }

  /** Each live entity of a matching table is spanned, and spanned once. */
  lemma {:induction false} SpannedOnce<T>(q: Query, store: Store<T>, live: seq<T>)
    requires store.Agree() && Distinct(live) && forall k :: 0 <= k < |live| ==> live[k] in store.tables
    ensures Distinct(Spanned(q, store.tables, live))
    ensures forall id :: id in Spanned(q, store.tables, live) <==>
              ContainsId(q, store, id) && store.index.slots[id.index].use.table in live
    decreases |live|
  {
    if live != [] {
      var n := |live| - 1;
      var t, s := live[n], store.tables[live[n]];
      SpannedOnce(q, store, live[..n]);
      assert live == live[..n] + [t];
      var before := Spanned(q, store.tables, live[..n]);
      forall row | 0 <= row < |s.entities|
        ensures store.index.IsLive(s.entities[row]) && store.index.slots[s.entities[row].index].use == Live(t, row)
      {
        assert store.index.slots[s.entities[row].index] == Slot(s.entities[row].generation, Live(t, row));
      }
      forall id | ContainsId(q, store, id) && store.index.slots[id.index].use.table == t ensures id in s.entities {
        assert s.entities[store.RowOf(id)] == id;
      }
    }
  }

  /** `order` lists the keys of the live archetypes. */
  ghost predicate Lists<T>(order: seq<Key>, archetypes: Archetypes<T>) {
    Distinct(order) && forall k :: k in order <==> k in archetypes
  }

  /** However the live archetypes are listed, there is such a list. */
  lemma {:induction false} OrderExists<T>(archetypes: Archetypes<T>) returns (order: seq<Key>)
    ensures |order| == |archetypes.Keys| && Lists(order, archetypes)
    decreases |archetypes.Keys|
  {
    if archetypes == map[] {
      order := [];
    } else {
      var k :| k in archetypes;
      assert (archetypes - {k}).Keys == archetypes.Keys - {k};
      var rest := OrderExists(archetypes - {k});
      order := rest + [k];
      forall j ensures j in order <==> j in archetypes { assert j in order <==> j in rest || j == k; }
      assert k !in rest;
    }
  }

  ghost function InOrder<T>(order: seq<Key>, archetypes: Archetypes<T>): seq<T>
    requires Lists(order, archetypes)
  {
    seq(|order|, i requires 0 <= i < |order| => assert order[i] in order; archetypes[order[i]])
  }

  lemma InOrderIsLive<T>(states: map<T, TableState>, archetypes: Archetypes<T>, staging: Archetypes<T>, order: seq<Key>)
    requires Filed(archetypes, staging, states) && Lists(order, archetypes)
    ensures var live := InOrder(order, archetypes);
            && Distinct(live) && (forall k :: 0 <= k < |live| ==> live[k] in states)
            && forall t :: t in states ==> (t in live <==> !(states[t].ty in staging && staging[states[t].ty] == t))
  {
    var live := InOrder(order, archetypes);
    forall i | 0 <= i < |order| ensures live[i] in states && states[live[i]].ty == order[i] {
      assert order[i] in order;
    }
    forall t | t in states && states[t].ty in archetypes && archetypes[states[t].ty] == t ensures t in live {
      var i :| 0 <= i < |order| && order[i] == states[t].ty;
      assert live[i] == t;
    }
  }

  /**
    In a world where nothing is staged, iteration yields exactly one item per live entity that the
    query contains, and it is the item that `fetch` gives for it. The number of items is `count`.
   */
  lemma IterationAgreesWithFetch<T>(q: Query, store: Store<T>, archetypes: Archetypes<T>, staging: Archetypes<T>,
                                    order: seq<Key>)
    requires store.Agree() && Filed(archetypes, staging, store.tables) && Lists(order, archetypes) && q.parts != []
    requires forall k :: k in staging ==> !Occupied(store.tables, staging, k)
    ensures var live := InOrder(order, archetypes);
            && (forall k :: 0 <= k < |live| ==> live[k] in store.tables)
            && var spanned := Spanned(q, store.tables, live);
            && |Iter(q, store.tables, live)| == |spanned| == Count(q, store.tables, live)
            && Distinct(spanned)
            && (forall id :: id in spanned <==> Fetch(q, store, id).Some?)
            && (forall id :: id in spanned <==> ContainsId(q, store, id))
            && forall j :: 0 <= j < |spanned| ==> Fetch(q, store, spanned[j]) == Some(Iter(q, store.tables, live)[j])
  {
    var live := InOrder(order, archetypes);
    InOrderIsLive(store.tables, archetypes, staging, order);
    IterIsFetch(q, store, live);
    SpannedOnce(q, store, live);
    forall id ensures ContainsId(q, store, id) <==> Fetch(q, store, id).Some? {
      ContainsIsFetch(q, store, id);
    }
    forall id | store.index.IsLive(id) ensures store.TableOf(id) in live {
      var t := store.TableOf(id);
      assert store.tables[t].entities[store.RowOf(id)] == id;
    }
  }

  lemma ContainsIsFetch<T>(q: Query, store: Store<T>, id: EntityId)
    requires store.Agree() && q.parts != []
    ensures ContainsId(q, store, id) <==> Fetch(q, store, id).Some?
  {
    if store.index.IsLive(id) { TableIterIsFetch(q, store.tables[store.TableOf(id)]); }
  }

  /**
    What a query says of an entity, in terms of the components that the entity has. The unit type,
    which every entity has, is not among these.
   */
  lemma FetchMeans<T>(q: Query, store: Store<T>, id: EntityId)
    requires store.Agree() && q.parts != []
    requires forall k :: 0 <= k < |q.parts| && !q.parts[k].Id? ==> q.parts[k].t != UNIT
    ensures !store.index.IsLive(id) ==> Fetch(q, store, id).None? && !ContainsId(q, store, id)
    ensures store.index.IsLive(id) ==>
              && id in store.View()
              && var c, r := store.View()[id], Fetch(q, store, id);
              && (r.Some? <==> ContainsId(q, store, id))
              && (r.Some? <==>
                    && q.filter(c.Keys + {UNIT})
                    && forall k :: 0 <= k < |q.parts| && q.parts[k].Ref? ==> q.parts[k].t in c)
              && (r.Some? ==> |r.value| == |q.parts|)
              && (r.Some? ==> forall k :: 0 <= k < |q.parts| ==>
                    match q.parts[k]
                    case Ref(t) => t in c && r.value[k] == Component(c[t])
                    case Opt(t) => r.value[k] == Maybe(if t in c then Some(c[t]) else None)
                    case Id => r.value[k] == Entity(id)
                    case Has(t) => r.value[k] == Flag(t in c))
  {
    if store.index.IsLive(id) {
      ViewKeys(store, id);
      ContainsIsFetch(q, store, id);
      RowMeans(store.tables[store.TableOf(id)], store.RowOf(id));
      hide Store.Agree, Store.View;
    }
  }

  lemma RowMeans(s: TableState, row: nat)
    requires s.Full() && row < |s.entities|
    ensures s.Row(row).Keys + {UNIT} == s.cols.Keys
    ensures forall t :: t in s.cols ==> row < |s.cols[t]|
    ensures forall t :: t != UNIT ==> (t in s.Row(row) <==> t in s.cols)
    ensures forall t :: t in s.Row(row) ==> s.Row(row)[t] == s.cols[t][row]
  {
  }

  /** An entity that the query contains is iterated over exactly when its table is not a staging archetype. */
  lemma StagedIsMissed<T>(q: Query, store: Store<T>, archetypes: Archetypes<T>, staging: Archetypes<T>,
                          order: seq<Key>, id: EntityId)
    requires store.Agree() && Filed(archetypes, staging, store.tables) && Lists(order, archetypes) && q.parts != []
    requires ContainsId(q, store, id)
    ensures var live := InOrder(order, archetypes);
            && (forall k :: 0 <= k < |live| ==> live[k] in store.tables)
            && var t := store.TableOf(id);
            id in Spanned(q, store.tables, live) <==>
              !(store.tables[t].ty in staging && staging[store.tables[t].ty] == t)
  {
    InOrderIsLive(store.tables, archetypes, staging, order);
    SpannedOnce(q, store, InOrder(order, archetypes));
  }

  // ---------------------------------------------------------------- an example

  /** One entity with one component, in table 's'; table 'v' is the void archetype. */
  ghost function TwoTables(): Store<char> {
    Store(Slots([Slot(0, Live('s', 0))], []),
          map['v' := TableState({}, [], map[UNIT := []]),
              's' := TableState({1}, [EntityId(0, 0)], map[UNIT := [Unit], 1 := [Data(10)]])])
  }

  lemma TwoTablesAgree()
    ensures TwoTables().Agree() && Filed(map[{} := 'v'], map[{1} := 's'], TwoTables().tables)
  {
    var s := TwoTables();
    assert s.tables['v'].cols.Keys - {UNIT} == {} && s.tables['s'].cols.Keys - {UNIT} == {1};
  }

  /**
    The entity is in a staging archetype, as it is when the commands after its own fail and the
    sweep is skipped. The world is calm and the entity can be fetched, but no iteration sees it,
    and neither a copy nor clearing the staging archetypes leaves a whole store.
   */
  lemma StagedExample()
    ensures var id, q, s := EntityId(0, 0), Query([Ref(1)], _ => true), TwoTables();
            && s.Agree() && Filed(map[{} := 'v'], map[{1} := 's'], s.tables)
            && Filings.Calm(map[{} := 'v'], map[{1} := 's'], s.tables)
            && ContainsId(q, s, id) && Fetch(q, s, id) == Some([Item.Component(Data(10))])
            && Iter(q, s.tables, ['v']) == [] && Count(q, s.tables, ['v']) == 0
            && !Store(s.index, Kept(s.tables, {'v'})).Agree()
  {
    hide Store.EntriesNameRows, Store.RowsNameEntries;
    var id, q, s := EntityId(0, 0), Query([Ref(1)], _ => true), TwoTables();
    TwoTablesAgree();
    TableIterIsFetch(q, s.tables['v']);
    assert !FragmentContains(q.parts[0], s.tables['v']) && FragmentContains(q.parts[0], s.tables['s']);
    assert FragmentFetch(q.parts[0], s.tables['s'], 0) == Some(Item.Component(Data(10)));
    assert FetchRow(q, s.tables['s'], 0).value == [Item.Component(Data(10))];
    assert ['v'][..0] == [];
    assert s.tables['s'].entities != [];
    ForgetTables(s, {'v'});
  }
}
