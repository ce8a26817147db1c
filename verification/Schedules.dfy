/** From a sorted stage to a job graph (src/scheduler.rs). */
module Schedules {
  import opened Accesses
  import opened Systems

  ghost predicate Conflict(stage: seq<System>, j: nat, i: nat)
    requires i < |stage| && j < |stage|
  {
    !stage[i].access.IsDisjoint(stage[j].access)
  }

  ghost predicate Explicit(stage: seq<System>, j: nat, i: nat)
    requires i < |stage| && j < |stage|
  {
    stage[j].id in stage[i].after
  }

  /** How often `j` is listed as a parent of `i`: an explicit ordering of two systems in conflict is listed twice. */
  ghost function Edges(stage: seq<System>, j: nat, i: nat): nat
    requires i < |stage|
  {
    if i == 0 || j >= |stage| then 0
    else (if j < i && Conflict(stage, j, i) then 1 else 0) + (if Explicit(stage, j, i) then 1 else 0)
  }

  /** The parents of each system, by position in the stage. */
  method FromStage(stage: seq<System>) returns (parents: seq<seq<nat>>)
    requires DistinctIds(stage)
    ensures |parents| == |stage|
    ensures forall i, j :: 0 <= i < |stage| && 0 <= j ==> multiset(parents[i])[j] == Edges(stage, j, i)
  {
    parents := [];
    if stage == [] {
      return;
    }
    var indices := Indices(stage);
    var history := [stage[0].access];
    parents := [[]];
    for i := 1 to |stage|
      invariant |parents| == i && |history| == i
      invariant forall j :: 0 <= j < i ==> history[j] == stage[j].access
      invariant forall k, j :: 0 <= k < i && 0 <= j ==> multiset(parents[k])[j] == Edges(stage, j, k)
    {
      var props := stage[i].access;
      var row := Conflicts(stage, history, i);
      row := Orderings(stage, indices, i, row);
      parents := parents + [row];
      history := history + [props];
    }
  }

  method Indices(stage: seq<System>) returns (indices: map<SystemId, nat>)
    requires DistinctIds(stage)
    ensures forall id :: id in indices <==> Has(stage, id)
    ensures forall id :: id in indices ==> indices[id] < |stage| && stage[indices[id]].id == id
  {
    indices := map[];
    for i := 0 to |stage|
      invariant forall id :: id in indices <==> exists k :: 0 <= k < i && stage[k].id == id
      invariant forall id :: id in indices ==> indices[id] < i && stage[indices[id]].id == id
    {
      indices := indices[stage[i].id := i];
    }
  }

  /** Earlier systems that are not disjoint. */
  method Conflicts(stage: seq<System>, history: seq<Access>, i: nat) returns (row: seq<nat>)
    requires 0 < i < |stage| && |history| == i && forall j :: 0 <= j < i ==> history[j] == stage[j].access
    ensures forall k :: 0 <= k ==> multiset(row)[k] == if k < i && Conflict(stage, k, i) then 1 else 0
  {
    row := [];
    for j := 0 to i
      invariant forall k :: 0 <= k ==> multiset(row)[k] == if k < j && Conflict(stage, k, i) then 1 else 0
    {
      if !stage[i].access.IsDisjoint(history[j]) {
        row := row + [j];
      }
    }
  }

  /** Explicit orderings; an id that is not in the stage is ignored. */
  method Orderings(stage: seq<System>, indices: map<SystemId, nat>, i: nat, conflicts: seq<nat>) returns (row: seq<nat>)
    requires DistinctIds(stage) && 0 < i < |stage|
    requires forall id :: id in indices <==> Has(stage, id)
    requires forall id :: id in indices ==> indices[id] < |stage| && stage[indices[id]].id == id
    requires forall k :: 0 <= k ==> multiset(conflicts)[k] == if k < i && Conflict(stage, k, i) then 1 else 0
    ensures forall k :: 0 <= k ==> multiset(row)[k] == Edges(stage, k, i)
  {
    row := conflicts;
    var todo := stage[i].after;
    while todo != {}
      invariant todo <= stage[i].after
      invariant forall k :: 0 <= k ==>
                  multiset(row)[k] == multiset(conflicts)[k] +
                  (if k < |stage| && stage[k].id in stage[i].after && stage[k].id !in todo then 1 else 0)
    {
      var id :| id in todo;
      if id in indices {
        row := row + [indices[id]];
      }
      todo := todo - {id};
    }
  }

  /** In a sorted stage every edge goes from a smaller to a larger index, so the graph has no cycle. */
  lemma EdgesGoForward(stage: seq<System>, j: nat, i: nat)
    requires DistinctIds(stage) && Ordered(stage) && i < |stage|
    ensures Edges(stage, j, i) > 0 ==> j < i
    ensures j < i ==> (Edges(stage, j, i) > 0 <==> Conflict(stage, j, i) || Explicit(stage, j, i))
  {
  }

  /** Systems that are in conflict, or explicitly ordered, are joined by an edge. */
  lemma ConflictsAreJoined(stage: seq<System>, j: nat, i: nat)
    requires DistinctIds(stage) && Ordered(stage) && i < |stage| && j < |stage| && i != j
    ensures Edges(stage, j, i) + Edges(stage, i, j) > 0 <==>
            Conflict(stage, j, i) || Explicit(stage, j, i) || Explicit(stage, i, j)
  {
    DisjointMeans(stage[i].access, stage[j].access);
  }

  /** `jobs`: one dependency per listed parent. */
  method Jobs(parents: seq<seq<nat>>) returns (edges: seq<(nat, nat)>)
    ensures forall i, j :: 0 <= i && 0 <= j ==>
              multiset(edges)[(j, i)] == if i < |parents| then multiset(parents[i])[j] else 0
  {
    edges := [];
    for i := 0 to |parents|
      invariant forall k, j :: 0 <= k && 0 <= j ==>
                  multiset(edges)[(j, k)] == if k < i then multiset(parents[k])[j] else 0
    {
      ghost var before := edges;
      for n := 0 to |parents[i]|
        invariant forall k, j :: 0 <= k && 0 <= j ==>
                    multiset(edges)[(j, k)] ==
                      multiset(before)[(j, k)] + (if k == i then multiset(parents[i][..n])[j] else 0)
      {
        assert parents[i][..n + 1] == parents[i][..n] + [parents[i][n]];
        edges := edges + [(parents[i][n], i)];
      }
      assert parents[i][..|parents[i]|] == parents[i];
    }
  }

  /** The graph of a stage. */
  method StageGraph(stage: seq<System>) returns (edges: seq<(nat, nat)>)
    requires DistinctIds(stage) && Ordered(stage)
    ensures forall e :: e in edges ==> e.0 < e.1 < |stage|
    ensures forall i, j :: 0 <= i < |stage| && 0 <= j ==> multiset(edges)[(j, i)] == Edges(stage, j, i)
    ensures forall i, j :: 0 <= j < i < |stage| ==>
              var a, b := stage[j].access, stage[i].access;
              (j, i) in edges <==>
                || stage[j].id in stage[i].after || a.exclusive || b.exclusive
                || (exists t :: t in a.compMut && (t in b.compMut || t in b.compConst))
                || (exists t :: t in b.compMut && (t in a.compMut || t in a.compConst))
                || (exists t :: t in a.resMut && (t in b.resMut || t in b.resConst))
                || (exists t :: t in b.resMut && (t in a.resMut || t in a.resConst))
  {
    var parents := FromStage(stage);
    edges := Jobs(parents);
    forall e | e in edges ensures e.0 < e.1 < |stage| {
      assert multiset(edges)[e] > 0;
      assert e == (e.0, e.1);
      if e.1 < |stage| { EdgesGoForward(stage, e.0, e.1); }
    }
    forall i, j | 0 <= j < i < |stage|
      ensures (j, i) in edges <==> !stage[j].access.IsDisjoint(stage[i].access) || stage[j].id in stage[i].after
    {
      EdgesGoForward(stage, j, i);
      DisjointMeans(stage[i].access, stage[j].access);
      assert (j, i) in edges <==> multiset(edges)[(j, i)] > 0;
    }
    forall i, j | 0 <= j < i < |stage| { DisjointLists(stage[j].access, stage[i].access); }
  }
}
