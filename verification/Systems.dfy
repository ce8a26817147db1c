/**
  The topological sort of a stage (src/systems.rs): depth first over a map of the systems that
  have not been placed yet, with the path of systems that are waiting for their dependencies.
 */
module Systems {
  import opened Wrappers
  import opened Seqs
  import opened Accesses

  type SystemId = nat

  /** What sorting and scheduling look at in a system. */
  datatype System = System(id: SystemId, after: set<SystemId>, access: Access)

  datatype SortError = DuplicateSystem | CircularDependency

  ghost predicate DistinctIds(sys: seq<System>) {
    forall i, j :: 0 <= i < j < |sys| ==> sys[i].id != sys[j].id
  }

  /** Every dependency that is in the sequence comes earlier in it. */
  ghost predicate Ordered(sys: seq<System>) {
    forall i, j :: 0 <= i < |sys| && 0 <= j < |sys| && sys[j].id in sys[i].after ==> j < i
  }

  /** Each element depends on the next, and the last one on the first. */
  ghost predicate Cycle(all: map<SystemId, System>, c: seq<SystemId>) {
    && c != []
    && (forall k :: 0 <= k < |c| ==> c[k] in all)
    && (forall k :: 0 <= k < |c| - 1 ==> c[k + 1] in all[c[k]].after)
    && c[0] in all[c[|c| - 1]].after
  }

  ghost predicate Cyclic(all: map<SystemId, System>) {
    exists c :: Cycle(all, c)
  }

  ghost function ById(sys: seq<System>): map<SystemId, System> {
    if sys == [] then map[] else ById(sys[..|sys| - 1])[sys[|sys| - 1].id := sys[|sys| - 1]]
  }

  lemma {:induction false} ByIdHolds(sys: seq<System>)
    requires DistinctIds(sys)
    ensures forall i :: 0 <= i < |sys| ==> sys[i].id in ById(sys) && ById(sys)[sys[i].id] == sys[i]
    ensures forall id :: id in ById(sys) ==> ById(sys)[id] in sys && ById(sys)[id].id == id
    decreases |sys|
  {
    if sys != [] {
      var n := |sys| - 1;
      ByIdHolds(sys[..n]);
      forall i | 0 <= i < n ensures sys[i].id in ById(sys) && ById(sys)[sys[i].id] == sys[i] {
        assert sys[..n][i] == sys[i];
      }
    }
  }

  /** An order in which dependencies come first leaves no cycle: the positions would have to decrease for ever. */
  lemma OrderedIsAcyclic(sys: seq<System>)
    requires DistinctIds(sys) && Ordered(sys)
    ensures !Cyclic(ById(sys))
  {
    ByIdHolds(sys);
    forall c | c != [] ensures !Cycle(ById(sys), c) {
      if Cycle(ById(sys), c) {
        PathDescends(sys, c, |c| - 1);
      }
    }
  }

  lemma EdgeDescends(sys: seq<System>, a: SystemId, b: SystemId)
    requires DistinctIds(sys) && Ordered(sys) && Has(sys, a) && Has(sys, b) && b in sys[At(sys, a)].after
    ensures At(sys, b) < At(sys, a)
  {
  }

  ghost predicate Has(sys: seq<System>, id: SystemId) {
    exists i :: 0 <= i < |sys| && sys[i].id == id
  }

  ghost function At(sys: seq<System>, id: SystemId): (k: nat)
    requires Has(sys, id)
    ensures k < |sys| && sys[k].id == id
  {
    var i :| 0 <= i < |sys| && sys[i].id == id;
    i
  }

  lemma {:induction false} PathDescends(sys: seq<System>, c: seq<SystemId>, k: nat)
    requires DistinctIds(sys) && Ordered(sys) && k < |c|
    requires forall i :: 0 <= i < |c| ==> Has(sys, c[i])
    requires forall i :: 0 <= i < |c| - 1 ==> c[i + 1] in sys[At(sys, c[i])].after
    ensures At(sys, c[k]) <= At(sys, c[0])
    decreases k
  {
    if k > 0 {
      PathDescends(sys, c, k - 1);
      assert c[k - 1 + 1] in sys[At(sys, c[k - 1])].after;
      EdgeDescends(sys, c[k - 1], c[k]);
    }
  }

  /** The same systems in another order are the same map. */
  lemma SameSystems(a: seq<System>, b: seq<System>)
    requires DistinctIds(a) && DistinctIds(b) && forall s :: s in a <==> s in b
    ensures ById(a) == ById(b) && multiset(a) == multiset(b)
  {
    ByIdHolds(a);
    ByIdHolds(b);
    SameEntries(a, b);
    SameEntries(b, a);
    forall s ensures multiset(a)[s] == multiset(b)[s] {
      OnceIn(a, s);
      OnceIn(b, s);
    }
  }

  lemma SameEntries(a: seq<System>, b: seq<System>)
    requires DistinctIds(a) && DistinctIds(b) && forall s :: s in a ==> s in b
    ensures forall id :: id in ById(a) ==> id in ById(b) && ById(a)[id] == ById(b)[id]
  {
    ByIdHolds(a);
    ByIdHolds(b);
    forall id | id in ById(a) ensures id in ById(b) && ById(a)[id] == ById(b)[id] {
      var j :| 0 <= j < |b| && b[j] == ById(a)[id];
    }
  }

  lemma LastIsNew(sys: seq<System>)
    requires DistinctIds(sys) && sys != []
    ensures DistinctIds(sys[..|sys| - 1]) && sys[|sys| - 1] !in sys[..|sys| - 1]
  {
  }

  lemma {:induction false} OnceIn(sys: seq<System>, s: System)
    requires DistinctIds(sys)
    ensures multiset(sys)[s] == if s in sys then 1 else 0
    decreases |sys|
  {
    if sys != [] {
      var n := |sys| - 1;
      OnceIn(sys[..n], s);
      LastIsNew(sys);
      hide DistinctIds;
      assert sys == sys[..n] + [sys[n]];
    }
  }

  // ---------------------------------------------------------------- the state of the sort

  /** Each system is unplaced, pending or placed; what is placed is in order; what is pending is a path. */
  ghost predicate Sorting(all: map<SystemId, System>, systems: map<SystemId, System>, out: seq<System>,
                          pending: seq<SystemId>) {
    && (forall id :: id in all ==> all[id].id == id)
    && (forall id :: id in systems ==> id in all && systems[id] == all[id] && id !in pending && !Has(out, id))
    && (forall id :: id in all ==> id in systems || id in pending || Has(out, id))
    && (forall k :: 0 <= k < |out| ==> out[k].id in all && out[k] == all[out[k].id] && out[k].id !in pending)
    && DistinctIds(out)
    && Resolved(all, out)
    && IsPath(all, pending)
  }

  /** Each depends on the next, and none is repeated. */
  ghost predicate IsPath(all: map<SystemId, System>, pending: seq<SystemId>) {
    && (forall k :: 0 <= k < |pending| ==> pending[k] in all)
    && (forall k :: 0 <= k < |pending| - 1 ==> pending[k + 1] in all[pending[k]].after)
    && Distinct(pending)
  }

  lemma PathBegins(all: map<SystemId, System>, pending: seq<SystemId>, id: SystemId)
    requires IsPath(all, pending) && id in all && id !in pending
    requires pending != [] ==> id in all[pending[|pending| - 1]].after
    ensures IsPath(all, pending + [id])
  {
  }

  lemma PathEnds(all: map<SystemId, System>, pending: seq<SystemId>)
    requires IsPath(all, pending) && pending != []
    ensures var n := |pending| - 1;
            && IsPath(all, pending[..n]) && pending[n] !in pending[..n]
            && forall id :: id in pending <==> id in pending[..n] || id == pending[n]
  {
    assert pending == pending[..|pending| - 1] + [pending[|pending| - 1]];
  }

  lemma BeginKeeps(all: map<SystemId, System>, systems: map<SystemId, System>, out: seq<System>,
                   pending: seq<SystemId>, id: SystemId)
    requires Sorting(all, systems, out, pending) && id in systems
    requires pending != [] && pending[|pending| - 1] in all ==> id in all[pending[|pending| - 1]].after
    ensures Sorting(all, systems - {id}, out, pending + [id])
  {
    PathBegins(all, pending, id);
    hide Resolved, IsPath, DistinctIds;
    forall k | 0 <= k < |out| ensures out[k].id != id { assert Has(out, out[k].id); }
  }

  lemma FinishKeeps(all: map<SystemId, System>, systems: map<SystemId, System>, out: seq<System>,
                    pending: seq<SystemId>, sys: System)
    requires Sorting(all, systems, out, pending) && pending != [] && pending[|pending| - 1] == sys.id
    requires sys.id in all && all[sys.id] == sys && forall d :: d in sys.after && d in all ==> Has(out, d)
    ensures Sorting(all, systems, out + [sys], pending[..|pending| - 1]) && Has(out + [sys], sys.id)
  {
    PathEnds(all, pending);
    HasOneMore(out, sys);
    ResolvedOneMore(all, out, sys);
    hide Resolved, IsPath, Has;
  }

  lemma HasOneMore(out: seq<System>, sys: System)
    ensures forall id :: Has(out + [sys], id) <==> Has(out, id) || id == sys.id
  {
    forall id ensures Has(out + [sys], id) <==> Has(out, id) || id == sys.id {
      if Has(out, id) {
        var i :| 0 <= i < |out| && out[i].id == id;
        assert (out + [sys])[i].id == id;
      }
      assert (out + [sys])[|out|] == sys;
    }
  }

  lemma ResolvedOneMore(all: map<SystemId, System>, out: seq<System>, sys: System)
    requires Resolved(all, out) && forall d :: d in sys.after && d in all ==> Has(out, d)
    ensures Resolved(all, out + [sys])
  {
    var longer := out + [sys];
    forall i | 0 <= i < |longer|
      ensures forall id :: id in longer[i].after && id in all ==> exists j :: 0 <= j < i && longer[j].id == id
    {
      forall id | id in longer[i].after && id in all ensures exists j :: 0 <= j < i && longer[j].id == id {
        if i < |out| {
          var j :| 0 <= j < i && out[j].id == id;
          assert longer[j].id == id;
        } else {
          var j :| 0 <= j < |out| && out[j].id == id;
          assert longer[j].id == id;
        }
      }
    }
  }

  /** The mutable state that the recursion threads through. */
  class Sorter {
    var systems: map<SystemId, System>
    var out: seq<System>
    var pending: seq<SystemId>
    ghost const all: map<SystemId, System>

    ghost predicate Placed(id: SystemId)
      reads this
    {
      Has(out, id)
    }

    ghost predicate Valid()
      reads this
    {
      Sorting(all, systems, out, pending)
    }

    constructor (all: map<SystemId, System>)
      requires forall id :: id in all ==> all[id].id == id
      ensures Valid() && this.all == all && out == [] && pending == [] && systems == all
    {
      this.all, systems, out, pending := all, all, [], [];
    }

    /** Places a system after everything it depends on. Fails only when a dependency is pending: on a cycle. */
    method Extend(id: SystemId) returns (ok: bool)
      requires Valid() && (pending != [] && id in all ==> id in all[pending[|pending| - 1]].after)
      modifies this
      ensures !ok ==> Cyclic(all)
      ensures ok ==> Valid() && pending == old(pending) && systems.Keys <= old(systems).Keys
      ensures ok ==> old(out) <= out && (id in all ==> Placed(id))
      ensures old(id !in pending && id !in systems) ==> ok && out == old(out)
      ensures old(id in systems && forall d :: d in all[id].after && d in all ==> Placed(d)) ==>
                ok && out == old(out) + [all[id]]
      decreases systems.Keys, 0
    {
      if id in pending {
        CycleHere(id);
        return false;
      }
      if id !in systems {
        return true;
      }
      var sys := systems[id];
      Begin(id);
      ok := Dependencies(id, sys.after);
      if ok {
        Finish(sys);
      }
    }

    method Begin(id: SystemId)
      requires Valid() && id in systems && (pending != [] ==> id in all[pending[|pending| - 1]].after)
      modifies this
      ensures Valid() && pending == old(pending) + [id] && systems == old(systems) - {id} && out == old(out)
    {
      hide Sorting;
      BeginKeeps(all, systems, out, pending, id);
      systems := systems - {id};
      pending := pending + [id];
    }

    method Finish(sys: System)
      requires Valid() && pending != [] && pending[|pending| - 1] == sys.id && sys.id in all && all[sys.id] == sys
      requires forall d :: d in sys.after && d in all ==> Placed(d)
      modifies this
      ensures Valid() && pending == old(pending)[..|old(pending)| - 1] && systems == old(systems)
              && out == old(out) + [sys]
      ensures Placed(sys.id)
    {
      hide Sorting, Has;
      FinishKeeps(all, systems, out, pending, sys);
      pending := pending[..|pending| - 1];
      out := out + [sys];
    }

    /** The loop over `after`, in any order. */
    method Dependencies(id: SystemId, after: set<SystemId>) returns (ok: bool)
      requires Valid() && id in all && after == all[id].after && pending != [] && pending[|pending| - 1] == id
      modifies this
      ensures !ok ==> Cyclic(all)
      ensures ok ==> Valid() && pending == old(pending) && systems.Keys <= old(systems).Keys && old(out) <= out
      ensures ok ==> forall d :: d in after && d in all ==> Placed(d)
      ensures old(forall d :: d in after && d in all ==> Placed(d)) ==> ok && out == old(out)
      decreases systems.Keys, 1
    {
      var todo := after;
      ok := true;
      while todo != {}
        invariant Valid() && pending == old(pending) && systems.Keys <= old(systems).Keys && old(out) <= out
        invariant todo <= after && forall d :: d in after && d !in todo && d in all ==> Placed(d)
        invariant old(forall d :: d in after && d in all ==> Placed(d)) ==> out == old(out)
        decreases |todo|
      {
        var d :| d in todo;
        ok := Extend(d);
        if !ok {
          return;
        }
        todo := todo - {d};
      }
    }

    /** When every system has been placed the sort is complete. */
    lemma Complete(sys: seq<System>)
      requires Valid() && DistinctIds(sys) && all == ById(sys) && forall k :: 0 <= k < |sys| ==> Has(out, sys[k].id)
      ensures multiset(out) == multiset(sys) && DistinctIds(out) && Ordered(out) && !Cyclic(ById(sys))
    {
      AllPlaced(sys, out);
    }

    lemma Unplaced(id: SystemId)
      requires Valid() && id in all && pending == []
      ensures id in systems || Has(out, id)
      ensures id in systems ==> !Has(out, id)
    {
    }

    lemma CycleHere(id: SystemId)
      requires Valid() && id in pending && id in all[pending[|pending| - 1]].after
      ensures Cyclic(all)
    {
      var i :| 0 <= i < |pending| && pending[i] == id;
      assert Cycle(all, pending[i..]);
    }
  }

  /** Every dependency within `all` comes earlier. */
  ghost predicate Resolved(all: map<SystemId, System>, out: seq<System>) {
    forall i :: 0 <= i < |out| ==> forall id :: id in out[i].after && id in all ==>
      exists j :: 0 <= j < i && out[j].id == id
  }

  /** When every system has been placed the sort is complete, and there was no cycle. */
  lemma AllPlaced(sys: seq<System>, out: seq<System>)
    requires DistinctIds(sys) && DistinctIds(out) && Resolved(ById(sys), out)
    requires forall k :: 0 <= k < |out| ==> out[k].id in ById(sys) && out[k] == ById(sys)[out[k].id]
    requires forall k :: 0 <= k < |sys| ==> Has(out, sys[k].id)
    ensures multiset(out) == multiset(sys) && Ordered(out) && !Cyclic(ById(sys))
  {
    ByIdHolds(sys);
    forall s ensures s in out <==> s in sys {
      if s in sys {
        var k :| 0 <= k < |sys| && sys[k] == s;
        var j :| 0 <= j < |out| && out[j].id == s.id;
        assert out[j] == s;
      }
    }
    SameSystems(out, sys);
    forall i, j | 0 <= i < |out| && 0 <= j < |out| && out[j].id in out[i].after ensures j < i {
      var k :| 0 <= k < i && out[k].id == out[j].id;
    }
    OrderedIsAcyclic(out);
  }

  /** In an ordered sequence the dependencies of each system are among the earlier ones. */
  lemma OrderedPrefix(sys: seq<System>, k: nat)
    requires DistinctIds(sys) && Ordered(sys) && k < |sys|
    ensures forall d :: d in sys[k].after && d in ById(sys) ==> Has(sys[..k], d)
    ensures !Has(sys[..k], sys[k].id)
  {
    ByIdHolds(sys);
    forall d | d in sys[k].after && d in ById(sys) ensures Has(sys[..k], d) {
      var j :| 0 <= j < |sys| && sys[j] == ById(sys)[d];
      assert sys[..k][j].id == d;
    }
  }

  lemma NothingIndexed()
    ensures DistinctIds([]) && ById([]) == map[]
  {
  }

  lemma ByIdHas(sys: seq<System>, id: SystemId)
    requires DistinctIds(sys)
    ensures id in ById(sys) <==> Has(sys, id)
  {
    ByIdHolds(sys);
    hide ById;
    if id in ById(sys) {
      var j :| 0 <= j < |sys| && sys[j] == ById(sys)[id];
    }
  }

  lemma DistinctStep(sys: seq<System>, k: nat)
    requires k < |sys| && DistinctIds(sys[..k])
    ensures DistinctIds(sys[..k + 1]) <==> !Has(sys[..k], sys[k].id)
  {
    var before, after := sys[..k], sys[..k + 1];
    assert forall j :: 0 <= j < k ==> before[j] == after[j];
    if Has(before, sys[k].id) {
      var j := At(before, sys[k].id);
      assert after[j].id == after[k].id;
    } else {
      forall j | 0 <= j < k ensures after[j].id != after[k].id { assert before[j].id != sys[k].id; }
    }
  }

  lemma DistinctPrefix(sys: seq<System>, k: nat)
    requires k <= |sys| && DistinctIds(sys)
    ensures DistinctIds(sys[..k])
  {
  }

  lemma IndexStep(sys: seq<System>, k: nat)
    requires k < |sys| && DistinctIds(sys[..k])
    ensures ById(sys[..k + 1]) == ById(sys[..k])[sys[k].id := sys[k]]
    ensures sys[k].id !in ById(sys[..k]) <==> DistinctIds(sys[..k + 1])
    ensures sys[k].id in ById(sys[..k]) ==> !DistinctIds(sys)
  {
    assert sys[..k + 1][..k] == sys[..k];
    hide DistinctIds, Has;
    ByIdHas(sys[..k], sys[k].id);
    DistinctStep(sys, k);
    if DistinctIds(sys) { DistinctPrefix(sys, k + 1); }
  }

  /** The loop that fills the map, and finds duplicates. */
  method Index(sys: seq<System>) returns (r: Option<map<SystemId, System>>)
    ensures r.Some? <==> DistinctIds(sys)
    ensures r.Some? ==> r.value == ById(sys)
  {
    var systems: map<SystemId, System> := map[];
    hide ById, DistinctIds;
    NothingIndexed();
    for k := 0 to |sys|
      invariant DistinctIds(sys[..k]) && systems == ById(sys[..k])
    {
      IndexStep(sys, k);
      if sys[k].id in systems {
        return None;
      }
      systems := systems[sys[k].id := sys[k]];
    }
    assert sys[..|sys|] == sys;
    r := Some(systems);
  }

  /**
    Sorts a stage. Fails on duplicates, and on a cycle exactly when there is one; otherwise the
    result has the same systems, dependencies first, and a sequence in order comes back unchanged.
   */
  method SortedSystems(sys: seq<System>) returns (r: Result<seq<System>, SortError>)
    ensures r == Err(DuplicateSystem) <==> !DistinctIds(sys)
    ensures r == Err(CircularDependency) <==> DistinctIds(sys) && Cyclic(ById(sys))
    ensures r.Ok? ==> multiset(r.value) == multiset(sys) && DistinctIds(r.value) && Ordered(r.value)
    ensures r.Ok? && Ordered(sys) ==> r.value == sys
  {
    hide ById, Cyclic, Ordered, Sorter.Valid, Has;
    var systems := Index(sys);
    if systems.None? {
      return Err(DuplicateSystem);
    }
    ByIdHolds(sys);
    var sorter := new Sorter(systems.value);
    for k := 0 to |sys|
      invariant sorter.Valid() && sorter.all == ById(sys) && sorter.pending == [] && fresh(sorter)
      invariant forall i :: 0 <= i < k ==> Has(sorter.out, sys[i].id)
      invariant Ordered(sys) ==> sorter.out == sys[..k]
    {
      if Ordered(sys) { OrderedPrefix(sys, k); }
      sorter.Unplaced(sys[k].id);
      ghost var before := sorter.out;
      var ok := sorter.Extend(sys[k].id);
      if !ok {
        return Err(CircularDependency);
      }
      StillHas(before, sorter.out);
    }
    assert sys[..|sys|] == sys;
    sorter.Complete(sys);
    r := Ok(sorter.out);
  }

  lemma StillHas(before: seq<System>, after: seq<System>)
    requires before <= after
    ensures forall id :: Has(before, id) ==> Has(after, id)
  {
    forall id | Has(before, id) ensures Has(after, id) {
      var i :| 0 <= i < |before| && before[i].id == id;
      assert after[i].id == id;
    }
  }
}
