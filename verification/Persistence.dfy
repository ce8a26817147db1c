/**
  Saving and loading a world (src/serde.rs): the chain of persisted component types, the map that
  is written, and the loop that rebuilds a world from it.
 */
module Persistence {
  import opened TypeIds
  import opened EntityIds
  import opened EntityIndexes
  import opened Tables
  import opened Stores
  import opened Filings
  import opened Queries
  import opened Worlds

  /** The chain of persisters: a component type and the rest, down to the inert end. */
  datatype Persister = Noop | WithComponent(t: TypeId, next: Persister)

  /** One section of the written map: a type and the components of that type. */
  datatype Section = Section(t: TypeId, values: seq<(EntityId, Value)>)

  function PersistedTypes(p: Persister): set<TypeId> {
    match p
    case Noop => {}
    case WithComponent(t, next) => {t} + PersistedTypes(next)
  }

  // ---------------------------------------------------------------- saving

  /** `Query<(EntityId, &T)>`. */
  function PairQuery(t: TypeId): Query {
    Query([Id, Ref(t)], _ => true)
  }

  function AsPair(row: Row): (EntityId, Value) {
    if |row| == 2 && row[0].Entity? && row[1].Component? then (row[0].id, row[1].v) else (EntityId(0, 0), Value.Unit)
  }

  ghost function PersistedValues<T>(t: TypeId, states: map<T, TableState>, live: seq<T>): (r: seq<(EntityId, Value)>)
    requires forall k :: 0 <= k < |live| ==> live[k] in states
    ensures |r| == |Iter(PairQuery(t), states, live)|
  {
    var rows := Iter(PairQuery(t), states, live);
    seq(|rows|, j requires 0 <= j < |rows| => AsPair(rows[j]))
  }

  /** `save_entry` along the chain: a type without values writes nothing. */
  ghost function Save<T>(p: Persister, states: map<T, TableState>, live: seq<T>): seq<Section>
    requires forall k :: 0 <= k < |live| ==> live[k] in states
  {
    match p
    case Noop => []
    case WithComponent(t, next) =>
      (if PersistedValues(t, states, live) == [] then []
       else [Section(t, PersistedValues(t, states, live))]) + Save(next, states, live)
  }

  /** A section is written for a type of the chain, with the values of that type, of which there are some. */
  lemma {:induction false} SavedSections<T>(p: Persister, states: map<T, TableState>, live: seq<T>, k: nat)
    requires forall i :: 0 <= i < |live| ==> live[i] in states
    requires k < |Save(p, states, live)|
    ensures var section := Save(p, states, live)[k];
            && section.values != [] && section.t in PersistedTypes(p)
            && section.values == PersistedValues(section.t, states, live)
  {
    hide PersistedValues;
    var WithComponent(t, next) := p;
    var doc, rest := Save(p, states, live), Save(next, states, live);
    if PersistedValues(t, states, live) == [] {
      assert doc == rest;
      SavedSections(next, states, live, k);
    } else if k > 0 {
      assert doc[k] == rest[k - 1];
      SavedSections(next, states, live, k - 1);
    }
  }

  /** Each type of the chain that has values gets a section. */
  lemma {:induction false} EachTypeSaved<T>(p: Persister, states: map<T, TableState>, live: seq<T>, t: TypeId)
    returns (k: nat)
    requires forall i :: 0 <= i < |live| ==> live[i] in states
    requires t in PersistedTypes(p) && PersistedValues(t, states, live) != []
    ensures k < |Save(p, states, live)| && Save(p, states, live)[k].t == t
  {
    hide PersistedValues;
    var WithComponent(u, next) := p;
    var values, doc, rest := PersistedValues(u, states, live), Save(p, states, live), Save(next, states, live);
    assert doc == if values == [] then rest else [Section(u, values)] + rest;
    hide Save, PersistedTypes;
    if u == t {
      k := 0;
    } else {
      TypesMean(u, next, t);
      var i := EachTypeSaved(next, states, live, t);
      k := if values == [] then i else i + 1;
    }
  }

  /** The types of a chain are those that it was built with. */
  lemma TypesMean(t: TypeId, next: Persister, u: TypeId)
    ensures u !in PersistedTypes(Noop)
    ensures u in PersistedTypes(WithComponent(t, next)) <==> u == t || u in PersistedTypes(next)
  {
  }

  /** `Query<&T>::is_empty`: no matching table has rows. */
  ghost predicate NoneOf<T>(t: TypeId, states: map<T, TableState>, live: seq<T>)
    requires forall k :: 0 <= k < |live| ==> live[k] in states
  {
    forall k :: 0 <= k < |live| && t in states[live[k]].cols ==> states[live[k]].entities == []
  }

  ghost function CountEntries<T>(p: Persister, states: map<T, TableState>, live: seq<T>): nat
    requires forall k :: 0 <= k < |live| ==> live[k] in states
  {
    match p
    case Noop => 0
    case WithComponent(t, next) => (if NoneOf(t, states, live) then 0 else 1) + CountEntries(next, states, live)
  }

  lemma {:induction false} IterIsEmpty<T>(t: TypeId, states: map<T, TableState>, live: seq<T>)
    requires forall k :: 0 <= k < |live| ==> live[k] in states && states[live[k]].Full()
    ensures Iter(PairQuery(t), states, live) == [] <==> NoneOf(t, states, live)
    decreases |live|
  {
    if live != [] {
      var n := |live| - 1;
      var q, s := PairQuery(t), states[live[n]];
      IterIsEmpty(t, states, live[..n]);
      TableIterIsFetch(q, s);
      PairColumns(t, s);
      NoneOfStep(t, states, live);
      hide PairQuery, Contains, TableIter, NoneOf, TableState.Full;
      assert Iter(q, states, live) == Iter(q, states, live[..n]) + TableIter(q, s);
    }
  }

  lemma PairColumns(t: TypeId, s: TableState)
    ensures Contains(PairQuery(t), s) <==> t in s.cols
    ensures PairQuery(t).filter(s.cols.Keys)
  {
    var q := PairQuery(t);
    assert FragmentContains(q.parts[0], s);
    assert Contains(q, s) <==> FragmentContains(q.parts[1], s);
  }

  lemma NoneOfStep<T>(t: TypeId, states: map<T, TableState>, live: seq<T>)
    requires live != [] && forall k :: 0 <= k < |live| ==> live[k] in states
    ensures var n := |live| - 1;
            NoneOf(t, states, live) <==>
              NoneOf(t, states, live[..n]) && (t in states[live[n]].cols ==> states[live[n]].entities == [])
  {
    var n := |live| - 1;
    forall k | 0 <= k < n ensures live[..n][k] == live[k] {}
    if NoneOf(t, states, live) {
      forall k | 0 <= k < n && t in states[live[..n][k]].cols ensures states[live[..n][k]].entities == [] {
        assert live[..n][k] == live[k];
      }
    }
    if NoneOf(t, states, live[..n]) {
      forall k | 0 <= k < n && t in states[live[k]].cols ensures states[live[k]].entities == [] {
        assert live[..n][k] == live[k];
      }
    }
  }

  /** The length announced for the map is the number of entries written. */
  lemma {:induction false} CountIsWritten<T>(p: Persister, states: map<T, TableState>, live: seq<T>)
    requires forall k :: 0 <= k < |live| ==> live[k] in states && states[live[k]].Full()
    ensures CountEntries(p, states, live) == |Save(p, states, live)|
  {
    match p
    case Noop =>
    case WithComponent(t, next) =>
      IterIsEmpty(t, states, live);
      CountIsWritten(next, states, live);
  }

  /** With nothing staged, the values written are the components of that type, one per entity. */
  ghost predicate Writes(values: seq<(EntityId, Value)>, t: TypeId, m: map<EntityId, Components>) {
    && (forall j, k :: 0 <= j < k < |values| ==> values[j].0 != values[k].0)
    && (forall j :: 0 <= j < |values| ==> values[j].0 in m && t in m[values[j].0] && m[values[j].0][t] == values[j].1)
    && (forall id :: id in m && t in m[id] ==> exists j :: 0 <= j < |values| && values[j].0 == id)
  }

  lemma ValuesAreComponents<T>(t: TypeId, store: Store<T>, archetypes: Archetypes<T>, staging: Archetypes<T>,
                               order: seq<Key>)
    requires store.Agree() && Filed(archetypes, staging, store.tables) && Lists(order, archetypes) && t != UNIT
    requires forall k :: k in staging ==> !Occupied(store.tables, staging, k)
    ensures forall k :: 0 <= k < |InOrder(order, archetypes)| ==> InOrder(order, archetypes)[k] in store.tables
    ensures Writes(PersistedValues(t, store.tables, InOrder(order, archetypes)), t, store.View())
  {
    var q, live, m := PairQuery(t), InOrder(order, archetypes), store.View();
    IterationAgreesWithFetch(q, store, archetypes, staging, order);
    var rows, ids := Iter(q, store.tables, live), Spanned(q, store.tables, live);
    var values := PersistedValues(t, store.tables, live);
    forall id ensures ContainsId(q, store, id) <==> id in m && t in m[id] {
      PairContains(t, store, id);
    }
    forall j | 0 <= j < |values|
      ensures values[j].0 == ids[j] && ids[j] in m && t in m[ids[j]] && m[ids[j]][t] == values[j].1
    {
      assert ids[j] in ids;
      PairFetched(t, store, ids[j]);
    }
    forall id | id in m && t in m[id] ensures exists j :: 0 <= j < |values| && values[j].0 == id {
      assert id in ids;
      var j :| 0 <= j < |ids| && ids[j] == id;
      assert values[j].0 == id;
    }
  }

  lemma PairContains<T>(t: TypeId, store: Store<T>, id: EntityId)
    requires store.Agree() && t != UNIT
    ensures ContainsId(PairQuery(t), store, id) <==> id in store.View() && t in store.View()[id]
  {
    var q := PairQuery(t);
    ViewKeys(store, id);
    if store.index.IsLive(id) {
      var s := store.tables[store.TableOf(id)];
      assert FragmentContains(q.parts[0], s);
      assert Contains(q, s) <==> FragmentContains(q.parts[1], s);
    }
  }

  lemma PairFetched<T>(t: TypeId, store: Store<T>, id: EntityId)
    requires store.Agree() && t != UNIT && ContainsId(PairQuery(t), store, id)
    ensures id in store.View() && t in store.View()[id]
    ensures Fetch(PairQuery(t), store, id).Some?
            && AsPair(Fetch(PairQuery(t), store, id).value) == (id, store.View()[id][t])
  {
    var q := PairQuery(t);
    PairContains(t, store, id);
    ViewKeys(store, id);
    ContainsIsFetch(q, store, id);
    var s, row := store.tables[store.TableOf(id)], store.RowOf(id);
    var r := FetchRow(q, s, row).value;
    assert r[0] == FragmentFetch(q.parts[0], s, row).value && r[1] == FragmentFetch(q.parts[1], s, row).value;
  }

  // ---------------------------------------------------------------- loading, on maps

  function WithValue(m: map<EntityId, Components>, id: EntityId, t: TypeId, v: Value): map<EntityId, Components> {
    m[id := (if id in m then m[id] else map[])[t := v]]
  }

  /** The loop over the values of one entry. */
  ghost function LoadValues(m: map<EntityId, Components>, t: TypeId,
                            values: seq<(EntityId, Value)>): map<EntityId, Components>
    decreases |values|
  {
    if values == [] then m else LoadValues(WithValue(m, values[0].0, t, values[0].1), t, values[1..])
  }

  /** The loop over the entries; a type that is not in the chain is skipped. */
  ghost function LoadEntries(m: map<EntityId, Components>, p: Persister, doc: seq<Section>): map<EntityId, Components>
    decreases |doc|
  {
    if doc == [] then m
    else LoadEntries(if doc[0].t in PersistedTypes(p) then LoadValues(m, doc[0].t, doc[0].values) else m, p, doc[1..])
  }

  /** The entries are loaded one after the other; one of a type that is not in the chain changes nothing. */
  lemma {:induction false} EntriesInOrder(m: map<EntityId, Components>, p: Persister, doc: seq<Section>, s: Section)
    ensures LoadEntries(m, p, []) == m
    ensures LoadEntries(m, p, doc + [s]) ==
            var before := LoadEntries(m, p, doc);
            if s.t in PersistedTypes(p) then LoadValues(before, s.t, s.values) else before
    decreases |doc|
  {
    var all := doc + [s];
    if doc == [] {
      assert all[0] == s && all[1..] == [];
    } else {
      var next := if doc[0].t in PersistedTypes(p) then LoadValues(m, doc[0].t, doc[0].values) else m;
      EntriesInOrder(next, p, doc[1..], s);
      assert all[0] == doc[0] && all[1..] == doc[1..] + [s];
    }
  }

  /** The entities with at least one of the types, reduced to those types. */
  ghost function Persisted(m: map<EntityId, Components>, types: set<TypeId>): map<EntityId, Components> {
    map id | id in m && m[id].Keys * types != {} :: Narrowed(m[id], types)
  }

  function Narrowed(c: Components, types: set<TypeId>): Components {
    map t | t in c && t in types :: c[t]
  }

  lemma PersistedMeans(m: map<EntityId, Components>, types: set<TypeId>, got: map<EntityId, Components>)
    requires got == Persisted(m, types)
    ensures forall id :: id in got <==> id in m && exists t :: t in types && t in m[id]
    ensures forall id, t :: id in got ==> (t in got[id] <==> t in types && t in m[id])
    ensures forall id, t :: id in got && t in got[id] ==> got[id][t] == m[id][t]
  {
    forall id | id in m ensures m[id].Keys * types != {} <==> exists t :: t in types && t in m[id] {
      if t :| t in types && t in m[id] { assert t in m[id].Keys * types; }
    }
  }

  /** Loading the values of one more type. */
  lemma {:induction false} LoadedValues(m: map<EntityId, Components>, t: TypeId, values: seq<(EntityId, Value)>)
    requires forall j, k :: 0 <= j < k < |values| ==> values[j].0 != values[k].0
    ensures forall j :: 0 <= j < |values| ==>
              && values[j].0 in LoadValues(m, t, values)
              && LoadValues(m, t, values)[values[j].0] ==
                   (if values[j].0 in m then m[values[j].0] else map[])[t := values[j].1]
    ensures forall id :: (forall j :: 0 <= j < |values| ==> values[j].0 != id) ==>
              && (id in LoadValues(m, t, values) <==> id in m)
              && (id in m ==> LoadValues(m, t, values)[id] == m[id])
    decreases |values|
  {
    if values != [] {
      var rest, m' := values[1..], WithValue(m, values[0].0, t, values[0].1);
      LoadedValues(m', t, rest);
      var after := LoadValues(m, t, values);
      forall j | 0 <= j < |values|
        ensures values[j].0 in after
                && after[values[j].0] == (if values[j].0 in m then m[values[j].0] else map[])[t := values[j].1]
      {
        if j > 0 { assert rest[j - 1] == values[j]; }
      }
      forall id | forall j :: 0 <= j < |values| ==> values[j].0 != id
        ensures (id in after <==> id in m) && (id in m ==> after[id] == m[id])
      {
        forall j | 0 <= j < |rest| ensures rest[j].0 != id { assert rest[j] == values[j + 1]; }
        assert values[0].0 != id;
      }
    }
  }

  lemma LoadedType(m: map<EntityId, Components>, done: set<TypeId>, t: TypeId, values: seq<(EntityId, Value)>)
    requires Writes(values, t, m)
    ensures LoadValues(Persisted(m, done), t, values) == Persisted(m, done + {t})
  {
    var was, got, wanted := Persisted(m, done), LoadValues(Persisted(m, done), t, values), Persisted(m, done + {t});
    hide LoadValues, Writes, Persisted;
    forall id ensures (id in got <==> id in wanted) && (id in got ==> got[id] == wanted[id]) {
      LoadedAt(m, done, t, values, id);
    }
  }

  /** The same for one entity. */
  lemma LoadedAt(m: map<EntityId, Components>, done: set<TypeId>, t: TypeId, values: seq<(EntityId, Value)>,
                 id: EntityId)
    requires Writes(values, t, m)
    ensures var got, wanted := LoadValues(Persisted(m, done), t, values), Persisted(m, done + {t});
            (id in got <==> id in wanted) && (id in got ==> got[id] == wanted[id])
  {
    hide LoadValues, Persisted, Narrowed;
    LoadedValues(Persisted(m, done), t, values);
    NarrowedMore(m, done, t, id);
    if id in m && t in m[id] {
      var j :| 0 <= j < |values| && values[j].0 == id;
    }
  }

  lemma NarrowedMore(m: map<EntityId, Components>, done: set<TypeId>, t: TypeId, id: EntityId)
    ensures id in m && t in m[id] ==>
              && id in Persisted(m, done + {t})
              && Persisted(m, done + {t})[id] ==
                   (if id in Persisted(m, done) then Persisted(m, done)[id] else map[])[t := m[id][t]]
    ensures !(id in m && t in m[id]) ==>
              && (id in Persisted(m, done + {t}) <==> id in Persisted(m, done))
              && (id in Persisted(m, done) ==> Persisted(m, done + {t})[id] == Persisted(m, done)[id])
  {
    if id in m {
      assert m[id].Keys * (done + {t}) == m[id].Keys * done + m[id].Keys * {t};
      if t in m[id] {
        assert t in m[id].Keys * {t};
        var base := if id in Persisted(m, done) then Persisted(m, done)[id] else map[];
        if id !in Persisted(m, done) { assert forall u :: u in m[id] ==> u !in m[id].Keys * done; }
        assert Narrowed(m[id], done + {t}) == base[t := m[id][t]];
      } else {
        assert m[id].Keys * {t} == {};
        assert Narrowed(m[id], done + {t}) == Narrowed(m[id], done);
      }
    }
  }

  /** The document has, for each type of the chain, the components of that type. */
  ghost predicate Faithful<T>(p: Persister, m: map<EntityId, Components>, states: map<T, TableState>, live: seq<T>)
    requires forall k :: 0 <= k < |live| ==> live[k] in states
  {
    forall t :: t in PersistedTypes(p) ==> Writes(PersistedValues(t, states, live), t, m)
  }

  lemma SavedIsFaithful<T>(p: Persister, store: Store<T>, archetypes: Archetypes<T>, staging: Archetypes<T>,
                           order: seq<Key>)
    requires store.Agree() && Filed(archetypes, staging, store.tables) && Lists(order, archetypes)
             && UNIT !in PersistedTypes(p)
    requires forall k :: k in staging ==> !Occupied(store.tables, staging, k)
    ensures forall k :: 0 <= k < |InOrder(order, archetypes)| ==> InOrder(order, archetypes)[k] in store.tables
    ensures Faithful(p, store.View(), store.tables, InOrder(order, archetypes))
  {
    InOrderIsLive(store.tables, archetypes, staging, order);
    forall t | t in PersistedTypes(p)
      ensures Writes(PersistedValues(t, store.tables, InOrder(order, archetypes)), t, store.View())
    {
      ValuesAreComponents(t, store, archetypes, staging, order);
    }
  }

  /** Loading what a chain wrote adds the types of the chain. */
  lemma {:induction false} LoadedChain<T>(p: Persister, whole: Persister, done: set<TypeId>,
                                          m: map<EntityId, Components>, states: map<T, TableState>, live: seq<T>)
    requires forall k :: 0 <= k < |live| ==> live[k] in states
    requires Faithful(p, m, states, live) && PersistedTypes(p) <= PersistedTypes(whole)
    ensures LoadEntries(Persisted(m, done), whole, Save(p, states, live)) == Persisted(m, done + PersistedTypes(p))
  {
    match p
    case Noop => assert done + PersistedTypes(p) == done;
    case WithComponent(t, next) =>
      var values := PersistedValues(t, states, live);
      LoadedType(m, done, t, values);
      LoadedChain(next, whole, done + {t}, m, states, live);
      assert done + {t} + PersistedTypes(next) == done + PersistedTypes(p);
      var doc, rest := Save(p, states, live), Save(next, states, live);
      if values != [] {
        assert doc[0] == Section(t, values) && doc[1..] == rest;
      } else {
        assert doc == rest;
      }
  }

  /**
    Round trip: loading what was saved gives the entities with a persisted component, under the
    same ids, with exactly those components and values.
   */
  lemma RoundTrip<T>(p: Persister, m: map<EntityId, Components>, states: map<T, TableState>, live: seq<T>)
    requires forall k :: 0 <= k < |live| ==> live[k] in states
    requires Faithful(p, m, states, live)
    ensures LoadEntries(map[], p, Save(p, states, live)) == Persisted(m, PersistedTypes(p))
  {
    assert Persisted(m, {}) == map[];
    assert {} + PersistedTypes(p) == PersistedTypes(p);
    LoadedChain(p, p, {}, m, states, live);
  }

  // ---------------------------------------------------------------- loading, on the heap

  /** The ids of a document. */
  ghost predicate Names(doc: seq<Section>, id: EntityId) {
    exists k, j :: 0 <= k < |doc| && 0 <= j < |doc[k].values| && doc[k].values[j].0 == id
  }

  /** Ids of one index are one id, and all are ids that an index can hold. */
  ghost predicate Loadable(doc: seq<Section>) {
    && (forall a, b :: Names(doc, a) && Names(doc, b) && a.index == b.index ==> a == b)
    && (forall id :: Names(doc, id) ==> id.generation <= GEN_MASK && id.index + 1 < INDEX_MASK)
  }

  /** All allocated ids are live and come from the document. */
  ghost predicate Within(w: World, doc: seq<Section>)
    requires w.Valid()
    reads w, w.entityIds, w.entityIds.entries, w.region.Keys
  {
    Settled(w.entityIds.state) && forall id :: id in w.View() ==> Names(doc, id)
  }

  method Load(p: Persister, doc: seq<Section>) returns (w: World)
    requires Loadable(doc) && UNIT !in PersistedTypes(p)
    ensures w.Valid() && (forall o :: o in w.Repr() ==> fresh(o))
    ensures w.View() == LoadEntries(map[], p, doc) && Settled(w.entityIds.state)
  {
    hide Families.Family, Filed, Coherent, Loadable, Store.Agree, Store.View, EntityTable.Valid;
    w := new World(0);
    FreshSettled<EntityTable>(1);
    assert doc[0..] == doc;
    for k := 0 to |doc|
      invariant w.Valid() && (forall o :: o in w.Repr() ==> fresh(o)) && Within(w, doc)
      invariant LoadEntries(w.View(), p, doc[k..]) == LoadEntries(map[], p, doc)
    {
      assert doc[k..][0] == doc[k] && doc[k..][1..] == doc[k + 1..];
      VisitMapValue(p, doc, k, w);
    }
  }

  /** Finds the persister for the section's type along the chain; there may be none. */
  method VisitMapValue(p: Persister, doc: seq<Section>, k: nat, w: World)
    requires w.Valid() && k < |doc| && Loadable(doc) && Within(w, doc) && UNIT !in PersistedTypes(p)
    modifies w.Repr()
    ensures w.Valid() && (forall o :: o in w.Repr() && o !in old(w.Repr()) ==> fresh(o)) && Within(w, doc)
    ensures w.View() == if doc[k].t in PersistedTypes(p) then LoadValues(old(w.View()), doc[k].t, doc[k].values)
                        else old(w.View())
    decreases p
  {
    match p
    case Noop =>
    case WithComponent(t, next) =>
      if t != doc[k].t {
        VisitMapValue(next, doc, k, w);
      } else {
        InsertValues(doc, k, w);
      }
  }

  /** The loop over the values: neither of the two `unwrap`s can fail. */
  method InsertValues(doc: seq<Section>, k: nat, w: World)
    requires w.Valid() && k < |doc| && Loadable(doc) && Within(w, doc) && doc[k].t != UNIT
    modifies w.Repr()
    ensures w.Valid() && (forall o :: o in w.Repr() && o !in old(w.Repr()) ==> fresh(o)) && Within(w, doc)
    ensures w.View() == LoadValues(old(w.View()), doc[k].t, doc[k].values)
  {
    hide Families.Family, Filed, Coherent, Loadable, Store.Agree, Store.View, EntityTable.Valid, Within, Names;
    hide Queries.GetComponent, WithValue;
    var t, values := doc[k].t, doc[k].values;
    assert values[0..] == values;
    for j := 0 to |values|
      invariant w.Valid() && (forall o :: o in w.Repr() && o !in old(w.Repr()) ==> fresh(o)) && Within(w, doc)
      invariant LoadValues(w.View(), t, values[j..]) == LoadValues(old(w.View()), t, values)
    {
      assert values[j..][0] == values[j] && values[j..][1..] == values[j + 1..];
      InsertValue(doc, k, j, w);
    }
  }

  method InsertValue(doc: seq<Section>, k: nat, j: nat, w: World)
    requires w.Valid() && k < |doc| && j < |doc[k].values| && Loadable(doc) && Within(w, doc) && doc[k].t != UNIT
    modifies w.Repr()
    ensures w.Valid() && (forall o :: o in w.Repr() && o !in old(w.Repr()) ==> fresh(o)) && Within(w, doc)
    ensures w.View() == WithValue(old(w.View()), doc[k].values[j].0, doc[k].t, doc[k].values[j].1)
  {
    hide Families.Family, Filed, Coherent, Loadable, Store.Agree, Store.View, EntityTable.Valid, Settled;
    hide SameAllocator, AsMap;
    var (id, value) := doc[k].values[j];
    assert Names(doc, id);
    EnsureId(doc, id, w);
    Single(doc[k].t, value);
    WithValueIs(old(w.View()), id, doc[k].t, value);
    ghost var before := w.entityIds.state;
    var _ := w.SetBundle(id, [(doc[k].t, value)]);
    SameSettles(before, w.entityIds.state);
  }

  lemma WithValueIs(m: map<EntityId, Components>, id: EntityId, t: TypeId, v: Value)
    ensures var e := if id in m then m else m[id := map[]];
            e[id := e[id] + map[t := v]] == WithValue(m, id, t, v)
  {
    var e := if id in m then m else m[id := map[]];
    assert e[id] + map[t := v] == e[id][t := v];
  }

  /** `if !is_id_valid(id) { insert_id(id).unwrap() }`. */
  method EnsureId(doc: seq<Section>, id: EntityId, w: World)
    requires w.Valid() && Loadable(doc) && Within(w, doc) && Names(doc, id)
    modifies w.Repr()
    ensures w.Valid() && (forall o :: o in w.Repr() && o !in old(w.Repr()) ==> fresh(o)) && Within(w, doc)
    ensures id in w.View() && w.View() == if id in old(w.View()) then old(w.View()) else old(w.View())[id := map[]]
  {
    hide Families.Family, Filed, Coherent, Store.Agree, Store.View, EntityTable.Valid, Names;
    ViewKeys(w.Content(), id);
    if !w.entityIds.IsValid(id) {
      SlotIsFree(doc, id, w);
      var inserted := w.InsertId(id);
      assert inserted.Ok?;
    }
  }

  /** An id of the document that is not live yet finds its slot free. */
  lemma SlotIsFree(doc: seq<Section>, id: EntityId, w: World)
    requires w.Valid() && Loadable(doc) && Within(w, doc) && Names(doc, id) && !w.entityIds.state.IsLive(id)
    ensures id.index >= |w.entityIds.state.slots| || w.entityIds.state.slots[id.index].use.Free?
  {
    hide Families.Family, Filed, Coherent, Store.Agree, Store.View, EntityTable.Valid, Names;
    var s := w.entityIds.state;
    if id.index < |s.slots| && s.slots[id.index].use.Live? {
      ViewKeys(w.Content(), EntityId(id.index, s.slots[id.index].generation));
    }
  }

  lemma SameSettles<T>(a: Slots<T>, b: Slots<T>)
    requires SameAllocator(a, b)
    ensures Settled(a) ==> Settled(b)
  {
  }

  lemma FreshSettled<T>(cap: nat)
    ensures Settled(Fresh<T>(cap))
  {
  }

  // ---------------------------------------------------------------- the round trip of a world

  /** What a world writes, its archetypes taken in the order of their keys. */
  ghost function Saved(p: Persister, w: World, order: seq<Key>): seq<Section>
    requires w.Valid() && Lists(order, w.archetypes)
    reads w, w.entityIds, w.entityIds.entries, w.region.Keys
  {
    InOrderIsLive(w.Content().tables, w.archetypes, w.staging, order);
    Save(p, w.Content().tables, InOrder(order, w.archetypes))
  }

  /** What a world writes can be loaded: ids of one index are one id, and all fit an index. */
  lemma SavedIsCoherent(p: Persister, w: World, order: seq<Key>)
    requires w.Valid() && Lists(order, w.archetypes) && w.NothingStaged() && UNIT !in PersistedTypes(p)
    ensures Loadable(Saved(p, w, order))
  {
    var doc, m := Saved(p, w, order), w.View();
    InOrderIsLive(w.Content().tables, w.archetypes, w.staging, order);
    SavedIsFaithful(p, w.Content(), w.archetypes, w.staging, order);
    WrittenIds(p, m, w.Content().tables, InOrder(order, w.archetypes));
    forall id | Names(doc, id)
      ensures w.entityIds.state.IsLive(id) && id.generation <= GEN_MASK && id.index + 1 < INDEX_MASK
    {
      ViewKeys(w.Content(), id);
    }
  }

  lemma {:induction false} WrittenIds<T>(p: Persister, m: map<EntityId, Components>, states: map<T, TableState>,
                                         live: seq<T>)
    requires forall k :: 0 <= k < |live| ==> live[k] in states
    requires Faithful(p, m, states, live)
    ensures forall id :: Names(Save(p, states, live), id) ==> id in m
  {
    hide Names, PersistedValues;
    match p
    case Noop => NamesNothing();
    case WithComponent(t, next) =>
      WrittenIds(next, m, states, live);
      var values, rest := PersistedValues(t, states, live), Save(next, states, live);
      forall id | Names([Section(t, values)] + rest, id) && !Names(rest, id) ensures id in m {
        NamesHead(t, values, rest, id);
      }
      assert values == [] ==> Save(p, states, live) == rest;
  }

  lemma NamesNothing()
    ensures forall id :: !Names([], id)
  {
  }

  lemma NamesHead(t: TypeId, values: seq<(EntityId, Value)>, rest: seq<Section>, id: EntityId)
    requires Names([Section(t, values)] + rest, id)
    ensures Names(rest, id) || exists j :: 0 <= j < |values| && values[j].0 == id
  {
    var doc := [Section(t, values)] + rest;
    var k, j :| 0 <= k < |doc| && 0 <= j < |doc[k].values| && doc[k].values[j].0 == id;
    if k > 0 {
      assert rest[k - 1].values[j].0 == id;
    }
  }

  /**
    A world in which nothing is staged is saved and loaded: the new world has the entities with a
    persisted component, under the same index and generation, with exactly those components.
   */
  method Reload(p: Persister, w: World, ghost order: seq<Key>, doc: seq<Section>) returns (copy: World)
    requires w.Valid() && Lists(order, w.archetypes) && w.NothingStaged() && UNIT !in PersistedTypes(p)
    requires doc == Saved(p, w, order)
    ensures copy.Valid() && (forall o :: o in copy.Repr() ==> fresh(o))
    ensures copy.View() == Persisted(old(w.View()), PersistedTypes(p)) && Settled(copy.entityIds.state)
    ensures var m, types := old(w.View()), PersistedTypes(p);
            && (forall id :: id in copy.View() <==> id in m && exists t :: t in types && t in m[id])
            && (forall id, t :: id in copy.View() ==> (t in copy.View()[id] <==> t in types && t in m[id]))
            && forall id, t :: id in copy.View() && t in copy.View()[id] ==> copy.View()[id][t] == m[id][t]
  {
    hide Loadable, Coherent, Families.Family, Filed, Store.Agree, Store.View, Persisted, Save, Lists, InOrder;
    hide Faithful;
    SavedIsCoherent(p, w, order);
    SavedIsFaithful(p, w.Content(), w.archetypes, w.staging, order);
    RoundTrip(p, w.View(), w.Content().tables, InOrder(order, w.archetypes));
    ghost var m := w.View();
    copy := Load(p, doc);
    PersistedMeans(m, PersistedTypes(p), copy.View());
  }
}
