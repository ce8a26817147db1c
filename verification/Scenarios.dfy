/**
  Runs of a world, from the empty one on, in which what an operation promises is not what comes of
  it: entities that the sweep, a copy or `vacuum` lose, and a merge that breaks the world.
 */
module Scenarios {
  import opened Wrappers
  import opened TypeIds
  import opened EntityIds
  import opened EntityIndexes
  import opened Tables
  import opened Stores
  import opened Merges
  import opened Filings
  import opened Layouts
  import opened Families
  import opened Worlds
  import opened Effects
  import opened Commands

  // ---------------------------------------------------------------- room for a few entities

  lemma FewFit<T>(s: Slots<T>)
    requires 1 <= |s.slots| < 1000
    ensures s.CanAllocate()
  {
    GrowTargetGrows(|s.slots|);
  }

  lemma InsertSize<T>(s: Slots<T>, id: EntityId, after: Slots<T>)
    requires Inserts(s, id, after)
    ensures 1 <= |after.slots| <= 2 * |s.slots| + 2
  {
    GrowTargetGrows(|s.slots|);
    assert |Forget(after).slots| == |Refilled(s).slots|;
  }

  lemma SameSize<T>(a: Slots<T>, b: Slots<T>)
    requires SameAllocator(a, b)
    ensures |a.slots| == |b.slots|
  {
  }

  // ---------------------------------------------------------------- where things are

  lemma NothingStagedIsCalm(w: World)
    requires w.staging == map[]
    ensures w.Calm()
  {
  }

  lemma WithoutEntities(w: World)
    requires w.Valid() && w.View() == map[]
    ensures forall t :: t in w.tables ==> Snapshot(w.tables)[t].entities == []
  {
    hide Family, Filed, Coherent, Store.EntriesNameRows, Slots.WellFormed;
    forall t | t in w.tables && Snapshot(w.tables)[t].entities != [] ensures false {
      ViewKeys(w.Content(), Snapshot(w.tables)[t].entities[0]);
    }
  }

  /** With no entity anywhere, the sweep stages every archetype but the void one. */
  lemma SweptIdle<T>(archetypes: Archetypes<T>, states: map<T, TableState>)
    requires Filed(archetypes, map[], states) && forall t :: t in states ==> states[t].entities == []
    ensures SweptArchetypes(archetypes, map[], states).Keys == {VOID_TY}
    ensures SweptStaging(archetypes, map[], states).Keys == archetypes.Keys - {VOID_TY}
  {
    assert OccupiedKeys(states, map[]) == {};
    assert Promoted(archetypes, map[], states) == archetypes;
    assert Idle(archetypes, states) == archetypes.Keys - {VOID_TY};
  }

  lemma Placed(w: World, id: EntityId)
    requires w.Valid() && id in w.View()
    ensures var key, t := w.View()[id].Keys, w.Content().TableOf(id);
            && w.entityIds.state.IsLive(id) && t in w.tables && t.ty == key && t.state.ty == key
            && t.state.entities != []
  {
    hide Family, Filed, Coherent, Store.Agree;
    ViewKeys(w.Content(), id);
    w.Home(id);
  }

  /** An entity whose type has no live archetype is in a staging archetype. */
  lemma StagedHere(w: World, id: EntityId)
    requires w.Valid() && id in w.View() && w.View()[id].Keys !in w.archetypes
    ensures Occupied(Snapshot(w.tables), w.staging, w.View()[id].Keys) && id in w.Aside()
  {
    hide Family, Coherent, Store.Agree, Store.View;
    Placed(w, id);
    InSnapshot(w.tables, w.Content().TableOf(id));
    Seated(w.Content(), w.archetypes, w.staging, id);
  }

  /** The staging archetype that is not calm has the key of a live archetype with rows. */
  lemma ShadowedBy(w: World, id: EntityId, key: Key)
    requires w.Valid() && !w.Calm() && w.staging.Keys == {key} && id in w.View() && w.InArchetype(id, key)
    ensures !w.Unshadowed()
  {
    hide Family, Filed, Coherent, Store.Agree, Store.View, Occupied;
    Placed(w, id);
    InSnapshot(w.tables, w.Content().TableOf(id));
    assert Occupied(Snapshot(w.tables), w.archetypes, key) by { OccupiedBy(Snapshot(w.tables), w.archetypes, key); }
  }

  lemma OccupiedBy<T>(states: map<T, TableState>, m: Archetypes<T>, key: Key)
    requires key in m && m[key] in states && states[m[key]].entities != []
    ensures Occupied(states, m, key)
  {
  }

  // ---------------------------------------------------------------- the steps of the runs

  /** The world is whole and stands for `m`. */
  ghost predicate StandsFor(w: World, m: map<EntityId, Components>)
    reads w, w.entityIds, w.entityIds.entries, w.region.Keys
  {
    w.Valid() && w.View() == m
  }

  /** A new entity with one component. */
  method Spawn(w: World, ghost m: map<EntityId, Components>, x: TypeId, v: Value) returns (id: EntityId)
    requires StandsFor(w, m) && x != UNIT && |w.entityIds.state.slots| < 1000
    modifies w.Repr()
    ensures StandsFor(w, m[id := map[x := v]]) && id !in m
    ensures forall o :: o in w.Repr() && o !in old(w.Repr()) ==> fresh(o)
    ensures |w.entityIds.state.slots| <= 2 * |old(w.entityIds.state).slots| + 2
    ensures w.staging == old(w.staging) && Extends(old(w.archetypes), w.archetypes, {{x}} - w.staging.Keys)
    ensures old(w.Calm()) ==> w.Calm()
  {
    hide Family, Filed, Coherent, Store.Agree, Store.View, Filings.Calm, Inserts, SameAllocator;
    Sized(w);
    FewFit(w.entityIds.state);
    id := w.InsertEntity();
    InsertSize(old(w.entityIds.state), id, w.entityIds.state);
    ghost var slots := w.entityIds.state;
    Single(x, v);
    Alone(m, id, x, v);
    var _ := w.SetBundle(id, [(x, v)]);
    SameSize(slots, w.entityIds.state);
  }

  lemma Sized(w: World)
    requires w.Valid()
    ensures 1 <= |w.entityIds.state.slots|
  {
  }

  lemma Alone(m: map<EntityId, Components>, id: EntityId, x: TypeId, v: Value)
    ensures m[id := map[]][id := map[] + map[x := v]] == m[id := map[x := v]]
    ensures map[x := v].Keys == {x}
  {
    assert map[] + map[x := v] == map[x := v];
  }

  /** The last entity goes. */
  method Clear(w: World, ghost m: map<EntityId, Components>, id: EntityId)
    requires StandsFor(w, m) && m.Keys == {id}
    modifies w.Repr()
    ensures StandsFor(w, map[]) && forall o :: o in w.Repr() ==> o in old(w.Repr())
    ensures |w.entityIds.state.slots| == |old(w.entityIds.state.slots)|
    ensures w.archetypes == old(w.archetypes) && w.staging == old(w.staging)
  {
    hide Family, Filed, Coherent, Store.Agree, Store.View, SameAllocator;
    DropsTo(m, id);
    ghost var slots := w.entityIds.state;
    var _ := w.DeleteEntity(id);
    SameSize(slots.Release(id), w.entityIds.state);
  }

  /** The sweep of a world without entities. */
  method SweepIdle(w: World)
    requires StandsFor(w, map[]) && w.staging == map[]
    modifies w
    ensures StandsFor(w, map[]) && w.Calm() && w.Repr() == old(w.Repr()) && w.entityIds == old(w.entityIds)
    ensures w.archetypes.Keys == {VOID_TY} && w.staging.Keys == old(w.archetypes).Keys - {VOID_TY}
  {
    hide Family, Filed, Coherent, Store.Agree, Store.View, Filings.Calm, SweptArchetypes, SweptStaging;
    NothingStagedIsCalm(w);
    WithoutEntities(w);
    InFiling(w);
    SweptIdle(w.archetypes, Snapshot(w.tables));
    w.Sweep();
  }

  lemma InFiling(w: World)
    requires w.Valid()
    ensures Filed<EntityTable>(w.archetypes, w.staging, Snapshot(w.tables)) && Snapshot(w.tables).Keys == w.tables
  {
    hide Family, Filed, Coherent, Store.Agree;
  }

  /** A world of one staging archetype without rows, for the type `x`. */
  method StageType(x: TypeId, v: Value) returns (w: World)
    requires x != UNIT
    ensures StandsFor(w, map[]) && w.Calm() && fresh(w) && forall o :: o in w.Repr() ==> fresh(o)
    ensures w.archetypes.Keys == {VOID_TY} && w.staging.Keys == {{x}}
    ensures |w.entityIds.state.slots| <= 4
  {
    hide Family, Filed, Coherent, Store.Agree, Store.View, Filings.Calm;
    w := new World(1);
    assert |w.entityIds.state.slots| == 1;
    var id := Spawn(w, map[], x, v);
    Clear(w, map[id := map[x := v]], id);
    SweepIdle(w);
  }

  lemma DropsTo(m: map<EntityId, Components>, id: EntityId)
    requires m.Keys == {id}
    ensures m - {id} == map[]
  {
  }

  // ---------------------------------------------------------------- rows in staging

  /**
    A second entity of a staged type is put into the staging archetype. That is the state in which
    `apply_commands` returns if a later command of the same buffer fails, since it skips the sweep.
   */
  method StageEntity(x: TypeId, v: Value) returns (w: World, id: EntityId)
    requires x != UNIT
    ensures StandsFor(w, map[id := map[x := v]]) && w.Calm() && !w.NothingStaged()
    ensures fresh(w) && forall o :: o in w.Repr() ==> fresh(o)
    ensures w.archetypes.Keys == {VOID_TY} && w.staging.Keys == {{x}} && id in w.Aside()
    ensures |w.entityIds.state.slots| <= 10
  {
    hide Family, Filed, Coherent, Store.Agree, Store.View, Filings.Calm, Occupied;
    w := StageType(x, v);
    id := Spawn(w, map[], x, v);
    Alone(map[], id, x, v);
    StagedHere(w, id);
  }

  /** A copy of that world has the id, and no table for it. */
  method CloneLosesEntity(x: TypeId, v: Value) returns (w: World, copy: World, id: EntityId)
    requires x != UNIT
    ensures StandsFor(w, map[id := map[x := v]]) && w.Calm()
    ensures copy.Structure() && copy.archetypes.Keys == w.archetypes.Keys && copy.staging == map[]
    ensures SameAllocator(w.entityIds.state, copy.entityIds.state) && copy.Lost(id) && !copy.Valid()
  {
    hide Family, Filed, Coherent, Store.Agree, Store.View, Filings.Calm, Occupied, SameAllocator;
    w, id := StageEntity(x, v);
    copy := w.Clone();
  }

  /** Clearing the staging archetypes of that world leaves the id without a table. */
  method VacuumLosesEntity(x: TypeId, v: Value) returns (w: World, id: EntityId)
    requires x != UNIT
    ensures w.Structure() && w.archetypes.Keys == {VOID_TY} && w.staging == map[] && w.Lost(id) && !w.Valid()
  {
    hide Family, Filed, Coherent, Store.Agree, Store.View, Filings.Calm, Occupied;
    w, id := StageEntity(x, v);
    w.Vacuum();
  }

  // ---------------------------------------------------------------- rows under one key in both maps

  /**
    A third entity gets the components `x` and `y`, and `y` is taken off again: `remove_component`
    looks for its target among the live archetypes only and makes a new one, in front of the staged
    one. `BufferLosesEntity` does the like within one `apply_commands`.
   */
  method ShadowEntity(x: TypeId, y: TypeId, v: Value) returns (w: World, id: EntityId, other: EntityId)
    requires x != UNIT && y != UNIT && x != y
    ensures id != other && StandsFor(w, map[id := map[x := v], other := map[x := v]]) && !w.Unshadowed()
    ensures fresh(w) && (forall o :: o in w.Repr() ==> fresh(o))
    ensures id in w.Aside() && other !in w.Aside()
  {
    hide Family, Filed, Coherent, Store.Agree, Store.View, Filings.Calm, Occupied, NoneShadowed, StandsFor;
    hide World.Valid, Residents, World.Aside;
    w, id := StageEntity(x, v);
    ghost var one := map[id := map[x := v]];
    other := Spawn(w, one, y, v);
    ghost var two := one[other := map[y := v]];
    Extend(w, two, other, x, y, v);
    Pair(x, y, v);
    Alone(map[], id, x, v);
    ghost var three := two[other := map[y := v, x := v]];
    ShadowMap(id, other, x, y, v);
    Narrow(w, three, id, other, x, y);
  }

  lemma ShadowMap(id: EntityId, other: EntityId, x: TypeId, y: TypeId, v: Value)
    requires x != y && id != other
    ensures var three := map[id := map[x := v]][other := map[y := v]][other := map[y := v, x := v]];
            && three[id].Keys == {x} && three[other].Keys == {x, y}
            && three[other := three[other] - {y}] == map[id := map[x := v], other := map[x := v]]
  {
    assert map[y := v, x := v] - {y} == map[x := v];
  }

  method Extend(w: World, ghost m: map<EntityId, Components>, id: EntityId, x: TypeId, y: TypeId, v: Value)
    requires id in m && m[id] == map[y := v] && x != UNIT && x != y
    requires StandsFor(w, m) && w.Calm()
    modifies w.Repr()
    ensures StandsFor(w, m[id := map[y := v, x := v]]) && w.Calm()
    ensures forall o :: o in w.Repr() && o !in old(w.Repr()) ==> fresh(o)
    ensures w.staging == old(w.staging) && Extends(old(w.archetypes), w.archetypes, {{x, y}} - w.staging.Keys)
  {
    hide Family, Filed, Coherent, Store.Agree, Store.View, Filings.Calm;
    Single(x, v);
    Pair(x, y, v);
    var _ := w.SetBundle(id, [(x, v)]);
  }

  /** The new archetype that the narrowed entity goes to is in front of the staged one of `id`. */
  method Narrow(w: World, ghost m: map<EntityId, Components>, id: EntityId, other: EntityId, x: TypeId, y: TypeId)
    requires id in m && other in m && id != other && x != y && y != UNIT && m[id].Keys == {x} && m[other].Keys == {x, y}
    requires StandsFor(w, m) && w.Calm()
    requires w.staging.Keys == {{x}} && {x} !in w.archetypes
    modifies w.Repr()
    ensures StandsFor(w, m[other := m[other] - {y}]) && !w.Unshadowed()
    ensures forall o :: o in w.Repr() && o !in old(w.Repr()) ==> fresh(o)
    ensures id in w.Aside() && other !in w.Aside()
  {
    hide Family, Filed, Coherent, Store.Agree, Store.View, Filings.Calm, Occupied, NoneShadowed, Residents;
    StagedHere(w, id);
    Placed(w, other);
    HiddenBy(w, other, x, y);
    var _ := w.RemoveComponent(other, y);
    ShadowedBy(w, other, {x});
  }

  lemma HiddenBy(w: World, id: EntityId, x: TypeId, y: TypeId)
    requires w.Valid() && id in w.View() && w.View()[id].Keys == {x, y} && x != y && y != UNIT
    requires {x} !in w.archetypes && Occupied(Snapshot(w.tables), w.staging, {x})
    ensures w.entityIds.state.IsLive(id) && w.Hidden(w.entityIds.state.slots[id.index].use.table, y)
    ensures (w.View()[id] - {y}).Keys == {x}
  {
    hide Family, Filed, Coherent, Store.Agree, Store.View, Occupied;
    Placed(w, id);
    assert Xor({x, y}, HashTy(y)) == {x};
    assert (w.View()[id] - {y}).Keys == w.View()[id].Keys - {y};
  }

  lemma Pair(x: TypeId, y: TypeId, v: Value)
    requires x != y
    ensures map[y := v] + map[x := v] == map[y := v, x := v] && map[y := v, x := v].Keys == {x, y}
  {
  }

  /** The sweep then drops the table of the second of the two. */
  method SweepLosesEntity(x: TypeId, y: TypeId, v: Value)
    returns (w: World, kept: EntityId, lost: EntityId,
             ghost before: Store<EntityTable>,
             ghost live: Archetypes<EntityTable>, ghost staged: Archetypes<EntityTable>)
    requires x != UNIT && y != UNIT && x != y
    ensures kept != lost && before.Agree() && before.View() == map[kept := map[x := v], lost := map[x := v]]
    ensures w.Structure() && w.IsSweepOf(before, live, staged) && w.Lost(lost) && !w.Lost(kept) && !w.Valid()
  {
    hide Family, Filed, Coherent, Store.Agree, Store.View, NoneShadowed, Residents, IsLost;
    w, kept, lost := ShadowEntity(x, y, v);
    before, live, staged := w.Content(), w.archetypes, w.staging;
    OneOvertaken(w.Seating(), w.View(), kept, lost);
    w.Sweep();
  }

  lemma OneOvertaken(l: Layout, view: map<EntityId, Components>, a: EntityId, b: EntityId)
    requires a in view && b in view && view[a].Keys == view[b].Keys && a in l.aside && b !in l.aside
    ensures l.Overtaken(view, b) && !l.Overtaken(view, a) && !l.Apart(view)
  {
  }

  // ---------------------------------------------------------------- the same in one buffer

  /** Inserts an entity with one component. */
  function Adds(x: TypeId, v: Value): Command {
    Command(Action.Insert, [Put([(x, v)])])
  }

  /** Inserts an entity with two components, and takes the first one off again. */
  function AddsAndTakes(y: TypeId, x: TypeId, v: Value): Command {
    Command(Action.Insert, [Put([(y, v)]), Put([(x, v)]), Take(y)])
  }

  /** The id of the next insertion is new, and there is room for a few more. */
  lemma NextIsNew(w: Outside)
    requires w.Valid() && |w.ids.slots| < 1000
    ensures Possible(w, Action.Insert) && 1 <= |w.ids.slots| && Refilled(w.ids).free != []
    ensures Refilled(w.ids).free[0] < |Refilled(w.ids).slots|
    ensures Refilled(w.ids).NextId() !in w.view && Refilled(w.ids).NextId() !in w.layout.aside
    ensures |Refilled(w.ids).slots| <= 2 * |w.ids.slots| + 2
  {
    FewFit(w.ids);
    GrowTargetGrows(|w.ids.slots|);
    RefilledHasFree(w.ids);
    NextIsFree(w.ids);
  }

  lemma OnePart(l: Layout, id: EntityId, c: Components, a: Part)
    ensures Dressed(c, [a]) == Step(c, a) && Relaid(l, id, c, [a]) == Shifted(l, id, c, a)
  {
    assert [a][..1] == [a];
    DressedStep(l, id, c, [a], 0);
  }

  lemma ThreeParts(l: Layout, id: EntityId, a: Part, b: Part, c: Part)
    ensures var (p, q) := (Step(map[], a), Step(Step(map[], a), b));
            && Dressed(map[], [a, b, c]) == Step(q, c)
            && Relaid(l, id, map[], [a, b, c]) == Shifted(Shifted(Shifted(l, id, map[], a), id, p, b), id, q, c)
  {
    hide Step, Shifted;
    var parts := [a, b, c];
    assert parts[..3] == parts && parts[..2] == [a, b] && parts[..1] == [a];
    OnePart(l, id, map[], a);
    DressedStep(l, id, map[], parts, 1);
    DressedStep(l, id, map[], parts, 2);
  }

  /** An insertion puts an entity of a staged type into staging. */
  lemma AddsAside(w: Outside, x: TypeId, v: Value)
    requires w.Valid() && |w.ids.slots| < 1000 && x != UNIT && {x} in w.layout.staged && {x} !in w.layout.live
    ensures Possible(w, Adds(x, v).action) && 1 <= |w.ids.slots| && Refilled(w.ids).free != []
    ensures Refilled(w.ids).free[0] < |Refilled(w.ids).slots|
    ensures var (o, id) := (Applied(w, Adds(x, v)), Refilled(w.ids).NextId());
            && o.r.Ok? && id !in w.view && o.after.view == w.view[id := map[x := v]]
            && o.after.layout == Layout(w.layout.live, w.layout.staged, w.layout.aside + {id})
            && |o.after.ids.slots| <= 2 * |w.ids.slots| + 2
  {
    NextIsNew(w);
    hide Outside.Valid, Slots.WellFormed, AsMap, NoUnit;
    Single(x, v);
    var none: Components := map[];
    var put := Put([(x, v)]);
    assert Step(none, put) == map[x := v] && map[x := v].Keys == {x} && none.Keys == {};
    hide Step, Dressed, Relaid, Slots.Place, Slots.Allocate;
    OnePart(w.layout, Refilled(w.ids).NextId(), none, put);
    assert {{x}} - w.layout.staged == {} && w.layout.live + {} == w.layout.live;
  }

  /** The other insertion makes a live archetype of the type that it ends with. */
  lemma AddsLive(w: Outside, y: TypeId, x: TypeId, v: Value)
    requires w.Valid() && |w.ids.slots| < 1000 && x != UNIT && y != UNIT && x != y
    ensures Possible(w, AddsAndTakes(y, x, v).action) && 1 <= |w.ids.slots| && Refilled(w.ids).free != []
    ensures Refilled(w.ids).free[0] < |Refilled(w.ids).slots|
    ensures var (o, id) := (Applied(w, AddsAndTakes(y, x, v)), Refilled(w.ids).NextId());
            && o.r.Ok? && id !in w.view && o.after.view == w.view[id := map[x := v]]
            && o.after.layout.aside == w.layout.aside
  {
    NextIsNew(w);
    hide Outside.Valid, Slots.WellFormed, AsMap, NoUnit;
    Single(x, v);
    Single(y, v);
    Pair(x, y, v);
    var none: Components := map[];
    var (a, b, c) := (Put([(y, v)]), Put([(x, v)]), Take(y));
    ThreeParts(w.layout, Refilled(w.ids).NextId(), a, b, c);
    assert Step(none, a) == map[y := v];
    assert Step(map[y := v], b) == map[y := v, x := v];
    assert map[y := v, x := v] - {y} == map[x := v];
  }

  lemma Next(w: Outside, cs: seq<Command>)
    requires w.Valid() && cs != [] && Possible(w, cs[0].action) && Applied(w, cs[0]).r.Ok?
    ensures var after := Applied(w, cs[0]).after;
            && after.Valid()
            && (CanPlay(after, cs[1..]) ==> CanPlay(w, cs) && Played(w, cs) == Played(after, cs[1..]))
            && CanPlay(after, []) && Played(after, []) == Outcome(Ok(()), after)
  {
    hide Applied, Possible, Outside.Valid;
    AppliedValid(w, cs[0]);
  }

  /** Played on a world without entities that has a staging archetype for `x`, the two lose the second entity. */
  lemma BufferLoses(w: Outside, x: TypeId, y: TypeId, v: Value)
    requires w.Valid() && |w.ids.slots| <= 4 && w.view == map[] && w.layout == Layout({VOID_TY}, {{x}}, {})
    requires x != UNIT && y != UNIT && x != y
    ensures CanPlay(w, [Adds(x, v), AddsAndTakes(y, x, v)])
    ensures var o := Played(w, [Adds(x, v), AddsAndTakes(y, x, v)]);
            && o.r.Ok? && exists a, b :: a != b && o.after.view == map[a := map[x := v], b := map[x := v]]
                                      && o.after.layout.aside == {a}
  {
    var first, second := Adds(x, v), AddsAndTakes(y, x, v);
    AddsAside(w, x, v);
    AppliedValid(w, first);
    var mid := Applied(w, first).after;
    AddsLive(mid, y, x, v);
    AppliedValid(mid, second);
    var (a, b) := (Refilled(w.ids).NextId(), Refilled(mid.ids).NextId());
    hide Outside.Valid, Slots.WellFormed, Applied, Possible, Refilled, Slots.NextId, Adds, AddsAndTakes;
    Next(w, [first, second]);
    Next(mid, [second]);
    var after := Applied(mid, second).after;
    assert after.view == map[a := map[x := v], b := map[x := v]] && after.layout.aside == {a};
  }

  /** One `apply_commands` with two insertions, both of which succeed, on a world without entities. */
  method BufferLosesEntity(x: TypeId, y: TypeId, v: Value)
    returns (w: World, r: Result<(), WorldError>, ghost kept: EntityId, ghost lost: EntityId)
    requires x != UNIT && y != UNIT && x != y
    ensures r.Ok? && kept != lost && w.Structure() && w.Lost(lost) && !w.Lost(kept) && !w.Valid()
  {
    hide Family, Filed, Coherent, Store.Agree, Store.View, Filings.Calm, CanPlay, Played, OutsideOf, Outside.Valid;
    hide Layout.Apart, Layout.Overtaken, IsLost, Adds, AddsAndTakes, World.Valid, World.IsSweepOf;
    w := StageType(x, v);
    var cs, values := Buffer(x, y, v);
    kept, lost := Foreseen(w, x, y, v);
    OneOvertaken(Played(OutsideOf(w), values).after.layout, Played(OutsideOf(w), values).after.view, kept, lost);
    ghost var live, store;
    r, live, store := ApplyCommands(w, cs, values);
  }

  method Buffer(x: TypeId, y: TypeId, v: Value) returns (cs: seq<EntityCommands>, ghost values: seq<Command>)
    requires x != UNIT && y != UNIT
    ensures values == [Adds(x, v), AddsAndTakes(y, x, v)] && Listed(cs, values) && AllSound(cs)
    ensures forall k :: 0 <= k < |cs| ==> fresh(cs[k])
  {
    hide AsMap, NoUnit;
    Single(x, v);
    Single(y, v);
    var adds := new EntityCommands(Action.Insert, [Put([(x, v)])]);
    var takes := new EntityCommands(Action.Insert, [Put([(y, v)]), Put([(x, v)]), Take(y)]);
    cs, values := [adds, takes], [Adds(x, v), AddsAndTakes(y, x, v)];
  }

  lemma Foreseen(w: World, x: TypeId, y: TypeId, v: Value) returns (kept: EntityId, lost: EntityId)
    requires StandsFor(w, map[]) && w.archetypes.Keys == {VOID_TY} && w.staging.Keys == {{x}}
             && |w.entityIds.state.slots| <= 4
    requires x != UNIT && y != UNIT && x != y
    ensures OutsideOf(w).Valid() && CanPlay(OutsideOf(w), [Adds(x, v), AddsAndTakes(y, x, v)]) && kept != lost
    ensures var o := Played(OutsideOf(w), [Adds(x, v), AddsAndTakes(y, x, v)]);
            && o.r.Ok? && o.after.view == map[kept := map[x := v], lost := map[x := v]]
            && o.after.layout.aside == {kept}
  {
    hide Family, Filed, Coherent, Store.Agree, Store.View, CanPlay, Played, Adds, AddsAndTakes;
    OutsideValid(w);
    assert OutsideOf(w).layout.aside == {};
    BufferLoses(OutsideOf(w), x, y, v);
    var after := Played(OutsideOf(w), [Adds(x, v), AddsAndTakes(y, x, v)]).after;
    var a, b :| a != b && after.view == map[a := map[x := v], b := map[x := v]] && after.layout.aside == {a};
    kept, lost := a, b;
  }

  // ---------------------------------------------------------------- a merge within one type

  /** Merging two entities of one type, in a world of nobody else, breaks the agreement of index and tables. */
  method MergeBreaks(x: TypeId, v: Value, u: Value)
    returns (w: World, lhs: EntityId, rhs: EntityId, ghost before: Store<EntityTable>)
    requires x != UNIT
    ensures lhs != rhs && before.Agree() && before.View() == map[lhs := map[x := v], rhs := map[x := u]]
    ensures RowsInRange(before, lhs, rhs) && w.Content() == SwapMerge(before, lhs, rhs)
    ensures w.Structure() && !w.Valid()
  {
    hide Family, Filed, Coherent, Store.Agree, Store.View, Filings.Calm, SwapMerge, RowsInRange;
    w := new World(1);
    NothingStagedIsCalm(w);
    lhs := Spawn(w, map[], x, v);
    rhs := Spawn(w, map[lhs := map[x := v]], x, u);
    Alone(map[], lhs, x, v);
    Alone(map[], rhs, x, u);
    BreaksHere(w, lhs, rhs);
    before := w.Content();
    var _ := w.MergeEntities(lhs, rhs);
  }

  lemma BreaksHere(w: World, lhs: EntityId, rhs: EntityId)
    requires w.Valid() && w.Calm() && lhs in w.View() && rhs in w.View() && lhs != rhs
    requires w.View()[lhs].Keys == w.View()[rhs].Keys
    ensures w.SameType(lhs, rhs) && RowsInRange(w.Content(), lhs, rhs) && !SwapMerge(w.Content(), lhs, rhs).Agree()
  {
    hide Family, Filed, Coherent, Store.Agree, Store.View, Filings.Calm, SwapMerge, RowsInRange;
    Placed(w, lhs);
    Placed(w, rhs);
    CalmSwapBreaks(w.Content(), w.archetypes, w.staging, lhs, rhs);
  }
}
