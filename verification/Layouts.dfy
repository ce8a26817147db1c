/**
  In which archetype each entity is, without the tables: the keys of the two maps of archetypes,
  and the entities that are in staging. Every operation, and the sweep, can be followed on that.
 */
module Layouts {
  import opened TypeIds
  import opened EntityIds
  import opened EntityIndexes
  import opened Tables
  import opened Stores
  import opened Merges
  import opened Filings

  datatype Layout = Layout(live: set<Key>, staged: set<Key>, aside: set<EntityId>) {

    /** Every entity is in the archetype of its type, in the one map or in the other. */
    ghost predicate Seats(view: map<EntityId, Components>) {
      && VOID_TY in live && aside <= view.Keys
      && forall id :: id in view ==> view[id].Keys in (if id in aside then staged else live)
    }

    /** `set_bundle`: a new type is looked up among the live archetypes, then among the staging ones, and then made. */
    function Widened(id: EntityId, before: Key, after: Key): Layout {
      Layout(live + ({after} - staged), staged,
             if after == before then aside else Joining(aside, id, after in staged && after !in live))
    }

    /** `remove_component`: the new type is looked up among the live archetypes only. */
    function Narrowed(id: EntityId, after: Key): Layout {
      Layout(live + {after}, staged, aside - {id})
    }

    function Without(id: EntityId): Layout {
      Layout(live, staged, aside - {id})
    }

    ghost function Merged(lhs: EntityId, left: Key, rhs: EntityId, right: Key): Layout {
      Layout(live + ({left + right} - {left, right}), staged, MergedAside(aside, lhs, left, rhs, right))
    }

    /** The sweep leaves live the archetypes of the types in use, and the void one. */
    ghost function Swept(view: map<EntityId, Components>): Layout {
      var used := {VOID_TY} + TypesOf(view, view.Keys);
      Layout(used, (staged - TypesOf(view, aside)) + (live - used), {})
    }

    /** No entity in staging has the type of one in a live archetype. */
    ghost predicate Apart(view: map<EntityId, Components>) {
      forall a, b :: a in view && a in aside && b in view && b !in aside ==> view[a].Keys != view[b].Keys
    }

    /** An entity in a live archetype, with one of its type in staging. */
    ghost predicate Overtaken(view: map<EntityId, Components>, id: EntityId) {
      id in view && id !in aside && exists a :: a in view && a in aside && view[a].Keys == view[id].Keys
    }
  }

  ghost function TypesOf(view: map<EntityId, Components>, ids: set<EntityId>): (types: set<Key>)
    ensures forall id :: id in view && id in ids ==> view[id].Keys in types
    ensures forall k :: k in types ==> exists id :: id in view && id in ids && view[id].Keys == k
  {
    set id | id in view && id in ids :: view[id].Keys
  }

  lemma ApartMeans(l: Layout, view: map<EntityId, Components>)
    ensures l.Apart(view) <==> forall id :: id in view ==> !l.Overtaken(view, id)
  {
    if a, b :| a in view && a in l.aside && b in view && b !in l.aside && view[a].Keys == view[b].Keys {
      assert l.Overtaken(view, b);
    }
  }

  lemma ExtendedKeys<T>(before: Archetypes<T>, after: Archetypes<T>, keys: set<Key>)
    ensures Extends(before, after, keys) ==> after.Keys == before.Keys + keys
  {
  }

  lemma WidenedLayout(l: Layout, after: Layout, id: EntityId, before: Key, key: Key)
    requires after.live == l.live + ({key} - l.staged) && after.staged == l.staged
    requires after.aside == if key == before then l.aside else Joining(l.aside, id, key !in after.live)
    ensures after == l.Widened(id, before, key)
  {
  }

  // ---------------------------------------------------------------- every operation seats everybody

  lemma NewSeats(l: Layout, view: map<EntityId, Components>, id: EntityId)
    requires l.Seats(view) && id !in view
    ensures l.Seats(view[id := map[]])
  {
    var c: Components := map[];
    assert c.Keys == VOID_TY;
  }

  lemma WidenedSeats(l: Layout, view: map<EntityId, Components>, id: EntityId, c: Components)
    requires l.Seats(view) && id in view
    ensures l.Widened(id, view[id].Keys, c.Keys).Seats(view[id := c])
  {
  }

  lemma NarrowedSeats(l: Layout, view: map<EntityId, Components>, id: EntityId, c: Components)
    requires l.Seats(view) && id in view
    ensures l.Narrowed(id, c.Keys).Seats(view[id := c])
  {
  }

  lemma WithoutSeats(l: Layout, view: map<EntityId, Components>, id: EntityId)
    requires l.Seats(view) && id in view
    ensures l.Without(id).Seats(view - {id})
  {
  }

  lemma MergedSeats(l: Layout, view: map<EntityId, Components>, lhs: EntityId, rhs: EntityId)
    requires l.Seats(view) && lhs in view && rhs in view && lhs != rhs
    ensures l.Merged(lhs, view[lhs].Keys, rhs, view[rhs].Keys).Seats(MergedView(view, lhs, rhs))
  {
    assert (view[rhs] + view[lhs]).Keys == view[lhs].Keys + view[rhs].Keys;
  }

  /** After the sweep everybody is in a live archetype. */
  lemma SweptSeats(l: Layout, view: map<EntityId, Components>)
    ensures l.Swept(view).Seats(view)
  {
  }

  /** A live entity whose entry names none of the tables `ts`. */
  ghost predicate IsLost<T>(index: Slots<T>, ts: set<T>, id: EntityId) {
    index.IsLive(id) && index.slots[id.index].use.table !in ts
  }

  // ---------------------------------------------------------------- the layout of a filed store

  ghost function LayoutOf<T>(index: Slots<T>, archetypes: Archetypes<T>, staging: Archetypes<T>): Layout {
    Layout(archetypes.Keys, staging.Keys, Residents(index, staging.Values))
  }

  /** Where a live entity is: its table is filed under its type, among the staging ones if it is aside. */
  lemma Seated<T>(s: Store<T>, archetypes: Archetypes<T>, staging: Archetypes<T>, id: EntityId)
    requires s.Agree() && Filed(archetypes, staging, s.tables) && s.index.IsLive(id)
    ensures id in s.View()
    ensures var t, key := s.TableOf(id), s.View()[id].Keys;
            && s.tables[t].ty == key && s.tables[t].entities != []
            && (id in Residents(s.index, staging.Values) ==> key in staging && staging[key] == t)
            && (id !in Residents(s.index, staging.Values) ==> key in archetypes && archetypes[key] == t)
  {
    ViewKeys(s, id);
    TypeIsKeys(s, id);
    hide Store.Agree, Store.View, Slots.WellFormed;
    var t := s.TableOf(id);
    if t in staging.Values {
      var k :| k in staging && staging[k] == t;
      assert s.tables[t].ty == k;
    }
    assert s.tables[t].entities[s.RowOf(id)] == id;
  }

  lemma SeatsAll<T>(s: Store<T>, archetypes: Archetypes<T>, staging: Archetypes<T>)
    requires s.Agree() && Filed(archetypes, staging, s.tables)
    ensures LayoutOf(s.index, archetypes, staging).Seats(s.View())
  {
    hide Store.Agree, Store.View;
    forall id ensures id in s.View() <==> s.index.IsLive(id) { ViewKeys(s, id); }
    forall id | id in s.View()
      ensures s.View()[id].Keys in (if id in Residents(s.index, staging.Values) then staging.Keys else archetypes.Keys)
    {
      Seated(s, archetypes, staging, id);
    }
  }

  /** A table with rows has an entity, which is in staging if the table is. */
  lemma Someone<T>(s: Store<T>, archetypes: Archetypes<T>, staging: Archetypes<T>, t: T) returns (id: EntityId)
    requires s.Agree() && Filed(archetypes, staging, s.tables) && t in s.tables && s.tables[t].entities != []
    ensures id in s.View() && s.View()[id].Keys == s.tables[t].ty && s.index.IsLive(id) && s.TableOf(id) == t
    ensures id in Residents(s.index, staging.Values) <==> t in staging.Values
  {
    id := s.tables[t].entities[0];
    assert s.index.slots[id.index] == Slot(id.generation, Live(t, 0));
    ViewKeys(s, id);
    hide Store.Agree, Store.View;
    Seated(s, archetypes, staging, id);
  }

  /** Rows under one key in both maps are entities of one type, one aside and one not. */
  lemma ApartIsUnshadowed<T>(s: Store<T>, archetypes: Archetypes<T>, staging: Archetypes<T>)
    requires s.Agree() && Filed(archetypes, staging, s.tables)
    ensures LayoutOf(s.index, archetypes, staging).Apart(s.View()) <==> NoneShadowed(archetypes, staging, s.tables)
  {
    hide Store.Agree, Store.View;
    var l := LayoutOf(s.index, archetypes, staging);
    forall id ensures id in s.View() <==> s.index.IsLive(id) { ViewKeys(s, id); }
    if NoneShadowed(archetypes, staging, s.tables) {
      forall a, b | a in s.View() && a in l.aside && b in s.View() && b !in l.aside
        ensures s.View()[a].Keys != s.View()[b].Keys
      {
        Seated(s, archetypes, staging, a);
        Seated(s, archetypes, staging, b);
      }
    } else {
      var k :| k in archetypes && k in staging && Occupied(s.tables, archetypes, k) && Occupied(s.tables, staging, k);
      var a := Someone(s, archetypes, staging, staging[k]);
      var b := Someone(s, archetypes, staging, archetypes[k]);
      LiveNotStaged(archetypes, staging, s.tables, k);
    }
  }

  lemma LiveNotStaged<T>(archetypes: Archetypes<T>, staging: Archetypes<T>, states: map<T, TableState>, key: Key)
    requires Filed(archetypes, staging, states) && key in archetypes
    ensures archetypes[key] !in staging.Values
  {
  }

  lemma TypesInUse<T>(s: Store<T>, archetypes: Archetypes<T>, staging: Archetypes<T>)
    requires s.Agree() && Filed(archetypes, staging, s.tables)
    ensures TypesOf(s.View(), s.View().Keys) == OccupiedKeys(s.tables, archetypes) + OccupiedKeys(s.tables, staging)
    ensures TypesOf(s.View(), Residents(s.index, staging.Values)) == OccupiedKeys(s.tables, staging)
  {
    hide Store.Agree, Store.View;
    var view, aside, behind := s.View(), Residents(s.index, staging.Values), OccupiedKeys(s.tables, staging);
    var used := OccupiedKeys(s.tables, archetypes) + behind;
    forall id | id in view ensures view[id].Keys in used && (id in aside ==> view[id].Keys in behind) {
      ViewKeys(s, id);
      Seated(s, archetypes, staging, id);
    }
    forall k | k in used ensures k in TypesOf(view, view.Keys) && (k in behind ==> k in TypesOf(view, aside)) {
      var id := Someone(s, archetypes, staging, if k in behind then staging[k] else archetypes[k]);
    }
  }

  lemma SweptKeys<T>(archetypes: Archetypes<T>, staging: Archetypes<T>, states: map<T, TableState>)
    requires Filed(archetypes, staging, states)
    ensures var used := {VOID_TY} + OccupiedKeys(states, archetypes) + OccupiedKeys(states, staging);
            && SweptArchetypes(archetypes, staging, states).Keys == used
            && SweptStaging(archetypes, staging, states).Keys ==
               (staging.Keys - OccupiedKeys(states, staging)) + (archetypes.Keys - used)
  {
    var p := Promoted(archetypes, staging, states);
    PromotedKeys(archetypes, staging, states);
    hide Promoted, Occupied, Filed;
    assert Idle(p, states) == p.Keys - ({VOID_TY} + OccupiedKeys(states, p));
  }

  lemma PromotedKeys<T>(archetypes: Archetypes<T>, staging: Archetypes<T>, states: map<T, TableState>)
    requires Filed(archetypes, staging, states)
    ensures var p := Promoted(archetypes, staging, states);
            && p.Keys == archetypes.Keys + OccupiedKeys(states, staging) && VOID_TY in archetypes
            && OccupiedKeys(states, p) == OccupiedKeys(states, archetypes) + OccupiedKeys(states, staging)
  {
  }

  /** Nobody is in staging after the sweep. */
  lemma NobodyAside<T>(s: Store<T>, archetypes: Archetypes<T>, staging: Archetypes<T>)
    requires s.Agree() && Filed(archetypes, staging, s.tables)
    ensures Residents(s.index, SweptStaging(archetypes, staging, s.tables).Values) == {}
  {
    hide Store.Agree, Store.View, SweptArchetypes, SweptStaging, OccupiedKeys, Filed;
    SweptPlaces(archetypes, staging, s.tables);
    forall id | s.index.IsLive(id)
      ensures s.index.slots[id.index].use.table !in SweptStaging(archetypes, staging, s.tables).Values
    {
      Seated(s, archetypes, staging, id);
    }
  }

  /** What the sweep leaves, whether or not it loses anybody. */
  lemma SweptLayout<T>(s: Store<T>, archetypes: Archetypes<T>, staging: Archetypes<T>)
    requires s.Agree() && Filed(archetypes, staging, s.tables)
    ensures LayoutOf(s.index, SweptArchetypes(archetypes, staging, s.tables),
                     SweptStaging(archetypes, staging, s.tables))
            == LayoutOf(s.index, archetypes, staging).Swept(s.View())
  {
    hide Store.Agree, Store.View, SweptArchetypes, SweptStaging, OccupiedKeys, Filed, Residents, TypesOf;
    TypesInUse(s, archetypes, staging);
    SweptKeys(archetypes, staging, s.tables);
    NobodyAside(s, archetypes, staging);
  }

  /** The sweep drops the tables of exactly the entities that are overtaken. */
  lemma OvertakenIsDropped<T>(s: Store<T>, archetypes: Archetypes<T>, staging: Archetypes<T>, id: EntityId)
    requires s.Agree() && Filed(archetypes, staging, s.tables) && s.index.IsLive(id)
    ensures Survives(archetypes, staging, s.tables, s.TableOf(id)) <==>
            !LayoutOf(s.index, archetypes, staging).Overtaken(s.View(), id)
  {
    hide Store.Agree, Store.View;
    var l, k, t := LayoutOf(s.index, archetypes, staging), s.tables[s.TableOf(id)].ty, s.TableOf(id);
    Seated(s, archetypes, staging, id);
    var p := Promoted(archetypes, staging, s.tables);
    if Occupied(s.tables, staging, k) {
      var a := Someone(s, archetypes, staging, staging[k]);
      assert p[k] == staging[k];
      if k in archetypes { LiveNotStaged(archetypes, staging, s.tables, k); }
    } else {
      forall a | a in s.View() && a in l.aside ensures s.View()[a].Keys != k { Seated(s, archetypes, staging, a); }
    }
  }

  /**
    What the sweep does to a filed store can be told from its layout: whether it loses anybody,
    whom, and the layout it leaves in either case.
   */
  lemma SweepAhead<T>(s: Store<T>, live: Archetypes<T>, staged: Archetypes<T>)
    requires s.Agree() && Filed(live, staged, s.tables)
    ensures var l := LayoutOf(s.index, live, staged);
            && (NoneShadowed(live, staged, s.tables) <==> l.Apart(s.View()))
            && LayoutOf(s.index, SweptArchetypes(live, staged, s.tables), SweptStaging(live, staged, s.tables)) ==
                 l.Swept(s.View())
            && forall id :: id in s.View() ==>
                 (IsLost(s.index, Remaining(live, staged, s.tables).Keys, id) <==> l.Overtaken(s.View(), id))
  {
    hide Store.Agree, Store.View, NoneShadowed, Filed, Layout.Overtaken, Layout.Apart, Layout.Swept, LayoutOf;
    hide SweptArchetypes, SweptStaging, Survives;
    ApartIsUnshadowed(s, live, staged);
    SweptLayout(s, live, staged);
    forall id | id in s.View()
      ensures IsLost(s.index, Remaining(live, staged, s.tables).Keys, id) <==>
                LayoutOf(s.index, live, staged).Overtaken(s.View(), id)
    {
      ViewKeys(s, id);
      OvertakenIsDropped(s, live, staged, id);
    }
  }

  /** Without its staging archetypes a filed store loses exactly the entities in them. */
  lemma AsideIsLost<T>(s: Store<T>, live: Archetypes<T>, staged: Archetypes<T>)
    requires s.Agree() && Filed(live, staged, s.tables)
    ensures forall id :: id in s.View() ==>
      (IsLost(s.index, live.Values * s.tables.Keys, id) <==> id in Residents(s.index, staged.Values))
  {
    hide Store.Agree, Store.View;
    forall id | id in s.View()
      ensures IsLost(s.index, live.Values * s.tables.Keys, id) <==> id in Residents(s.index, staged.Values)
    {
      ViewKeys(s, id);
      Seated(s, live, staged, id);
    }
  }
}
