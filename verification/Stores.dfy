/**
  The archetype store as a value: the slot allocator and the tables it points into, and the map
  from entities to components that they stand for.

  Every structural operation of the world is a composition of the steps below. Each step keeps
  the agreement between index and tables and has a stated effect on the map; what the step does
  to every other entity, including the one that swap-remove relocates, is part of that statement.
 */
module Stores {
  import opened Wrappers
  import opened TypeIds
  import opened EntityIds
  import opened EntityIndexes
  import opened Tables

  /** The components of one entity. */
  type Components = map<TypeId, Value>

  datatype Store<T> = Store(index: Slots<T>, tables: map<T, TableState>) {

    /** A live slot names a table and a row that holds that very id. */
    ghost predicate EntriesNameRows() {
      forall i :: 0 <= i < |index.slots| && index.slots[i].use.Live? ==>
        var Live(t, row) := index.slots[i].use;
        t in tables && row < |tables[t].entities| && tables[t].entities[row] == EntityId(i, index.slots[i].generation)
    }

    /** Every row of every table is named by the slot of the id it holds, and by no other. */
    ghost predicate RowsNameEntries() {
      forall t, row :: t in tables && 0 <= row < |tables[t].entities| ==>
        var id := tables[t].entities[row];
        id.index < |index.slots| && index.slots[id.index] == Slot(id.generation, Live(t, row))
    }

    ghost predicate Agree() {
      && index.WellFormed()
      && (forall t :: t in tables ==> tables[t].Full())
      && EntriesNameRows()
      && RowsNameEntries()
    }

    ghost function LiveIds(): (ids: set<EntityId>)
      ensures forall id :: id in ids <==> index.IsLive(id)
    {
      var ids := set i | 0 <= i < |index.slots| && index.slots[i].use.Live? :: EntityId(i, index.slots[i].generation);
      assert forall id :: index.IsLive(id) ==> EntityId(id.index, index.slots[id.index].generation) in ids;
      ids
    }

    ghost function TableOf(id: EntityId): T
      requires Agree() && index.IsLive(id)
      ensures TableOf(id) in tables
    {
      index.slots[id.index].use.table
    }

    ghost function RowOf(id: EntityId): (row: nat)
      requires Agree() && index.IsLive(id)
      ensures row < |tables[TableOf(id)].entities| && tables[TableOf(id)].entities[row] == id
    {
      index.slots[id.index].use.row
    }

    ghost function ComponentsOf(id: EntityId): Components
      requires Agree() && index.IsLive(id)
    {
      tables[TableOf(id)].Row(RowOf(id))
    }

    /** The map the store stands for. */
    ghost function View(): map<EntityId, Components>
      requires Agree()
    {
      map id | id in LiveIds() :: ComponentsOf(id)
    }

    // ---------------------------------------------------------------- the steps

    /** Repairs the entry of the entity that swap-remove moved into `row` of `t`, if any. */
    ghost function Repaired(t: T, row: nat): Slots<T>
      requires t in tables && row < |tables[t].entities|
      requires tables[t].entities[|tables[t].entities| - 1].index < |index.slots|
    {
      match Displaced(tables[t].entities, row)
      case None => index
      case Some(other) => index.Place(other, t, row)
    }

    /** Row `row` of `t` can be removed, and the last row belongs to a live entity. */
    ghost predicate CanCut(t: T, row: nat) {
      && t in tables && tables[t].Full() && row < |tables[t].entities|
      && var last := tables[t].entities[|tables[t].entities| - 1];
      index.IsLive(last) && index.slots[last.index].use.table == t
    }

    ghost function Cut(t: T, row: nat): Store<T>
      requires CanCut(t, row)
    {
      Store(Repaired(t, row), tables[t := tables[t].RemoveRow(row)])
    }

    /** `move_entity`: the row leaves `src` and arrives as the last row of `dst`. */
    ghost function Transfer(src: T, row: nat, dst: T): Store<T>
      requires CanCut(src, row) && dst in tables
    {
      Cut(src, row).Rewrite(dst, tables[dst].Receive(tables[src], row))
    }

    /** Takes `id` out of its table; the slot is left allocated but without a row. */
    ghost function Detach(id: EntityId): Store<T>
      requires Agree() && index.IsLive(id)
    {
      var t, row := TableOf(id), RowOf(id);
      Store(Vacated(Repaired(t, row), id), tables[t := tables[t].RemoveRow(row)])
    }

    /** Gives a reserved id the last row of `grown`, the new contents of `t`. */
    ghost function Attach(id: EntityId, t: T, grown: TableState): Store<T>
      requires id.index < |index.slots| && grown.entities != []
    {
      Store(index.Place(id, t, |grown.entities| - 1), tables[t := grown])
    }

    /** Replaces the contents of the table of `id`. */
    ghost function Rewrite(t: T, changed: TableState): Store<T> {
      Store(index, tables[t := changed])
    }

    /** Hands the row of the live `id` over to the reserved `heir`. */
    ghost function Bequeath(id: EntityId, heir: EntityId): Store<T>
      requires Agree() && index.IsLive(id) && heir.index < |index.slots|
    {
      var t, row := TableOf(id), RowOf(id);
      Store(Vacated(index.Place(heir, t, row), id),
            tables[t := TableState(tables[t].ty, tables[t].entities[row := heir], tables[t].cols)])
    }

    ghost function WithIndex(slots: Slots<T>): Store<T> {
      Store(slots, tables)
    }
  }

  /** The slot of `id` allocated but without a row. */
  function Vacated<T>(s: Slots<T>, id: EntityId): Slots<T>
    requires id.index < |s.slots|
  {
    Slots(s.slots[id.index := Slot(id.generation, Reserved)], s.free)
  }

  /** `grown` is `t` with one more row, whose entity is `id`. */
  ghost predicate Appends(t: TableState, grown: TableState, id: EntityId) {
    && grown.Full()
    && grown.entities == t.entities + [id]
    && grown.cols.Keys == t.cols.Keys
    && forall c, k :: c in t.cols && 0 <= k < |t.cols[c]| ==> k < |grown.cols[c]| && grown.cols[c][k] == t.cols[c][k]
  }

  /** `changed` differs from `t` in row `row` only. */
  ghost predicate Edits(t: TableState, changed: TableState, row: nat) {
    && changed.Full()
    && changed.entities == t.entities
    && changed.cols.Keys == t.cols.Keys
    && forall c, k :: c in t.cols && 0 <= k < |t.cols[c]| && k != row ==>
         k < |changed.cols[c]| && changed.cols[c][k] == t.cols[c][k]
  }

  lemma ViewKeys<T>(s: Store<T>, id: EntityId)
    requires s.Agree()
    ensures id in s.View() <==> s.index.IsLive(id)
    ensures s.index.IsLive(id) ==> s.View()[id] == s.ComponentsOf(id)
  {
  }

  /** The type of a table is the set of the component types of each of its entities. */
  lemma TypeIsKeys<T>(s: Store<T>, id: EntityId)
    requires s.Agree() && s.index.IsLive(id)
    ensures s.tables[s.TableOf(id)].ty == s.ComponentsOf(id).Keys
  {
  }

  lemma SameView<T>(s: Store<T>, m: map<EntityId, Components>)
    requires s.Agree()
    requires forall id :: s.index.IsLive(id) <==> id in m
    requires forall id :: id in m ==> s.ComponentsOf(id) == m[id]
    ensures s.View() == m
  {
  }

  /** A new world: free slots only, and one table without rows. */
  lemma EmptyView<T>(cap: nat, t: T, void: TableState)
    requires 1 <= cap < INDEX_MASK && void.Full() && void.entities == []
    ensures Store(Fresh(cap), map[t := void]).Agree() && Store(Fresh(cap), map[t := void]).View() == map[]
  {
    FreshWellFormed<T>(cap);
    SameView(Store(Fresh(cap), map[t := void]), map[]);
  }

  // ---------------------------------------------------------------- what each step does

  lemma DetachEntries<T>(s: Store<T>, id: EntityId)
    requires s.Agree() && s.index.IsLive(id)
    ensures s.Detach(id).EntriesNameRows()
  {
    hide Store.RowsNameEntries;
    var t := s.TableOf(id);
    var last := s.tables[t].entities[|s.tables[t].entities| - 1];
    LastEntry(s, t);
  }

  lemma DetachRows<T>(s: Store<T>, id: EntityId)
    requires s.Agree() && s.index.IsLive(id)
    ensures s.Detach(id).RowsNameEntries()
  {
    LastEntry(s, s.TableOf(id));
  }

  lemma LastEntry<T>(s: Store<T>, t: T)
    requires s.Agree() && t in s.tables && s.tables[t].entities != []
    ensures var n := |s.tables[t].entities| - 1;
            var last := s.tables[t].entities[n];
            last.index < |s.index.slots| && s.index.slots[last.index] == Slot(last.generation, Live(t, n))
  {
  }

  lemma DetachAgrees<T>(s: Store<T>, id: EntityId)
    requires s.Agree() && s.index.IsLive(id)
    ensures s.Detach(id).Agree() && s.Detach(id).index.IsReserved(id)
  {
    DetachEntries(s, id);
    DetachRows(s, id);
    LastEntry(s, s.TableOf(id));
    hide Store.EntriesNameRows, Store.RowsNameEntries;
  }

  /** Where another entity is once `id` has been taken out. */
  lemma DetachMoves<T>(s: Store<T>, id: EntityId, other: EntityId)
    requires s.Agree() && s.index.IsLive(id) && s.Detach(id).Agree()
    ensures s.Detach(id).index.IsLive(other) <==> s.index.IsLive(other) && other != id
    ensures s.index.IsLive(other) && other != id ==> s.Detach(id).ComponentsOf(other) == s.ComponentsOf(other)
  {
    DetachKeeps(s, id, other);
    hide Store.RowsNameEntries, Store.EntriesNameRows, Slots.WellFormed, Store.Repaired, TableState.RemoveRow;
    hide TableState.Row;
    if s.index.IsLive(other) && other != id && s.TableOf(other) == s.TableOf(id) {
      RemovedRows(s.tables[s.TableOf(id)], s.RowOf(id), s.Detach(id).RowOf(other));
    }
  }

  /** Which row another entity is in once `id` has been taken out. */
  lemma DetachKeeps<T>(s: Store<T>, id: EntityId, other: EntityId)
    requires s.Agree() && s.index.IsLive(id) && s.Detach(id).Agree()
    ensures s.Detach(id).index.IsLive(other) <==> s.index.IsLive(other) && other != id
    ensures s.index.IsLive(other) && other != id ==>
              var d, t, row, last := s.Detach(id), s.TableOf(id), s.RowOf(id), |s.tables[s.TableOf(id)].entities| - 1;
              && d.TableOf(other) == s.TableOf(other)
              && (s.TableOf(other) == t && s.RowOf(other) == last ==> d.RowOf(other) == row < last)
              && (s.TableOf(other) != t || s.RowOf(other) != last ==> d.RowOf(other) == s.RowOf(other))
              && (s.TableOf(other) == t ==> d.RowOf(other) < last && (d.RowOf(other) == row ==> s.RowOf(other) == last))
  {
    hide Store.RowsNameEntries, TableState.Full;
    LastEntry(s, s.TableOf(id));
  }

  /** What swap-remove leaves in the rows. */
  lemma RemovedRows(s: TableState, i: nat, k: nat)
    requires s.Full() && i < |s.entities| && k < |s.entities| - 1
    ensures s.RemoveRow(i).Full() && |s.RemoveRow(i).entities| == |s.entities| - 1
    ensures s.RemoveRow(i).Row(k) == s.Row(if k == i then |s.entities| - 1 else k)
  {
  }

  /** Swap-remove relocates another entity, and nothing shows of it. */
  lemma DetachView<T>(s: Store<T>, id: EntityId)
    requires s.Agree() && s.index.IsLive(id)
    ensures s.Detach(id).Agree() && s.Detach(id).View() == s.View() - {id}
  {
    DetachAgrees(s, id);
    hide Store.Agree, Store.Detach, Store.ComponentsOf;
    forall other
      ensures s.Detach(id).index.IsLive(other) <==> s.index.IsLive(other) && other != id
      ensures s.index.IsLive(other) && other != id ==> s.Detach(id).ComponentsOf(other) == s.ComponentsOf(other)
    {
      DetachMoves(s, id, other);
    }
    SameView(s.Detach(id), s.View() - {id});
  }

  lemma AttachAgrees<T>(s: Store<T>, id: EntityId, t: T, grown: TableState)
    requires s.Agree() && s.index.IsReserved(id) && t in s.tables && Appends(s.tables[t], grown, id)
    ensures s.Attach(id, t, grown).Agree() && s.Attach(id, t, grown).index.IsLive(id)
  {
  }

  lemma AttachView<T>(s: Store<T>, id: EntityId, t: T, grown: TableState)
    requires s.Agree() && s.index.IsReserved(id) && t in s.tables && Appends(s.tables[t], grown, id)
    ensures var a := s.Attach(id, t, grown);
            && a.Agree() && a.index.IsLive(id) && a.TableOf(id) == t
            && a.View() == s.View()[id := grown.Row(|grown.entities| - 1)]
  {
    AttachAgrees(s, id, t, grown);
    AttachPlaces(s, id, t, grown);
    hide Store.Agree, Store.Attach, Store.ComponentsOf, Appends;
    var a := s.Attach(id, t, grown);
    forall other | other != id
      ensures a.index.IsLive(other) <==> s.index.IsLive(other)
      ensures s.index.IsLive(other) ==> a.ComponentsOf(other) == s.ComponentsOf(other)
    {
      AttachMoves(s, id, t, grown, other);
    }
    SameView(a, s.View()[id := grown.Row(|grown.entities| - 1)]);
  }

  lemma AttachPlaces<T>(s: Store<T>, id: EntityId, t: T, grown: TableState)
    requires s.Agree() && s.index.IsReserved(id) && t in s.tables && Appends(s.tables[t], grown, id)
    requires s.Attach(id, t, grown).Agree()
    ensures var a := s.Attach(id, t, grown);
            a.index.IsLive(id) && a.TableOf(id) == t && a.ComponentsOf(id) == grown.Row(|grown.entities| - 1)
  {
    hide Store.EntriesNameRows, Store.RowsNameEntries, Slots.WellFormed;
  }

  lemma AttachMoves<T>(s: Store<T>, id: EntityId, t: T, grown: TableState, other: EntityId)
    requires s.Agree() && s.index.IsReserved(id) && t in s.tables && Appends(s.tables[t], grown, id) && other != id
    requires s.Attach(id, t, grown).Agree()
    ensures s.Attach(id, t, grown).index.IsLive(other) <==> s.index.IsLive(other)
    ensures s.index.IsLive(other) ==> s.Attach(id, t, grown).ComponentsOf(other) == s.ComponentsOf(other)
  {
    hide Store.RowsNameEntries, Slots.WellFormed;
    if s.index.IsLive(other) {
      assert other.index != id.index;
      RowStays(s.tables[s.TableOf(other)], s.Attach(id, t, grown).tables[s.TableOf(other)], s.RowOf(other));
    }
  }

  /** A row is what its cells are. */
  lemma RowStays(a: TableState, b: TableState, row: nat)
    requires a.Full() && b.Full() && row < |a.entities| && row < |b.entities| && a.cols.Keys == b.cols.Keys
    requires forall c :: c in a.cols ==> b.cols[c][row] == a.cols[c][row]
    ensures a.Row(row) == b.Row(row)
  {
  }

  lemma RewriteView<T>(s: Store<T>, id: EntityId, changed: TableState)
    requires s.Agree() && s.index.IsLive(id) && Edits(s.tables[s.TableOf(id)], changed, s.RowOf(id))
    ensures var r := s.Rewrite(s.TableOf(id), changed);
            && r.Agree() && r.index.IsLive(id) && r.TableOf(id) == s.TableOf(id)
            && r.View() == s.View()[id := changed.Row(s.RowOf(id))]
  {
    RewriteAgrees(s, s.TableOf(id), changed);
    hide Store.Agree, Store.ComponentsOf, Edits;
    var r := s.Rewrite(s.TableOf(id), changed);
    forall other | s.index.IsLive(other)
      ensures r.ComponentsOf(other) == if other == id then changed.Row(s.RowOf(id)) else s.ComponentsOf(other)
    {
      RewriteMoves(s, id, changed, other);
    }
    SameView(r, s.View()[id := changed.Row(s.RowOf(id))]);
  }

  lemma RewriteAgrees<T>(s: Store<T>, t: T, changed: TableState)
    requires s.Agree() && t in s.tables && changed.Full() && changed.entities == s.tables[t].entities
    ensures s.Rewrite(t, changed).Agree()
  {
  }

  lemma RewriteMoves<T>(s: Store<T>, id: EntityId, changed: TableState, other: EntityId)
    requires s.Agree() && s.index.IsLive(id) && Edits(s.tables[s.TableOf(id)], changed, s.RowOf(id))
             && s.index.IsLive(other)
    requires s.Rewrite(s.TableOf(id), changed).Agree()
    ensures s.Rewrite(s.TableOf(id), changed).ComponentsOf(other) ==
            if other == id then changed.Row(s.RowOf(id)) else s.ComponentsOf(other)
  {
    hide Store.RowsNameEntries, Slots.WellFormed;
    if other != id {
      assert s.TableOf(other) == s.TableOf(id) ==> s.RowOf(other) != s.RowOf(id);
      RowStays(s.tables[s.TableOf(other)], s.Rewrite(s.TableOf(id), changed).tables[s.TableOf(other)], s.RowOf(other));
    }
  }

  lemma BequeathAgrees<T>(s: Store<T>, id: EntityId, heir: EntityId)
    requires s.Agree() && s.index.IsLive(id) && s.index.IsReserved(heir)
    ensures s.Bequeath(id, heir).Agree()
  {
    BequeathRows(s, id, heir);
    hide Store.RowsNameEntries;
  }

  lemma BequeathRows<T>(s: Store<T>, id: EntityId, heir: EntityId)
    requires s.Agree() && s.index.IsLive(id) && s.index.IsReserved(heir)
    ensures s.Bequeath(id, heir).RowsNameEntries()
  {
  }

  lemma BequeathPlaces<T>(s: Store<T>, id: EntityId, heir: EntityId)
    requires s.Agree() && s.index.IsLive(id) && s.index.IsReserved(heir) && s.Bequeath(id, heir).Agree()
    ensures var b := s.Bequeath(id, heir);
            b.index.IsLive(heir) && b.index.IsReserved(id) && b.ComponentsOf(heir) == s.ComponentsOf(id)
  {
    hide Store.RowsNameEntries, Slots.WellFormed;
  }

  lemma BequeathMoves<T>(s: Store<T>, id: EntityId, heir: EntityId, other: EntityId)
    requires s.Agree() && s.index.IsLive(id) && s.index.IsReserved(heir) && s.Bequeath(id, heir).Agree()
             && other != heir
    ensures s.Bequeath(id, heir).index.IsLive(other) <==> s.index.IsLive(other) && other != id
    ensures s.index.IsLive(other) && other != id ==> s.Bequeath(id, heir).ComponentsOf(other) == s.ComponentsOf(other)
  {
    hide Store.RowsNameEntries, Slots.WellFormed;
  }

  lemma BequeathView<T>(s: Store<T>, id: EntityId, heir: EntityId)
    requires s.Agree() && s.index.IsLive(id) && s.index.IsReserved(heir)
    ensures var b := s.Bequeath(id, heir);
            && b.Agree() && b.index.IsLive(heir) && b.index.IsReserved(id)
            && b.View() == (s.View() - {id})[heir := s.ComponentsOf(id)]
  {
    var b := s.Bequeath(id, heir);
    BequeathAgrees(s, id, heir);
    BequeathPlaces(s, id, heir);
    hide Store.Agree, Store.Bequeath, Store.ComponentsOf;
    forall other | other != heir
      ensures b.index.IsLive(other) <==> s.index.IsLive(other) && other != id
      ensures s.index.IsLive(other) && other != id ==> b.ComponentsOf(other) == s.ComponentsOf(other)
    {
      BequeathMoves(s, id, heir, other);
    }
    SameView(b, (s.View() - {id})[heir := s.ComponentsOf(id)]);
  }

  /** A change of the index that touches no live slot changes nothing else. */
  lemma WithIndexView<T>(s: Store<T>, slots: Slots<T>)
    requires s.Agree() && slots.WellFormed() && |s.index.slots| <= |slots.slots|
    requires forall i :: 0 <= i < |s.index.slots| && s.index.slots[i].use.Live? ==> slots.slots[i] == s.index.slots[i]
    requires forall i :: 0 <= i < |slots.slots| && slots.slots[i].use.Live? ==>
               i < |s.index.slots| && slots.slots[i] == s.index.slots[i]
    ensures s.WithIndex(slots).Agree() && s.WithIndex(slots).View() == s.View()
  {
    hide TableState.Full;
    assert s.WithIndex(slots).Agree();
    hide Slots.WellFormed, Store.EntriesNameRows, Store.RowsNameEntries;
    SameView(s.WithIndex(slots), s.View());
  }

  lemma NewTableAgrees<T>(s: Store<T>, t: T, empty: TableState)
    requires s.Agree() && t !in s.tables && empty.Full() && empty.entities == []
    ensures s.Rewrite(t, empty).Agree()
  {
    hide TableState.Full, Slots.WellFormed;
  }

  /** A new table without rows adds nothing. */
  lemma NewTableView<T>(s: Store<T>, t: T, empty: TableState)
    requires s.Agree() && t !in s.tables && empty.Full() && empty.entities == []
    ensures s.Rewrite(t, empty).Agree() && s.Rewrite(t, empty).View() == s.View()
  {
    hide TableState.Full, Slots.WellFormed;
    NewTableAgrees(s, t, empty);
    SameView(s.Rewrite(t, empty), s.View());
  }

  function Kept<T>(tables: map<T, TableState>, kept: set<T>): map<T, TableState> {
    map t | t in tables && t in kept :: tables[t]
  }

  /** Forgetting tables keeps the store whole exactly when none of them holds a row. */
  lemma ForgetTables<T>(s: Store<T>, kept: set<T>)
    requires s.Agree()
    ensures var f := Store(s.index, Kept(s.tables, kept));
            && (f.Agree() <==> forall t :: t in s.tables && t !in kept ==> s.tables[t].entities == [])
            && (f.Agree() ==> f.View() == s.View())
  {
    if t :| t in s.tables && t !in kept && s.tables[t].entities != [] {
      ForgetBreaks(s, kept, t);
    } else {
      ForgetAgrees(s, kept);
      hide Store.EntriesNameRows, Store.RowsNameEntries, Slots.WellFormed;
      var f := Store(s.index, Kept(s.tables, kept));
      SameView(f, s.View());
    }
  }

  lemma ForgetBreaks<T>(s: Store<T>, kept: set<T>, t: T)
    requires s.Agree() && t in s.tables && t !in kept && s.tables[t].entities != []
    ensures !Store(s.index, Kept(s.tables, kept)).Agree()
  {
    hide Store.EntriesNameRows, TableState.Full, Slots.WellFormed;
    var f, id := Store(s.index, Kept(s.tables, kept)), s.tables[t].entities[0];
    assert s.index.slots[id.index] == Slot(id.generation, Live(t, 0));
    LiveIsNamed(f, id.index);
  }

  lemma LiveIsNamed<T>(s: Store<T>, i: nat)
    requires i < |s.index.slots| && s.index.slots[i].use.Live? && s.index.slots[i].use.table !in s.tables
    ensures !s.EntriesNameRows()
  {
  }

  lemma ForgetAgrees<T>(s: Store<T>, kept: set<T>)
    requires s.Agree() && forall t :: t in s.tables && t !in kept ==> s.tables[t].entities == []
    ensures Store(s.index, Kept(s.tables, kept)).Agree()
  {
    hide TableState.Full, Slots.WellFormed;
  }

  // ---------------------------------------------------------------- compositions

  /** The last row of a table belongs to a live entity of that table. */
  lemma LastRow<T>(s: Store<T>, t: T)
    requires s.Agree() && t in s.tables && s.tables[t].entities != []
    ensures forall row :: 0 <= row < |s.tables[t].entities| ==> s.CanCut(t, row)
  {
  }

  lemma ReleaseView<T>(s: Store<T>, id: EntityId)
    requires s.Agree() && s.index.IsReserved(id)
    ensures s.WithIndex(s.index.Release(id)).Agree() && s.WithIndex(s.index.Release(id)).View() == s.View()
  {
    ReleaseWellFormed(s.index, id);
    WithIndexView(s, s.index.Release(id));
  }

  lemma ReserveIsPassing<T>(s: Slots<T>, id: EntityId, t: T, row: nat)
    requires id.index < |s.slots| && s.slots[id.index].generation == id.generation
    ensures Vacated(s, id).Place(id, t, row) == s.Place(id, t, row)
    ensures Vacated(s, id).Release(id) == s.Release(id)
  {
    assert Vacated(s, id).Place(id, t, row).slots == s.Place(id, t, row).slots;
    assert Vacated(s, id).Release(id).slots == s.Release(id).slots;
  }

  lemma RepairedKeeps<T>(s: Store<T>, id: EntityId)
    requires s.Agree() && s.index.IsLive(id)
    ensures var r := s.Repaired(s.TableOf(id), s.RowOf(id));
            && |r.slots| == |s.index.slots| && r.IsLive(id)
            && s.Detach(id) ==
                 Store(Vacated(r, id), s.tables[s.TableOf(id) := s.tables[s.TableOf(id)].RemoveRow(s.RowOf(id))])
  {
  }

  /** Removing a row is nothing to the allocator. */
  lemma CutAllocator<T>(s: Store<T>, t: T, row: nat)
    requires s.CanCut(t, row)
    ensures SameTables(s.index, s.Cut(t, row).index)
  {
    hide TableState.RemoveRow;
  }

  /** Removing the row, repairing the displaced entry and freeing the slot deletes the entity. */
  lemma DeleteView<T>(s: Store<T>, id: EntityId)
    requires s.Agree() && s.index.IsLive(id)
    ensures var t, row := s.TableOf(id), s.RowOf(id);
            && s.CanCut(t, row) && s.Cut(t, row).index.IsLive(id)
            && var after := s.Cut(t, row).WithIndex(s.Cut(t, row).index.Release(id));
            && after.Agree() && after.View() == s.View() - {id}
            && SameTables(s.index.Release(id), after.index)
  {
    var t, row := s.TableOf(id), s.RowOf(id);
    LastRow(s, t);
    CutAllocator(s, t, row);
    SameRelease(s.index, s.Cut(t, row).index, id);
    hide SameTables, Store.EntriesNameRows, Store.RowsNameEntries, Store.View, Store.Repaired, Store.Detach;
    hide Vacated, Slots.Release;
    DetachView(s, id);
    ReleaseView(s.Detach(id), id);
    RepairedKeeps(s, id);
    ReserveIsPassing(s.Repaired(t, row), id, t, row);
  }

  lemma PutBack<K, V>(m: map<K, V>, k: K, v: V)
    ensures (m - {k})[k := v] == m[k := v]
  {
  }

  lemma DetachLeaves<T>(s: Store<T>, id: EntityId, other: T)
    requires s.Agree() && s.index.IsLive(id) && other in s.tables && other != s.TableOf(id)
    ensures s.Detach(id).index.IsReserved(id)
    ensures other in s.Detach(id).tables && s.Detach(id).tables[other] == s.tables[other]
  {
  }

  /** Moving the row, repairing the displaced entry and updating the mover's changes its components. */
  lemma MoveView<T>(s: Store<T>, id: EntityId, dst: T, grown: TableState)
    requires s.Agree() && s.index.IsLive(id) && dst in s.tables && dst != s.TableOf(id)
    requires Appends(s.tables[dst], grown, id)
    ensures var t, row, n := s.TableOf(id), s.RowOf(id), |grown.entities| - 1;
            && s.CanCut(t, row) && s.Cut(t, row).index.IsLive(id)
            && var after := s.Cut(t, row).Attach(id, dst, grown);
            after.Agree() && after.index.IsLive(id) && after.View() == s.View()[id := grown.Row(n)]
  {
    var t, row, n := s.TableOf(id), s.RowOf(id), |grown.entities| - 1;
    var m := grown.Row(n);
    LastRow(s, t);
    DetachLeaves(s, id, dst);
    hide Store.Agree, Store.View, Store.Repaired, Store.Detach, Vacated, Slots.Place, Appends, TableState.Full;
    hide TableState.RemoveRow, TableState.Row;
    DetachView(s, id);
    AttachView(s.Detach(id), id, dst, grown);
    RepairedKeeps(s, id);
    ReserveIsPassing(s.Repaired(t, row), id, dst, n);
    PutBack(s.View(), id, m);
  }

  /** A reserved id that gets a row in the void table is an entity without components. */
  lemma InitView<T>(s: Store<T>, id: EntityId, t: T)
    requires s.Agree() && s.index.IsReserved(id) && t in s.tables && s.tables[t].ty == VOID_TY
    ensures var after := s.Attach(id, t, VoidGrown(s.tables[t], id));
            after.Agree() && after.index.IsLive(id) && after.View() == s.View()[id := map[]]
  {
    var void := s.tables[t];
    assert void.cols.Keys == {UNIT} by {
      assert void.cols.Keys - {UNIT} == {};
    }
    var grown := VoidGrown(void, id);
    assert Appends(void, grown, id);
    AttachView(s, id, t, grown);
    assert grown.Row(|grown.entities| - 1) == map[];
  }

  /** Growing the index and reserving a free slot changes nothing that is visible. */
  lemma AllocatedView<T>(s: Store<T>, cap: nat)
    requires s.Agree() && |s.index.slots| <= cap < INDEX_MASK && s.index.Grow(cap).free != []
    ensures var grown := s.index.Grow(cap);
            && grown.WellFormed()
            && var after := s.WithIndex(grown.Allocate());
            && after.Agree() && after.View() == s.View()
            && after.index.IsReserved(grown.NextId()) && grown.NextId() !in s.View()
  {
    var grown := s.index.Grow(cap);
    GrowWellFormed(s.index, cap);
    AllocateWellFormed(grown);
    WithIndexView(s, grown.Allocate());
  }

  lemma AllocatesView<T>(s: Store<T>, id: EntityId, after: Slots<T>)
    requires s.Agree() && s.index.CanAllocate() && Allocates(s.index, id, after)
    ensures s.WithIndex(after).Agree() && s.WithIndex(after).View() == s.View()
    ensures after.IsReserved(id) && id !in s.View()
  {
    hide Store.View, Store.EntriesNameRows, Store.RowsNameEntries;
    var cap := AllocationCap(s.index);
    AllocatedView(s, cap);
  }

  lemma ClaimedView<T>(s: Store<T>, cap: nat, id: EntityId, at: nat)
    requires s.Agree() && |s.index.slots| <= cap < INDEX_MASK && id.generation <= GEN_MASK
    requires at < |s.index.Grow(cap).free| && s.index.Grow(cap).free[at] == id.index
    ensures var grown := s.index.Grow(cap);
            && grown.WellFormed()
            && var after := s.WithIndex(grown.Claim(id, at));
            && after.Agree() && after.View() == s.View()
            && after.index.IsReserved(id) && id !in s.View()
  {
    var grown := s.index.Grow(cap);
    GrowWellFormed(s.index, cap);
    ClaimWellFormed(grown, id, at);
    WithIndexView(s, grown.Claim(id, at));
  }

  /** The same for a claim wherever the slot was in the free list. */
  lemma ClaimedSomewhere<T>(s: Store<T>, cap: nat, id: EntityId, after: Slots<T>)
    requires s.Agree() && |s.index.slots| <= cap < INDEX_MASK && id.generation <= GEN_MASK && id.index < cap
    requires id.index < |s.index.Grow(cap).slots| && id.index in s.index.Grow(cap).free
    requires after == Seized(s.index.Grow(cap), id)
    ensures s.WithIndex(after).Agree() && s.WithIndex(after).View() == s.View()
    ensures after.IsReserved(id) && id !in s.View()
    ensures Settled(s.index) ==> SettledBut(after, id.index)
  {
    GrowWellFormed(s.index, cap);
    var at :| 0 <= at < |s.index.Grow(cap).free| && s.index.Grow(cap).free[at] == id.index;
    SeizedIsClaim(s.index.Grow(cap), id, at);
    ClaimedView(s, cap, id, at);
    ClaimSettles(s.index, cap, id, at);
  }

  lemma IndexSize<T>(s: Store<T>)
    requires s.Agree()
    ensures 1 <= |s.index.slots| < INDEX_MASK
  {
  }

  lemma GrownView<T>(s: Store<T>)
    requires s.Agree()
    ensures forall cap :: |s.index.slots| <= cap < INDEX_MASK ==>
      && s.WithIndex(s.index.Grow(cap)).Agree() && s.WithIndex(s.index.Grow(cap)).View() == s.View()
      && |s.index.Grow(cap).slots| == cap
  {
    forall cap | |s.index.slots| <= cap < INDEX_MASK
      ensures s.WithIndex(s.index.Grow(cap)).Agree() && s.WithIndex(s.index.Grow(cap)).View() == s.View()
    {
      GrowWellFormed(s.index, cap);
      WithIndexView(s, s.index.Grow(cap));
    }
  }

  /** The capacity that `allocate_with_resize` allocates from. */
  lemma AllocationCap<T>(s: Slots<T>) returns (cap: nat)
    requires s.WellFormed() && s.CanAllocate()
    ensures |s.slots| <= cap < INDEX_MASK && s.Grow(cap).free != []
    ensures s.Grow(cap) == Refilled(s)
  {
    GrowTargetGrows(|s.slots|);
    GrowNothing(s);
    cap := if s.free == [] then GrowTarget(|s.slots|) else |s.slots|;
  }

  lemma GrowFree<T>(s: Slots<T>, cap: nat)
    requires |s.slots| <= cap
    ensures |s.Grow(cap).slots| == cap
    ensures forall i :: 0 <= i < cap ==>
      (s.Grow(cap).slots[i].use.Free? <==> i >= |s.slots| || s.slots[i].use.Free?)
  {
  }

  lemma GrowNothing<T>(s: Slots<T>)
    ensures s.Grow(|s.slots|) == s
  {
  }

  // ---------------------------------------------------------------- rows

  function NoUnit(m: map<TypeId, Value>): Components {
    m - {UNIT}
  }

  /** A bundle of one component. */
  lemma Single(t: TypeId, v: Value)
    requires t != UNIT
    ensures Odd([(t, v)]) == Types([(t, v)]) && NoUnit(AsMap([(t, v)])) == map[t := v]
  {
    DistinctCombines([(t, v)]);
    assert AsMap([(t, v)][..0]) == map[];
    assert AsMap([(t, v)]) == map[t := v];
  }

  /** A row that moves to a wider table and is completed with a bundle. */
  lemma MovedRow(s: TableState, row: nat, d: TableState, m: map<TypeId, Value>)
    requires s.Full() && d.Full() && row < |s.entities|
    requires d.cols.Keys == s.cols.Keys + m.Keys
    ensures var r := d.Receive(s, row);
            var g := Bundled(r, m, |d.entities|);
            && Appends(d, g, s.entities[row]) && g.Row(|d.entities|) == s.Row(row) + NoUnit(m)
  {
    hide Bundled, TableState.Receive, Appends;
    MovedCells(s, row, d, m);
    MovedRowIs(s, row, d, m, Bundled(d.Receive(s, row), m, |d.entities|), s.entities[row]);
  }

  lemma MovedRowIs(s: TableState, row: nat, d: TableState, m: map<TypeId, Value>, g: TableState, id: EntityId)
    requires s.Full() && d.Full() && row < |s.entities| && d.cols.Keys == s.cols.Keys + m.Keys && Appends(d, g, id)
    requires forall t :: t in d.cols ==> g.cols[t] == d.cols[t] + [if t in m then m[t] else s.cols[t][row]]
    ensures g.Row(|d.entities|) == s.Row(row) + NoUnit(m)
  {
    RowIs(g, |d.entities|, s.Row(row) + NoUnit(m));
  }

  lemma RowIs(g: TableState, row: nat, m: Components)
    requires g.Full() && row < |g.entities|
    requires m.Keys == g.cols.Keys - {UNIT}
    requires forall t :: t in m ==> g.cols[t][row] == m[t]
    ensures g.Row(row) == m
  {
  }

  lemma MovedCells(s: TableState, row: nat, d: TableState, m: map<TypeId, Value>)
    requires s.Full() && d.Full() && row < |s.entities|
    requires d.cols.Keys == s.cols.Keys + m.Keys
    ensures var r := d.Receive(s, row);
            var g := Bundled(r, m, |d.entities|);
            && Appends(d, g, s.entities[row])
            && forall t :: t in d.cols ==> g.cols[t] == d.cols[t] + [if t in m then m[t] else s.cols[t][row]]
  {
    var r, n := d.Receive(s, row), |d.entities|;
    var g := Bundled(r, m, n);
    forall t | t in d.cols ensures g.cols[t] == d.cols[t] + [if t in m then m[t] else s.cols[t][row]] {
      if t in m { PutLast(d.cols[t], if t in s.cols then [s.cols[t][row]] else [], m[t]); }
    }
  }

  lemma PutLast(col: seq<Value>, received: seq<Value>, v: Value)
    requires |received| <= 1
    ensures Put(col + received, |col|, v) == col + [v]
  {
    if received == [] { assert col + received == col; }
  }

  /** A row that moves to a table with fewer columns keeps the rest. */
  lemma NarrowedRow(s: TableState, row: nat, d: TableState)
    requires s.Full() && d.Full() && row < |s.entities| && d.cols.Keys <= s.cols.Keys
    ensures var g := d.Receive(s, row);
            && Appends(d, g, s.entities[row])
            && g.Row(|d.entities|) == s.Row(row) - (s.cols.Keys - d.cols.Keys)
  {
  }

  /** A bundle written over an existing row. */
  lemma OverwrittenRow(s: TableState, row: nat, m: map<TypeId, Value>)
    requires s.Full() && row < |s.entities| && m.Keys <= s.cols.Keys
    ensures var g := Bundled(s, m, row);
            Edits(s, g, row) && g.Row(row) == s.Row(row) + NoUnit(m)
  {
  }

  /** A row overwritten by a row of a narrower table. */
  lemma AbsorbedRow(d: TableState, j: nat, s: TableState, i: nat)
    requires s.Full() && d.Full() && i < |s.entities| && j < |d.entities| && s.cols.Keys <= d.cols.Keys
    ensures var g := d.Overwrite(j, s, i);
            Edits(d, g, j) && g.Row(j) == d.Row(j) + s.Row(i)
  {
  }

  // ---------------------------------------------------------------- set, remove, merge

  /** A full table has the columns its key says. */
  lemma KeyDetermines(s: TableState, types: set<TypeId>)
    requires s.Full() && UNIT in types && s.ty == types - {UNIT}
    ensures s.cols.Keys == types
  {
    assert s.cols.Keys == (s.cols.Keys - {UNIT}) + {UNIT};
    assert types == (types - {UNIT}) + {UNIT};
  }

  /** Moving a row is nothing to the allocator, and to the table of any other entity. */
  lemma MovedAllocator<T>(s: Store<T>, id: EntityId, dst: T, n: nat)
    requires s.Agree() && s.index.IsLive(id) && s.CanCut(s.TableOf(id), s.RowOf(id)) && dst in s.tables
    ensures SameTables(s.index.Place(id, dst, 0), s.Transfer(s.TableOf(id), s.RowOf(id), dst).index.Place(id, dst, n))
  {
    CutAllocator(s, s.TableOf(id), s.RowOf(id));
    hide Store.CanCut, Store.Cut;
    SamePlace(s.index, s.Transfer(s.TableOf(id), s.RowOf(id), dst).index, id, dst, 0, n);
  }

  /** `set_bundle` in the current table. */
  lemma SetInPlaceView<T>(s: Store<T>, id: EntityId, m: map<TypeId, Value>)
    requires s.Agree() && s.index.IsLive(id) && m.Keys <= s.tables[s.TableOf(id)].cols.Keys
    ensures var t, row := s.TableOf(id), s.RowOf(id);
            var after := s.Rewrite(t, Bundled(s.tables[t], m, row)).WithIndex(s.index.Place(id, t, row));
            after.Agree() && SameTables(s.index, after.index)
            && after.View() == s.View()[id := s.ComponentsOf(id) + NoUnit(m)]
  {
    var t, row := s.TableOf(id), s.RowOf(id);
    assert s.index.Place(id, t, row) == s.index;
    OverwrittenRow(s.tables[t], row, m);
    RewriteView(s, id, Bundled(s.tables[t], m, row));
  }

  lemma ReceivedLong(s: TableState, row: nat, d: TableState)
    requires s.Full() && d.Full() && row < |s.entities|
    ensures var r := d.Receive(s, row);
            && r.cols.Keys == d.cols.Keys && |r.entities| == |d.entities| + 1
            && forall c :: c in r.cols ==> |d.entities| <= |r.cols[c]|
  {
  }

  /** `set_bundle` through a move to the table with the missing columns. */
  lemma SetMovedView<T>(s: Store<T>, id: EntityId, dst: T, m: map<TypeId, Value>)
    requires s.Agree() && s.index.IsLive(id) && dst in s.tables && dst != s.TableOf(id)
    requires s.tables[dst].cols.Keys == s.tables[s.TableOf(id)].cols.Keys + m.Keys
    ensures var t, row, n := s.TableOf(id), s.RowOf(id), |s.tables[dst].entities|;
            && s.CanCut(t, row) && s.Transfer(t, row, dst).index.IsLive(id)
            && (forall c :: c in m ==>
                  c in s.Transfer(t, row, dst).tables[dst].cols && n <= |s.Transfer(t, row, dst).tables[dst].cols[c]|)
            && var moved := s.Transfer(t, row, dst);
            && var after := moved.Rewrite(dst, Bundled(moved.tables[dst], m, n))
                 .WithIndex(moved.index.Place(id, dst, n));
            && after.Agree() && after.View() == s.View()[id := s.ComponentsOf(id) + NoUnit(m)]
            && SameTables(s.index.Place(id, dst, 0), after.index)
  {
    hide Store.Cut, Slots.WellFormed, Store.CanCut, SameTables, Store.View, Store.EntriesNameRows;
    hide Store.RowsNameEntries, Bundled, TableState.Receive, Slots.Place, TableState.Row;
    var t, row, n := s.TableOf(id), s.RowOf(id), |s.tables[dst].entities|;
    LastRow(s, t);
    MovedAllocator(s, id, dst, n);
    ReceivedLong(s.tables[t], row, s.tables[dst]);
    MovedRow(s.tables[t], row, s.tables[dst], m);
    var grown := Bundled(s.tables[dst].Receive(s.tables[t], row), m, n);
    MoveView(s, id, dst, grown);
    var moved := s.Transfer(t, row, dst);
    var after := moved.Rewrite(dst, Bundled(moved.tables[dst], m, n)).WithIndex(moved.index.Place(id, dst, n));
    assert after == s.Cut(t, row).Attach(id, dst, grown);
  }

  /** `remove_component`: a move to the table without the column. */
  lemma RemovedView<T>(s: Store<T>, id: EntityId, dst: T, c: TypeId)
    requires s.Agree() && s.index.IsLive(id) && dst in s.tables && dst != s.TableOf(id)
    requires c != UNIT && s.tables[dst].cols.Keys == s.tables[s.TableOf(id)].cols.Keys - {c}
    ensures var t, row, n := s.TableOf(id), s.RowOf(id), |s.tables[dst].entities|;
            && s.CanCut(t, row) && s.Transfer(t, row, dst).index.IsLive(id)
            && var moved := s.Transfer(t, row, dst);
            && var after := moved.WithIndex(moved.index.Place(id, dst, n));
            && after.Agree() && after.View() == s.View()[id := s.ComponentsOf(id) - {c}]
            && SameTables(s.index.Place(id, dst, 0), after.index)
  {
    var t, row, n := s.TableOf(id), s.RowOf(id), |s.tables[dst].entities|;
    LastRow(s, t);
    MovedAllocator(s, id, dst, n);
    hide SameTables;
    NarrowedRow(s.tables[t], row, s.tables[dst]);
    var grown := s.tables[dst].Receive(s.tables[t], row);
    MoveView(s, id, dst, grown);
    assert s.tables[t].Row(row) - (s.tables[t].cols.Keys - s.tables[dst].cols.Keys) == s.tables[t].Row(row) - {c};
  }
}
