/**
  The world (src/lib.rs): the slot allocator, the archetypes, and the staging archetypes that are
  kept as empty buffers between sweeps.
 */
module Worlds {
  import opened Wrappers
  import opened TypeIds
  import opened EntityIds
  import opened EntityIndexes
  import opened Tables
  import opened Stores
  import opened Merges
  import opened Filings
  import opened Layouts
  import opened Clones
  import opened Families

  datatype WorldError = EntityNotFound | ComponentNotFound | InsertInvalidId(id: EntityId)

  class World {
    var entityIds: EntityIndex<EntityTable>
    var archetypes: map<Key, EntityTable>
    var staging: map<Key, EntityTable>
    /** The tables of both maps, and which table each of their objects belongs to. */
    ghost var tables: set<EntityTable>
    ghost var region: Region

    ghost function Repr(): set<object>
      reads this, entityIds
    {
      {this, entityIds, entityIds.entries} + region.Keys
    }

    ghost predicate Structure()
      reads this, entityIds, entityIds.entries, region.Keys
    {
      && this !in region && entityIds !in region && entityIds.entries !in region
      && entityIds.Valid()
      && Family(tables, region)
      && Filed(archetypes, staging, Snapshot(tables))
    }

    ghost function Content(): Store<EntityTable>
      reads this, entityIds, tables
    {
      Store(entityIds.state, Snapshot(tables))
    }

    ghost predicate Valid()
      reads this, entityIds, entityIds.entries, region.Keys
    {
      Structure() && Content().Agree()
    }

    /** What the world stands for. */
    ghost function View(): map<EntityId, Components>
      requires Valid()
      reads this, entityIds, entityIds.entries, region.Keys
    {
      Content().View()
    }

    /** No rows in staging behind a live archetype with the same key: what the sweep relies on. */
    ghost predicate Calm()
      reads this, tables
    {
      Filings.Calm(archetypes, staging, Snapshot(tables))
    }

    /** The entities in staging archetypes. */
    ghost function Aside(): set<EntityId>
      reads this, entityIds
    {
      Residents(entityIds.state, staging.Values)
    }

    ghost function Seating(): Layout
      reads this, entityIds
    {
      LayoutOf(entityIds.state, archetypes, staging)
    }

    /** The entry of a live entity names a table that is not, or not any more, one of this world. */
    ghost predicate Lost(id: EntityId)
      reads this, entityIds
    {
      IsLost(entityIds.state, tables, id)
    }

    /** A table of the live archetypes is not also a staging archetype. */
    lemma LiveIsNotStaged(key: Key)
      requires Structure() && key in archetypes
      ensures archetypes[key] !in staging.Values
    {
      hide Coherent, Family;
    }

    ghost predicate Front(t: EntityTable)
      reads this, tables
    {
      InFront(archetypes, staging, Snapshot(tables), t)
    }

    constructor (initialCapacity: nat)
      requires initialCapacity < INDEX_MASK
      ensures Valid() && (forall o :: o in Repr() ==> fresh(o))
      ensures View() == map[] && staging == map[] && archetypes.Keys == {VOID_TY}
      ensures entityIds.state == Fresh(if initialCapacity == 0 then 1 else initialCapacity)
    {
      hide Store.EntriesNameRows, Snapshot, TableState.Full, Store.Agree, Store.View, EntityTable.Valid, Fresh;
      hide Coherent, Family, Filed, Claimed;
      var void := EntityTable.Empty();
      NewTables(void);
      entityIds := new EntityIndex(initialCapacity);
      archetypes := map[VOID_TY := void];
      staging := map[];
      tables := {void};
      region := Claimed(map[void := void], void);
      new;
      EmptyView(if initialCapacity == 0 then 1 else initialCapacity, void, void.state);
      forall o | o in Repr() ensures fresh(o) { if o in void.owner {} }
    }

    // ---------------------------------------------------------------- the steps, on the heap

    /** Swap-removes a row and repairs the entry of the entity that took its place. */
    method RemoveRow(t: EntityTable, row: nat)
      requires Structure() && Content().CanCut(t, row)
      modifies entityIds`state, entityIds.entries, region.Keys
      ensures Structure() && Content() == old(Content()).Cut(t, row)
    {
      hide Family, Coherent, Filed, TableState.RemoveRow;
      CutTypes(t.state, row);
      FiledOnce(archetypes, staging, Snapshot(tables), t, t.state.RemoveRow(row));
      var moved := Families.RemoveRow(tables, region, t, row);
      RepairEntry(moved, row);
    }

    method RepairEntry(moved: Option<EntityId>, row: nat)
      requires Structure()
      requires moved.Some? ==> entityIds.state.IsLive(moved.value)
      modifies entityIds`state, entityIds.entries
      ensures Structure() && Snapshot(tables) == old(Snapshot(tables))
      ensures entityIds.state == match moved
                                 case None => old(entityIds.state)
                                 case Some(id) =>
                                   old(entityIds.state).Place(id, old(entityIds.state).slots[id.index].use.table, row)
    {
      hide Family, Coherent, Filed;
      match moved
      case None =>
      case Some(id) => entityIds.UpdateRowIndex(id, row);
    }

    method Place(id: EntityId, t: EntityTable, row: nat)
      requires Structure() && entityIds.state.IsAllocated(id)
      modifies entityIds`state, entityIds.entries
      ensures Structure() && Content() == old(Content()).WithIndex(old(entityIds.state).Place(id, t, row))
    {
      hide Family, Coherent, Filed, Slots.Place;
      entityIds.Update(id, t, row);
    }

    lemma VoidHere(id: EntityId)
      requires Structure() && archetypes[VOID_TY].state.Full()
      ensures VOID_TY in archetypes && archetypes[VOID_TY] in tables && UNIT in archetypes[VOID_TY].state.cols
      ensures archetypes[VOID_TY] in Snapshot(tables)
      ensures VoidGrown(archetypes[VOID_TY].state, id).ty == archetypes[VOID_TY].state.ty
    {
    }

    method PushVoid(void: EntityTable, id: EntityId) returns (row: nat)
      requires Structure() && void in tables && void.state.Full()
      modifies `region, region.Keys
      ensures Structure() && (forall o :: o in region && o !in old(region) ==> fresh(o))
      ensures region.Keys >= old(region.Keys)
      ensures Content() == old(Content()).Rewrite(void, VoidGrown(old(void.state), id))
      ensures row == |old(void.state.entities)|
    {
      hide VoidGrown, TableState.Full, Snapshot, Family, Coherent, Filed, EntityTable.Valid;
      VoidFiled(void, id);
      row, region := Families.InsertVoid(tables, region, void, id);
    }

    lemma VoidFiled(void: EntityTable, id: EntityId)
      requires Filed<EntityTable>(archetypes, staging, Snapshot(tables)) && void in tables && void.state.Full()
      ensures Filed<EntityTable>(archetypes, staging, Snapshot(tables)[void := VoidGrown(void.state, id)])
    {
      hide Family, Coherent, Filed;
      FiledOnce(archetypes, staging, Snapshot(tables), void, VoidGrown(void.state, id));
    }

    method MoveRow(src: EntityTable, dst: EntityTable, row: nat) returns (res: nat)
      requires Structure() && Content().CanCut(src, row) && dst in tables && src != dst && dst.state.Full()
      modifies `region, entityIds`state, entityIds.entries, region.Keys
      ensures Structure() && Content() == old(Content()).Transfer(src, row, dst)
      ensures forall o :: o in region && o !in old(region) ==> fresh(o)
      ensures region.Keys >= old(region.Keys)
      ensures res == |old(dst.state).entities| && dst.components == old(dst.components)
    {
      hide Family, Coherent, Filed, TableState.RemoveRow, TableState.Receive;
      var moved: Option<EntityId>;
      res, moved := MoveCells(src, dst, row);
      RepairEntry(moved, row);
    }

    method MoveCells(src: EntityTable, dst: EntityTable, row: nat) returns (res: nat, moved: Option<EntityId>)
      requires Structure() && src in tables && src.state.Full() && row < |src.state.entities|
      requires dst in tables && src != dst && dst.state.Full()
      modifies `region, region.Keys
      ensures Structure()
      ensures Snapshot(tables) ==
              old(Snapshot(tables))[src := old(src.state).RemoveRow(row)]
              [dst := old(dst.state).Receive(old(src.state), row)]
      ensures forall o :: o in region && o !in old(region) ==> fresh(o)
      ensures region.Keys >= old(region.Keys)
      ensures res == |old(dst.state).entities| && dst.components == old(dst.components)
      ensures moved == Displaced(old(src.state).entities, row)
    {
      hide Snapshot, EntityTable.Valid, Family, Coherent, Filed, TableState.RemoveRow, TableState.Receive, Displaced;
      hide TableState.Full;
      MoveFiled(src, dst, row);
      res, moved, region := Families.MoveRow(tables, region, src, dst, row);
    }

    lemma MoveFiled(src: EntityTable, dst: EntityTable, row: nat)
      requires Filed<EntityTable>(archetypes, staging, Snapshot(tables))
      requires src in tables && src.state.Full() && row < |src.state.entities|
      requires dst in tables && src != dst
      ensures Filed<EntityTable>(archetypes, staging,
                                 Snapshot(tables)[src := src.state.RemoveRow(row)]
                                 [dst := dst.state.Receive(src.state, row)])
    {
      hide Family, Coherent, Filed;
      CutTypes(src.state, row);
      FiledTwice(archetypes, staging, Snapshot(tables), src, src.state.RemoveRow(row), dst,
                 dst.state.Receive(src.state, row));
    }

    /** `move_entity_into`, with the repair of the displaced entry. */
    method MoveRowInto(src: EntityTable, row: nat, dst: EntityTable, dstRow: nat)
      requires Structure() && Content().CanCut(src, row) && dst in tables && src != dst
      requires dst.state.Full() && dstRow < |dst.state.entities|
      modifies entityIds`state, entityIds.entries, region.Keys
      ensures Structure()
      ensures Content() == old(Content()).Cut(src, row)
                .Rewrite(dst, old(dst.state).Overwrite(dstRow, old(src.state), row))
    {
      hide Family, Coherent, Filed, TableState.RemoveRow, TableState.Overwrite;
      CutTypes(src.state, row);
      OverwriteType(dst.state, dstRow, src.state, row);
      FiledTwice(archetypes, staging, Snapshot(tables), src, src.state.RemoveRow(row), dst,
                 dst.state.Overwrite(dstRow, src.state, row));
      var moved := Families.MoveRowInto(tables, region, src, row, dst, dstRow);
      RepairEntry(moved, row);
    }

    /** The column loop of the general merge, with the repair of the displaced entry. */
    method DrainRow(src: EntityTable, row: nat, dst: EntityTable, dstRow: nat, had: set<TypeId>)
      requires Structure() && Content().CanCut(src, row) && dst in tables && src != dst
      requires Fits(src.state, dst.state, had, dstRow)
      modifies `region, entityIds`state, entityIds.entries, region.Keys
      ensures Structure() && Content() == Drained(old(Content()), src, row, dst, dstRow)
      ensures forall o :: o in region && o !in old(region) ==> fresh(o)
      ensures region.Keys >= old(region.Keys)
    {
      hide Family, Coherent, Filed, TableState.RemoveRow, TableState.Cells, Bundled;
      var moved := DrainCells(src, row, dst, dstRow, had);
      RepairEntry(moved, row);
    }

    method DrainCells(src: EntityTable, row: nat, dst: EntityTable, dstRow: nat, had: set<TypeId>)
      returns (moved: Option<EntityId>)
      requires Structure() && src in tables && src.state.Full() && row < |src.state.entities|
      requires dst in tables && src != dst && Fits(src.state, dst.state, had, dstRow)
      modifies `region, region.Keys
      ensures Structure()
      ensures Snapshot(tables) ==
              old(Snapshot(tables))[src := old(src.state).RemoveRow(row)]
              [dst := Bundled(old(dst.state), old(src.state).Cells(row), dstRow)]
      ensures forall o :: o in region && o !in old(region) ==> fresh(o)
      ensures region.Keys >= old(region.Keys)
      ensures moved == Displaced(old(src.state).entities, row)
    {
      hide Snapshot, EntityTable.Valid, Family, Coherent, Filed, TableState.RemoveRow, TableState.Cells, Bundled;
      hide Displaced, Fits, TableState.Full;
      DrainFiled(src, row, dst, dstRow);
      moved, region := Families.DrainRow(tables, region, src, dst, had, row, dstRow);
    }

    lemma DrainFiled(src: EntityTable, row: nat, dst: EntityTable, dstRow: nat)
      requires Filed<EntityTable>(archetypes, staging, Snapshot(tables))
      requires src in tables && src.state.Full() && row < |src.state.entities|
      requires dst in tables && src != dst
      ensures Filed<EntityTable>(archetypes, staging,
                                 Snapshot(tables)[src := src.state.RemoveRow(row)]
                                 [dst := Bundled(dst.state, src.state.Cells(row), dstRow)])
    {
      hide Family, Coherent, Filed;
      CutTypes(src.state, row);
      FiledTwice(archetypes, staging, Snapshot(tables), src, src.state.RemoveRow(row),
                 dst, Bundled(dst.state, src.state.Cells(row), dstRow));
    }

    /** Puts `id` in charge of a row. */
    method Hand(t: EntityTable, row: nat, id: EntityId)
      requires Structure() && t in tables && row < |t.state.entities|
      modifies region.Keys
      ensures Structure() && Content() == old(Content()).Rewrite(t, Handed(old(t.state), row, id))
    {
      hide Family, Coherent, Filed;
      FiledOnce(archetypes, staging, Snapshot(tables), t, Handed(t.state, row, id));
      Families.SetEntity(tables, region, t, row, id);
    }

    method SwapRows(t: EntityTable, a: nat, b: nat)
      requires Structure() && t in tables && t.state.Full() && a < |t.state.entities| && b < |t.state.entities|
      modifies region.Keys
      ensures Structure() && Content() == old(Content()).Rewrite(t, old(t.state).SwapCells(a, b))
    {
      hide Family, Coherent, Filed;
      FiledOnce(archetypes, staging, Snapshot(tables), t, t.state.SwapCells(a, b));
      Families.SwapComponents(tables, region, t, a, b);
    }

    /** The body of `delete_entity` once the id has been read: also what merging calls. */
    method DropRow(id: EntityId, t: EntityTable, row: nat)
      requires Structure() && Content().CanCut(t, row) && entityIds.state.IsLive(id)
      requires Content().Cut(t, row).index.IsLive(id)
      modifies entityIds, entityIds.entries, region.Keys
      ensures Structure() && entityIds.entries == old(entityIds.entries)
      ensures Content() == old(Content()).Cut(t, row).WithIndex(old(Content()).Cut(t, row).index.Release(id))
      ensures old(Front(t)) ==> (Calm() <==> old(Calm()))
    {
      hide Filings.Calm, InFront, Family, Coherent, Filed, Slots.WellFormed, Slots.Release, Store.Cut, Store.CanCut;
      if Front(t) { CalmAfterCut(archetypes, staging, Content(), t, row); }
      RemoveRow(t, row);
      entityIds.Free(id);
    }

    // ---------------------------------------------------------------- entities

    /** Turns an allocated id into an entity without components. */
    method InitId(id: EntityId)
      requires Valid() && entityIds.state.IsReserved(id)
      modifies Repr()
      ensures Valid() && (forall o :: o in Repr() && o !in old(Repr()) ==> fresh(o))
      ensures View() == old(View())[id := map[]]
      ensures entityIds.state ==
                old(entityIds.state).Place(id, archetypes[VOID_TY], |old(archetypes[VOID_TY].state.entities)|)
      ensures Forget(entityIds.state) == Forget(old(entityIds.state)).Place(id, (), 0)
      ensures entityIds == old(entityIds) && archetypes == old(archetypes) && staging == old(staging)
      ensures Aside() == old(Aside()) && entityIds.count == old(entityIds.count)
      ensures SettledBut(old(entityIds.state), id.index) ==> Settled(entityIds.state)
      ensures old(Calm()) ==> Calm()
    {
      hide Filings.Calm, InFront, Snapshot, Settled, SettledBut, TableState.Full, Family, Coherent, Slots.WellFormed;
      hide Slots.Place, Store.EntriesNameRows, Store.RowsNameEntries, Store.View, Residents;
      InitView(Content(), id, archetypes[VOID_TY]);
      InSnapshot(tables, archetypes[VOID_TY]);
      VoidInFront();
      VoidHere(id);
      LiveIsNotStaged(VOID_TY);
      PlacedResidents(entityIds.state, id, archetypes[VOID_TY], |archetypes[VOID_TY].state.entities|, staging.Values);
      CalmAfterRewrite(archetypes, staging, Content(), archetypes[VOID_TY], VoidGrown(archetypes[VOID_TY].state, id));
      PlaceSettles(entityIds.state, id, archetypes[VOID_TY], |archetypes[VOID_TY].state.entities|);
      ForgetPlace(entityIds.state, id, archetypes[VOID_TY], |archetypes[VOID_TY].state.entities|);
      var row := PushVoid(archetypes[VOID_TY], id);
      Place(id, archetypes[VOID_TY], row);
    }

    /** A new entity: an id that was not in use, without components. */
    method InsertEntity() returns (id: EntityId)
      requires Valid() && entityIds.state.CanAllocate()
      modifies Repr()
      ensures Valid() && (forall o :: o in Repr() && o !in old(Repr()) ==> fresh(o))
      ensures id !in old(View()) && View() == old(View())[id := map[]]
      ensures archetypes == old(archetypes) && staging == old(staging) && Aside() == old(Aside())
      ensures Inserts(old(entityIds.state), id, entityIds.state)
      ensures old(Calm()) ==> Calm()
    {
      hide Filings.Calm, TableState.Full, Snapshot, Filed, EntityTable.Valid, Allocates, Inserts, InsertsClaimed;
      hide Forget, Family, Coherent, Store.Agree, Store.View, Slots.Place;
      id := AllocateId();
      ghost var handed := entityIds.state;
      InitId(id);
      PlaceInserts(old(entityIds.state), id, handed, entityIds.state);
    }

    method AllocateId() returns (id: EntityId)
      requires Valid() && entityIds.state.CanAllocate()
      modifies entityIds, entityIds.entries
      ensures Valid() && (entityIds.entries == old(entityIds.entries) || fresh(entityIds.entries))
      ensures id !in old(View()) && View() == old(View()) && entityIds.state.IsReserved(id)
      ensures Allocates(old(entityIds.state), id, entityIds.state) && Aside() == old(Aside())
    {
      hide Residents, Family, Filed, Coherent, Slots.WellFormed, GrowTarget, Allocates, Slots.CanAllocate, Store.Agree;
      hide Store.View;
      ghost var content := Content();
      id := entityIds.AllocateWithResize();
      AllocatesView(content, id, entityIds.state);
      HandedOut(content, id, entityIds.state, staging.Values);
    }

    /** `insert_id`: succeeds exactly when the slot is free. */
    method InsertId(id: EntityId) returns (r: Result<(), InsertError>)
      requires Valid() && id.generation <= GEN_MASK
      requires id.index < |entityIds.state.slots| || id.index + 1 < INDEX_MASK
      modifies Repr()
      ensures Valid() && (forall o :: o in Repr() && o !in old(Repr()) ==> fresh(o))
      ensures r.Ok? <==> id.index >= |old(entityIds.state).slots| || old(entityIds.state).slots[id.index].use.Free?
      ensures r.Ok? ==> id !in old(View()) && View() == old(View())[id := map[]]
      ensures r.Err? ==> View() == old(View()) && r.error == InsertFailure(old(entityIds.state), id)
      ensures r.Err? ==> r.error == if old(entityIds.state).slots[id.index].generation == id.generation
                                    then AlreadyInserted(id) else Taken(id)
      ensures archetypes == old(archetypes) && staging == old(staging) && Aside() == old(Aside())
      ensures r.Ok? ==> InsertsClaimed(old(entityIds.state), id, entityIds.state)
      ensures r.Err? ==> entityIds.state == old(entityIds.state)
      ensures Settled(old(entityIds.state)) ==> Settled(entityIds.state)
      ensures old(Calm()) ==> Calm()
    {
      hide Filings.Calm, TableState.Full, Snapshot, Settled, SettledBut, Slots.Place, Filed, EntityTable.Valid;
      hide Claims, Inserts, InsertsClaimed, Forget, Family, Coherent, Store.Agree, Store.View;
      r := ClaimId(id);
      if r.Ok? {
        ghost var claimed := entityIds.state;
        InitId(id);
        PlaceInserts(old(entityIds.state), id, claimed, entityIds.state);
      }
    }

    method ClaimId(id: EntityId) returns (r: Result<(), InsertError>)
      requires Valid() && id.generation <= GEN_MASK
      requires id.index < |entityIds.state.slots| || id.index + 1 < INDEX_MASK
      modifies entityIds, entityIds.entries
      ensures Valid() && (entityIds.entries == old(entityIds.entries) || fresh(entityIds.entries))
      ensures r.Ok? <==> id.index >= |old(entityIds.state).slots| || old(entityIds.state).slots[id.index].use.Free?
      ensures r.Ok? ==> id !in old(View()) && View() == old(View()) && entityIds.state.IsReserved(id)
      ensures r.Err? ==> View() == old(View()) && r.error == InsertFailure(old(entityIds.state), id)
      ensures r.Ok? && Settled(old(entityIds.state)) ==> SettledBut(entityIds.state, id.index)
      ensures r.Err? ==> entityIds.state == old(entityIds.state)
      ensures r.Ok? ==> Claims(old(entityIds.state), id, entityIds.state)
      ensures Aside() == old(Aside())
    {
      hide InsertFailure, Snapshot, EntityTable.Valid, TableState.Full, Slots.IsLive, Settled, SettledBut, Family;
      hide Filed, Coherent, Seized, Slots.Grow, Slots.WellFormed, Store.Agree, Store.View, Residents;
      ghost var content, before := Content(), entityIds.state;
      ghost var cap := if id.index < |before.slots| then |before.slots| else id.index + 1;
      assert Spanning(before, id.index) == before.Grow(cap) by { GrowNothing(before); }
      IndexSize(content);
      GrowNothing(before);
      GrowFree(before, cap);
      r := entityIds.InsertId(id);
      if r.Ok? {
        ClaimedSomewhere(content, cap, id, entityIds.state);
        HandedOut(content, id, entityIds.state, staging.Values);
      }
    }

    /** Makes room for `additional` more entities, so that so many allocations need no growth. */
    method ReserveEntities(additional: nat)
      requires Valid() && entityIds.count + additional < INDEX_MASK
      modifies entityIds
      ensures Valid() && (entityIds.entries == old(entityIds.entries) || fresh(entityIds.entries))
      ensures View() == old(View()) && |entityIds.state.free| >= additional
      ensures |entityIds.state.slots| >= |old(entityIds.state.slots)|
      ensures entityIds.state == Reserving(old(entityIds.state), additional) && Aside() == old(Aside())
    {
      hide Residents, Family, Filed, Coherent, Slots.WellFormed, Store.Agree, Store.View;
      IndexSize(Content());
      CountOf(entityIds.entries[..], entityIds.count, entityIds.freeList, entityIds.state);
      ReservingGrows(entityIds.state, additional);
      GrownView(Content());
      ReservingResidents(entityIds.state, additional, staging.Values);
      hide Slots.Grow, Reserving;
      entityIds.Reserve(additional);
    }

    method DeleteEntity(id: EntityId) returns (r: Result<(), WorldError>)
      requires Valid()
      modifies Repr()
      ensures Valid() && (forall o :: o in Repr() ==> o in old(Repr()))
      ensures r.Ok? <==> id in old(View())
      ensures r.Err? ==> r.error == EntityNotFound && Content() == old(Content())
      ensures View() == old(View()) - {id}
      ensures r.Ok? ==> id.index < |old(entityIds.state).slots|
      ensures r.Ok? ==> SameAllocator(old(entityIds.state).Release(id), entityIds.state)
      ensures archetypes == old(archetypes) && staging == old(staging) && Aside() == old(Aside()) - {id}
      ensures old(Calm()) ==> Calm()
    {
      hide Filings.Calm, InFront, Family, Coherent, Filed, Slots.WellFormed, Slots.Release, Store.EntriesNameRows;
      hide Store.RowsNameEntries, Store.View, Store.Cut, Store.CanCut, SameTables, SameAllocator;
      ViewKeys(Content(), id);
      if !entityIds.IsValid(id) {
        AbsentStays(View(), id);
        return Err(EntityNotFound);
      }
      DeleteView(Content(), id);
      ghost var before := entityIds.state;
      var at := entityIds.Read(id);
      if Calm() { HomeInFront(id); }
      DropRow(id, at.value.0, at.value.1);
      ReleasedResidents(before, entityIds.state, id, staging.Values);
      return Ok(());
    }

    // ---------------------------------------------------------------- components

    /** The archetype under a key: the live ones first, then the staging ones. */
    function GetArchetypeByKey(key: Key): Option<EntityTable>
      reads this
    {
      if key in archetypes then Some(archetypes[key])
      else if key in staging then Some(staging[key])
      else None
    }

    /** Where a live entity is: a complete table of this world, in a row that holds its id. */
    lemma Home(id: EntityId)
      requires Valid() && entityIds.state.IsLive(id)
      ensures var t, row := entityIds.state.slots[id.index].use.table, entityIds.state.slots[id.index].use.row;
              && t in tables && t.Complete() && t.state.ty == t.ty && t.components.Keys == t.state.cols.Keys
              && row < |t.state.entities| && t.state.entities[row] == id && id in View()
              && View()[id].Keys == t.state.ty
    {
      hide Coherent, Filed;
      Member(tables, region, Content().TableOf(id));
      ViewKeys(Content(), id);
      TypeIsKeys(Content(), id);
    }

    lemma FullHere()
      requires Valid()
      ensures forall t :: t in tables ==> t.state.Full()
      ensures forall t :: t in tables ==> t in Snapshot(tables) && Snapshot(tables)[t] == t.state
    {
      hide Family, Filed, Coherent, Slots.WellFormed, Store.EntriesNameRows, Store.RowsNameEntries, TableState.Full;
      forall t | t in tables ensures t.state.Full() { assert Snapshot(tables)[t].Full(); }
    }

    lemma RowsHere(t: EntityTable, row: nat, bundle: Bundle)
      requires t.state.Full() && Types(bundle) <= t.state.cols.Keys
      ensures row <= |t.state.entities| ==> forall c :: c in Types(bundle) ==> row <= |t.state.cols[c]|
    {
      hide Types;
    }

    /** What is filed under a key is a complete table with that key. */
    lemma Found(key: Key)
      requires Valid() && GetArchetypeByKey(key).Some?
      ensures var t := GetArchetypeByKey(key).value;
              t in tables && t.Complete() && t.state.ty == key && t.components.Keys == t.state.cols.Keys
    {
      hide Coherent, Store.EntriesNameRows, Store.RowsNameEntries;
      Member(tables, region, GetArchetypeByKey(key).value);
      assert GetArchetypeByKey(key).value in Snapshot(tables);
    }

    /** In a calm world no entity is behind a live archetype. */
    lemma HomeInFront(id: EntityId)
      requires Valid() && Calm() && entityIds.state.IsLive(id)
      ensures Front(entityIds.state.slots[id.index].use.table)
    {
      hide Coherent, Family;
      InSnapshot(tables, Content().TableOf(id));
      OccupiedInFront(archetypes, staging, Snapshot(tables), Content().TableOf(id));
    }

    lemma FoundInFront(key: Key)
      requires Structure() && GetArchetypeByKey(key).Some?
      ensures Front(GetArchetypeByKey(key).value)
    {
      hide Coherent, Family;
    }

    /** What is found is a staging archetype exactly when there is no live one under the key. */
    lemma FoundAside(key: Key)
      requires Structure() && GetArchetypeByKey(key).Some?
      ensures GetArchetypeByKey(key).value in staging.Values <==> key !in archetypes
    {
      hide Coherent, Family;
      if key in archetypes { LiveIsNotStaged(key); }
    }

    lemma VoidInFront()
      requires Structure()
      ensures VOID_TY in archetypes && Front(archetypes[VOID_TY])
    {
      hide Coherent, Family;
    }

    /** A staging archetype that `remove_component` would put a new live one in front of. */
    ghost predicate Hidden(t: EntityTable, c: TypeId)
      reads this, tables, t
    {
      Xor(t.ty, HashTy(c)) !in archetypes && Occupied(Snapshot(tables), staging, Xor(t.ty, HashTy(c)))
    }

    lemma NotFound(key: Key, u: EntityTable)
      requires Structure() && GetArchetypeByKey(key).None? && u in tables
      ensures u.state.ty != key
    {
      hide Coherent, Family;
      InSnapshot(tables, u);
    }

    lemma NoArchetype(key: Key)
      requires GetArchetypeByKey(key).None?
      ensures key !in archetypes && !Occupied(Snapshot(tables), staging, key)
    {
    }

    /** What filing a new archetype does to the tables in front. */
    lemma NewInFront(t: EntityTable, u: EntityTable)
      requires Structure() && t !in tables && u in tables && t.Valid() && t.ty !in archetypes && t.ty != u.ty
               && u.state.ty == u.ty
      ensures var live, states := archetypes[t.ty := t], Snapshot(tables)[t := t.state];
              && (Calm() ==> (Filings.Calm(live, staging, states) <==> !Occupied(Snapshot(tables), staging, t.ty)))
              && InFront(live, staging, states, t)
              && (Front(u) ==> InFront(live, staging, states, u))
    {
      hide Coherent, Family, Filed, Occupied;
      if Calm() { NewHides(archetypes, staging, Snapshot(tables), t, t.state); }
      hide Filings.Calm;
    }

    /** Overwrites the components of the bundle and adds those that are missing. */
    method SetBundle(id: EntityId, bundle: Bundle) returns (r: Result<(), WorldError>)
      requires Valid() && (id in View() ==> Combines(bundle, View()[id].Keys + {UNIT}))
      modifies Repr()
      ensures Valid() && (forall o :: o in Repr() && o !in old(Repr()) ==> fresh(o))
      ensures r.Ok? <==> id in old(View())
      ensures r.Err? ==> r.error == EntityNotFound && View() == old(View())
      ensures r.Ok? ==> View() == old(View())[id := old(View())[id] + NoUnit(AsMap(bundle))]
      ensures SameAllocator(old(entityIds.state), entityIds.state)
      ensures staging == old(staging)
              && Extends(old(archetypes), archetypes, if r.Ok? then {View()[id].Keys} - staging.Keys else {})
      ensures Aside() == if r.Err? || View()[id].Keys == old(View())[id].Keys then old(Aside())
                         else Joining(old(Aside()), id, View()[id].Keys !in archetypes)
      ensures old(Calm()) ==> Calm()
    {
      hide Filings.Calm, InFront, Family, Coherent, Filed, Slots.WellFormed, Combines, Types, AsMap, NoUnit, Extends;
      hide EntityTable.CanInsert, Store.Agree, Store.View, Residents, Joining;
      ViewKeys(Content(), id);
      ExtendsNothing(archetypes);
      if !entityIds.IsValid(id) {
        return Err(EntityNotFound);
      }
      Home(id);
      if Calm() { HomeInFront(id); }
      var at := entityIds.Read(id);
      var (archetype, index) := at.value;
      Insertable(tables, region, archetype, bundle);
      SetKeys(View()[id], archetype.state, bundle);
      assert archetype.state.cols.Keys == View()[id].Keys + {UNIT};
      if archetype.CanInsert(bundle) {
        FiledHere(archetype);
        SetInPlace(id, archetype, index, bundle);
      } else {
        SetElsewhere(id, archetype, index, bundle);
      }
      return Ok(());
    }

    /** The row moves to the archetype that has the missing columns, a new one if need be. */
    method SetElsewhere(id: EntityId, archetype: EntityTable, index: nat, bundle: Bundle)
      requires Valid() && Combines(bundle, archetype.state.cols.Keys) && entityIds.state.IsLive(id) && id in View()
      requires entityIds.state.slots[id.index].use == Live(archetype, index)
      requires archetype in tables && archetype.Complete() && archetype.components.Keys == archetype.state.cols.Keys
      requires Calm() ==> Front(archetype)
      requires !(Types(bundle) <= archetype.state.cols.Keys)
      modifies Repr()
      ensures Valid() && (forall o :: o in Repr() && o !in old(Repr()) ==> fresh(o))
      ensures View() == old(View())[id := old(View()[id]) + NoUnit(AsMap(bundle))]
      ensures SameAllocator(old(entityIds.state), entityIds.state)
      ensures staging == old(staging)
      ensures Extends(old(archetypes), archetypes,
                      {old(archetype.state.cols.Keys + Types(bundle)) - {UNIT}} - staging.Keys)
      ensures Aside() == Joining(old(Aside()), id,
                                 old(archetype.state.cols.Keys + Types(bundle)) - {UNIT} !in archetypes)
      ensures old(Calm()) ==> Calm()
    {
      hide EntityTable.Valid, EntityTable.Owns, Filings.Calm, InFront, Family, Coherent, Filed, Slots.WellFormed;
      hide Combines, Types, AsMap, NoUnit, Extends, Store.Agree, Store.View, SameAllocator, Residents, Joining;
      var newHash := archetype.ComputeHash(bundle);
      CombinedKeys(archetype.state.cols.Keys, bundle);
      match GetArchetypeByKey(newHash)
      case Some(newArch) =>
        Found(newHash);
        FoundInFront(newHash);
        FoundAside(newHash);
        KeyDetermines(newArch.state, archetype.state.cols.Keys + Types(bundle));
        ExtendsFiled(archetypes, newHash, staging.Keys);
        SetByMoving(id, archetype, index, newArch, bundle);
      case None =>
        var newArch := ExtendArchetype(archetype, bundle, newHash);
        ExtendsBy(old(archetypes), newHash, newArch, staging.Keys);
        LiveIsNotStaged(newHash);
        SetByMoving(id, archetype, index, newArch, bundle);
    }

    method ExtendArchetype(archetype: EntityTable, bundle: Bundle, ghost key: Key) returns (newArch: EntityTable)
      requires Valid() && archetype in tables && archetype.Complete()
      requires archetype.components.Keys == archetype.state.cols.Keys
      requires key == (archetype.state.cols.Keys + Types(bundle)) - {UNIT} && GetArchetypeByKey(key).None?
      modifies this
      ensures Valid() && (forall o :: o in Repr() && o !in old(Repr()) ==> fresh(o))
      ensures View() == old(View()) && entityIds == old(entityIds) && tables == old(tables) + {newArch}
      ensures newArch !in old(tables)
      ensures newArch.state.cols.Keys == archetype.state.cols.Keys + Types(bundle)
      ensures archetypes == old(archetypes)[key := newArch]
      ensures staging == old(staging)
      ensures old(Calm()) ==> Calm()
      ensures Front(newArch) && (old(Front(archetype)) ==> Front(archetype))
    {
      hide Filings.Calm, InFront, EntityTable.Valid, EntityTable.Owns, EntityIndex.Valid, TableState.Full, Snapshot;
      hide Family, Coherent, Filed, Slots.WellFormed, Types, Store.Agree, Store.View, Occupied;
      hide World.GetArchetypeByKey;
      newArch := archetype.Extend(bundle);
      Member(tables, region, archetype);
      assert newArch.ty == key;
      NoArchetype(key);
      NotFound(key, archetype);
      NewInFront(newArch, archetype);
      AddArchetype(newArch);
    }

    method WriteBundle(t: EntityTable, bundle: Bundle, row: nat)
      requires Structure() && t in tables && Types(bundle) <= t.state.cols.Keys
      requires forall c :: c in Types(bundle) ==> row <= |t.state.cols[c]|
      modifies `region, region.Keys
      ensures Structure() && (forall o :: o in region && o !in old(region) ==> fresh(o))
      ensures region.Keys >= old(region.Keys)
      ensures Content() == old(Content()).Rewrite(t, Bundled(old(t.state), AsMap(bundle), row))
    {
      hide Snapshot, EntityTable.Valid, Coherent, Family, Bundled, AsMap, Filed, EntityTable.CanInsert, Types;
      WriteFiled(t, bundle, row);
      Insertable(tables, region, t, bundle);
      region := Families.InsertBundle(tables, region, t, bundle, row);
    }

    lemma WriteFiled(t: EntityTable, bundle: Bundle, row: nat)
      requires Filed<EntityTable>(archetypes, staging, Snapshot(tables)) && t in tables
      ensures Filed<EntityTable>(archetypes, staging, Snapshot(tables)[t := Bundled(t.state, AsMap(bundle), row)])
    {
      hide Family, Coherent, Filed, AsMap;
      FiledOnce(archetypes, staging, Snapshot(tables), t, Bundled(t.state, AsMap(bundle), row));
    }

    /** Files a new table without rows under its key. */
    method AddArchetype(t: EntityTable)
      requires Valid() && t.Complete() && t.state.entities == []
      requires t !in region
               && (forall o :: o in t.owner ==> o !in region && o != this && o != entityIds && o != entityIds.entries)
      requires t.ty !in archetypes
      modifies this
      ensures Valid() && View() == old(View())
      ensures Content() == old(Content()).Rewrite(t, t.state)
      ensures region.Keys == old(region.Keys) + {t} + t.owner.Keys && tables == old(tables) + {t}
      ensures entityIds == old(entityIds) && archetypes == old(archetypes)[t.ty := t] && staging == old(staging)
    {
      hide TableState.Full, Coherent, Store.Agree, Store.View, Filed, Family, Claimed;
      Joins(tables, region, t);
      NewTableView(Content(), t, t.state);
      FiledMore(archetypes, staging, Snapshot(tables), t, t.state);
      archetypes, tables, region := archetypes[t.ty := t], tables + {t}, Claimed(region[t := t], t);
    }

    method SetByMoving(id: EntityId, t: EntityTable, row: nat, dst: EntityTable, bundle: Bundle)
      requires Valid() && entityIds.state.IsLive(id) && id in View()
      requires entityIds.state.slots[id.index].use == Live(t, row) && dst in tables && dst != t
      requires t in tables && dst.state.cols.Keys == t.state.cols.Keys + Types(bundle)
      modifies Repr()
      ensures Valid() && (forall o :: o in Repr() && o !in old(Repr()) ==> fresh(o))
      ensures View() == old(View())[id := old(View()[id]) + NoUnit(AsMap(bundle))]
      ensures SameAllocator(old(entityIds.state), entityIds.state)
      ensures Aside() == Joining(old(Aside()), id, dst in staging.Values)
      ensures archetypes == old(archetypes) && staging == old(staging)
      ensures old(Front(t)) && old(Front(dst)) ==> (Calm() <==> old(Calm()))
    {
      hide Filings.Calm, InFront, Family, Coherent, Filed, Slots.WellFormed, Bundled, AsMap, Types, NoUnit;
      hide Store.Agree, Store.View, Store.Transfer, Store.CanCut, Slots.Place, EntityTable.Valid, TableState.Full;
      hide SameTables, SameAllocator, Residents, Joining;
      ghost var before := entityIds.state;
      FullHere();
      SetMovedView(Content(), id, dst, AsMap(bundle));
      ViewKeys(Content(), id);
      if Front(t) && Front(dst) {
        CalmAfterMove(archetypes, staging, Content(), t, row, dst);
      }
      var index := MoveRow(t, dst, row);
      WriteBundle(dst, bundle, index);
      Place(id, dst, index);
      MovedResidents(before, entityIds.state, id, dst, staging.Values);
    }

    method SetInPlace(id: EntityId, t: EntityTable, row: nat, bundle: Bundle)
      requires Valid() && entityIds.state.IsLive(id) && id in View()
      requires entityIds.state.slots[id.index].use == Live(t, row)
      requires t in tables && Types(bundle) <= t.state.cols.Keys
      modifies Repr()
      ensures Valid() && (forall o :: o in Repr() && o !in old(Repr()) ==> fresh(o))
      ensures View() == old(View())[id := old(View()[id]) + NoUnit(AsMap(bundle))]
      ensures SameAllocator(old(entityIds.state), entityIds.state) && Aside() == old(Aside())
      ensures archetypes == old(archetypes) && staging == old(staging)
      ensures old(Front(t)) ==> (Calm() <==> old(Calm()))
    {
      hide Filings.Calm, InFront, Family, Coherent, Filed, Slots.WellFormed, Bundled, AsMap, Types, NoUnit;
      hide Store.Agree, Store.View, Slots.Place, EntityTable.Valid, TableState.Full, SameTables, SameAllocator;
      hide Residents;
      ghost var before := entityIds.state;
      FullHere();
      RowsHere(t, row, bundle);
      SetInPlaceView(Content(), id, AsMap(bundle));
      ViewKeys(Content(), id);
      if Front(t) { CalmAfterRewrite(archetypes, staging, Content(), t, Bundled(t.state, AsMap(bundle), row)); }
      WriteBundle(t, bundle, row);
      Place(id, t, row);
      SameResidents(before, entityIds.state, staging.Values);
    }

    /** Takes one component off an entity. The target is looked up among the live archetypes only. */
    method RemoveComponent(id: EntityId, c: TypeId) returns (r: Result<(), WorldError>)
      requires Valid() && c != UNIT
      modifies Repr()
      ensures Valid() && (forall o :: o in Repr() && o !in old(Repr()) ==> fresh(o))
      ensures r.Ok? <==> id in old(View()) && c in old(View())[id]
      ensures r.Err? ==> View() == old(View())
      ensures r.Err? ==> r.error == if id in old(View()) then ComponentNotFound else EntityNotFound
      ensures r.Ok? ==> View() == old(View())[id := old(View())[id] - {c}]
      ensures SameAllocator(old(entityIds.state), entityIds.state)
      ensures staging == old(staging) && Extends(old(archetypes), archetypes, if r.Ok? then {View()[id].Keys} else {})
      ensures Aside() == if r.Ok? then old(Aside()) - {id} else old(Aside())
      ensures r.Ok? ==> InArchetype(id, View()[id].Keys)
      ensures r.Ok? && old(Calm()) ==> (Calm() <==> !old(Hidden(entityIds.state.slots[id.index].use.table, c)))
      ensures r.Err? && old(Calm()) ==> Calm()
    {
      hide Filings.Calm, InFront, World.Hidden, Family, Coherent, Filed, Slots.WellFormed, Store.Agree, Store.View;
      hide Extends, World.InArchetype, Xor, Residents;
      ExtendsNothing(archetypes);
      ViewKeys(Content(), id);
      if !entityIds.IsValid(id) {
        return Err(EntityNotFound);
      }
      Home(id);
      if Calm() { HomeInFront(id); }
      HasComponent(id, c);
      var at := entityIds.Read(id);
      var (archetype, index) := at.value;
      if c !in archetype.components {
        return Err(ComponentNotFound);
      }
      XorRemoves(View()[id], archetype.ty, archetype.state, c);
      RemoveColumn(id, archetype, index, c);
      return Ok(());
    }

    /** The entity is in the live archetype under `key`. */
    ghost predicate InArchetype(id: EntityId, key: Key)
      reads this, entityIds
    {
      key in archetypes && InTable(entityIds.state, id, archetypes[key])
    }

    lemma FiledHere(t: EntityTable)
      requires Structure() && t in tables
      ensures Extends(archetypes, archetypes, {t.state.ty} - staging.Keys)
    {
      hide Family, Coherent, Filed, Extends;
      InSnapshot(tables, t);
      FiledSomewhere(archetypes, staging, Snapshot(tables), t);
    }

    lemma HasComponent(id: EntityId, c: TypeId)
      requires Valid() && entityIds.state.IsLive(id) && c != UNIT
      ensures id in View()
      ensures c in View()[id] <==> c in entityIds.state.slots[id.index].use.table.components
    {
      hide Coherent, Filed;
      Home(id);
      ViewKeys(Content(), id);
    }

    method RemoveColumn(id: EntityId, archetype: EntityTable, index: nat, c: TypeId)
      requires Valid() && entityIds.state.IsLive(id) && id in View() && c != UNIT
      requires entityIds.state.slots[id.index].use == Live(archetype, index)
      requires archetype in tables && archetype.Complete() && archetype.components.Keys == archetype.state.cols.Keys
      requires c in archetype.components && archetype.state.ty == archetype.ty && (Calm() ==> Front(archetype))
      modifies Repr()
      ensures Valid() && (forall o :: o in Repr() && o !in old(Repr()) ==> fresh(o))
      ensures View() == old(View())[id := old(View()[id]) - {c}]
      ensures SameAllocator(old(entityIds.state), entityIds.state)
      ensures staging == old(staging) && Extends(old(archetypes), archetypes, {Xor(old(archetype.ty), HashTy(c))})
      ensures Aside() == old(Aside()) - {id}
      ensures InArchetype(id, Xor(old(archetype.ty), HashTy(c)))
      ensures old(Calm()) ==> (Calm() <==> !old(Hidden(archetype, c)))
    {
      hide Filings.Calm, InFront, Family, Coherent, Filed, Slots.WellFormed, Store.Agree, Store.View, Extends;
      hide InTable, Xor, EntityTable.Valid, Store.EntriesNameRows, Store.RowsNameEntries, Residents, SameAllocator;
      var newTy := Xor(archetype.ty, HashTy(c));
      ReducedKey(archetype.ty, archetype.state, c);
      if newTy in archetypes {
        Found(newTy);
        FoundInFront(newTy);
        KeyDetermines(archetypes[newTy].state, archetype.state.cols.Keys - {c});
        ExtendsFiled(archetypes, newTy, {});
        LiveIsNotStaged(newTy);
        MoveOut(id, archetype, index, archetypes[newTy], c);
      } else {
        var newArch := ReduceArchetype(archetype, c);
        ExtendsBy(old(archetypes), newTy, newArch, {});
        LiveIsNotStaged(newTy);
        MoveOut(id, archetype, index, newArch, c);
      }
    }

    method ReduceArchetype(archetype: EntityTable, c: TypeId) returns (newArch: EntityTable)
      requires Valid() && archetype in tables && archetype.Complete()
      requires archetype.components.Keys == archetype.state.cols.Keys && c != UNIT && c in archetype.components
      requires Xor(archetype.ty, HashTy(c)) !in archetypes
      modifies this
      ensures Valid() && (forall o :: o in Repr() && o !in old(Repr()) ==> fresh(o))
      ensures View() == old(View()) && entityIds == old(entityIds) && tables == old(tables) + {newArch}
      ensures newArch !in old(tables)
      ensures newArch.state.cols.Keys == archetype.state.cols.Keys - {c}
      ensures archetypes == old(archetypes)[Xor(archetype.ty, HashTy(c)) := newArch] && staging == old(staging)
      ensures old(Calm()) ==> (Calm() <==> !old(Hidden(archetype, c)))
      ensures Front(newArch) && (old(Front(archetype)) ==> Front(archetype))
    {
      hide Filings.Calm, InFront, EntityTable.Valid, TableState.Full, Family, Coherent, Filed, Slots.WellFormed;
      hide Types, Store.Agree, Store.View;
      newArch := archetype.Reduce(c);
      Member(tables, region, archetype);
      XorMoves(archetype.ty, c);
      NewInFront(newArch, archetype);
      AddArchetype(newArch);
    }

    method MoveOut(id: EntityId, t: EntityTable, row: nat, dst: EntityTable, c: TypeId)
      requires Valid() && entityIds.state.IsLive(id) && id in View() && c != UNIT
      requires entityIds.state.slots[id.index].use == Live(t, row) && dst in tables && dst != t
      requires t in tables && dst.state.cols.Keys == t.state.cols.Keys - {c}
      modifies Repr()
      ensures Valid() && (forall o :: o in Repr() && o !in old(Repr()) ==> fresh(o))
      ensures View() == old(View())[id := old(View()[id]) - {c}]
      ensures SameAllocator(old(entityIds.state), entityIds.state)
      ensures archetypes == old(archetypes) && staging == old(staging)
      ensures InTable(entityIds.state, id, dst) && Aside() == Joining(old(Aside()), id, dst in staging.Values)
      ensures old(Front(t)) && old(Front(dst)) ==> (Calm() <==> old(Calm()))
    {
      hide Filings.Calm, InFront, Family, Coherent, Filed, Slots.WellFormed, Bundled, AsMap, Types, NoUnit;
      hide Store.Agree, Store.View, Store.Transfer, Store.CanCut, Slots.Place, EntityTable.Valid, TableState.Full;
      hide SameTables, SameAllocator, Residents, Joining;
      ghost var before := entityIds.state;
      FullHere();
      RemovedView(Content(), id, dst, c);
      ViewKeys(Content(), id);
      if Front(t) && Front(dst) { CalmAfterMove(archetypes, staging, Content(), t, row, dst); }
      var index := MoveRow(t, dst, row);
      PlacedAt(entityIds.state, id, dst, index);
      Place(id, dst, index);
      MovedResidents(before, entityIds.state, id, dst, staging.Values);
    }

    // ---------------------------------------------------------------- merging

    /**
      Moves all components of `lhs` over to `rhs` and deletes `lhs`. For two entities of the same
      type the code swaps rows first; what comes of that is `SwapMerge`.
     */
    method MergeEntities(lhs: EntityId, rhs: EntityId) returns (r: Result<(), WorldError>)
      requires Valid()
      requires lhs in View() && rhs in View() && lhs != rhs && SameType(lhs, rhs) ==> RowsInRange(Content(), lhs, rhs)
      modifies Repr()
      ensures Structure() && (forall o :: o in Repr() && o !in old(Repr()) ==> fresh(o))
      ensures r.Ok? <==> lhs == rhs || (lhs in old(View()) && rhs in old(View()))
      ensures r.Err? ==> r.error == EntityNotFound
      ensures r.Err? || lhs == rhs ==> Valid() && View() == old(View()) && entityIds.state == old(entityIds.state)
      ensures r.Ok? && lhs != rhs && !old(SameType(lhs, rhs)) ==> Valid() && View() == MergedView(old(View()), lhs, rhs)
      ensures r.Ok? && lhs != rhs && !old(SameType(lhs, rhs)) ==>
                var m := old(View()); View() == (m - {lhs})[rhs := m[rhs] + m[lhs]]
      ensures r.Ok? && lhs != rhs && !old(SameType(lhs, rhs)) ==>
                lhs.index < |old(entityIds.state).slots|
                && SameAllocator(old(entityIds.state).Release(lhs), entityIds.state)
      ensures r.Ok? && lhs != rhs && old(SameType(lhs, rhs)) ==> Content() == SwapMerge(old(Content()), lhs, rhs)
      ensures staging == old(staging)
      ensures r.Err? || lhs == rhs ==> Aside() == old(Aside())
      ensures r.Ok? && lhs != rhs && !old(SameType(lhs, rhs)) ==>
                Aside() == MergedAside(old(Aside()), lhs, old(View())[lhs].Keys, rhs, old(View())[rhs].Keys)
      ensures Extends(old(archetypes), archetypes,
                      if r.Ok? && lhs != rhs && !old(SameType(lhs, rhs))
                      then {View()[rhs].Keys} - {old(View())[lhs].Keys, old(View())[rhs].Keys} else {})
      ensures r.Ok? && lhs != rhs && !old(SameType(lhs, rhs)) && old(Calm()) ==>
                (Calm() <==> !old(Obscures(entityIds.state.slots[lhs.index].use.table,
                                           entityIds.state.slots[rhs.index].use.table)))
      ensures (r.Err? || lhs == rhs) && old(Calm()) ==> Calm()
    {
      hide Filings.Calm, InFront, World.Obscures, Family, Coherent, Filed, Slots.WellFormed, Store.Agree, Store.View;
      hide MergedView, SwapMerge, SameAllocator, Extends, MergedAside, Residents;
      ExtendsNothing(archetypes);
      MergedMeans(View(), lhs, rhs);
      if lhs == rhs {
        return Ok(());
      }
      ViewKeys(Content(), lhs);
      ViewKeys(Content(), rhs);
      if !entityIds.IsValid(lhs) || !entityIds.IsValid(rhs) {
        return Err(EntityNotFound);
      }
      Home(lhs);
      Home(rhs);
      if Calm() {
        HomeInFront(lhs);
        HomeInFront(rhs);
      }
      var left, right := entityIds.Read(lhs), entityIds.Read(rhs);
      var (lhsArchetype, lhsIndex) := left.value;
      var (rhsArchetype, rhsIndex) := right.value;
      if lhsArchetype.ty == rhsArchetype.ty {
        MergeSame(lhs, lhsArchetype, lhsIndex, rhs, rhsArchetype, rhsIndex);
      } else {
        MergedKeys(View(), lhs, rhs);
        MergeDifferent(lhs, lhsArchetype, lhsIndex, rhs, rhsArchetype, rhsIndex);
      }
      return Ok(());
    }

    /** Whether two live entities have the same component types. */
    ghost predicate SameType(lhs: EntityId, rhs: EntityId)
      requires Valid() && lhs in View() && rhs in View()
      reads this, entityIds, entityIds.entries, region.Keys
    {
      Content().tables[Content().TableOf(lhs)].ty == Content().tables[Content().TableOf(rhs)].ty
    }

    /** The two entities of a merge, as read from the index. */
    ghost predicate Pair(lhs: EntityId, lt: EntityTable, li: nat, rhs: EntityId, rt: EntityTable, ri: nat)
      reads this, entityIds, entityIds.entries, region.Keys, lt, rt, lt.owner.Keys, rt.owner.Keys
    {
      && Valid() && lhs != rhs && entityIds.state.IsLive(lhs) && entityIds.state.IsLive(rhs)
      && entityIds.state.slots[lhs.index].use == Live(lt, li) && entityIds.state.slots[rhs.index].use == Live(rt, ri)
      && lt in tables && lt.Complete() && lt.state.ty == lt.ty && lt.components.Keys == lt.state.cols.Keys
      && li < |lt.state.entities|
      && rt in tables && rt.Complete() && rt.state.ty == rt.ty && rt.components.Keys == rt.state.cols.Keys
      && ri < |rt.state.entities|
    }

    /** A staging archetype that a merge into a third type would put a new live one in front of. */
    ghost predicate Obscures(lt: EntityTable, rt: EntityTable)
      reads this, tables, lt, rt
    {
      var key := (rt.components.Keys + lt.components.Keys) - {UNIT};
      key != lt.ty && key != rt.ty && key !in archetypes && Occupied(Snapshot(tables), staging, key)
    }

    method MergeSame(lhs: EntityId, lt: EntityTable, li: nat, rhs: EntityId, rt: EntityTable, ri: nat)
      requires Pair(lhs, lt, li, rhs, rt, ri) && RowsInRange(Content(), lhs, rhs)
      modifies Repr()
      ensures Structure() && Content() == SwapMerge(old(Content()), lhs, rhs)
      ensures archetypes == old(archetypes) && staging == old(staging)
      ensures region == old(region) && entityIds == old(entityIds) && entityIds.entries == old(entityIds.entries)
    {
      hide Family, Coherent, Filed, Slots.WellFormed, Store.Agree, EntityTable.Valid, TableState.Full, Store.Cut;
      hide Store.CanCut, Slots.Release;
      FullHere();
      SwapCuts(Content(), lhs, rhs);
      SwapRows(rt, li, ri);
      PlaceRow(lhs, ri);
      PlaceRow(rhs, li);
      DropRow(lhs, lt, ri);
    }

    method PlaceRow(id: EntityId, row: nat)
      requires Structure() && entityIds.state.IsLive(id)
      modifies entityIds`state, entityIds.entries
      ensures Structure()
      ensures Content() == old(Content())
                .WithIndex(old(entityIds.state).Place(id, old(entityIds.state).slots[id.index].use.table, row))
    {
      hide Family, Coherent, Filed, Slots.Place;
      entityIds.UpdateRowIndex(id, row);
    }

    method MergeDifferent(lhs: EntityId, lt: EntityTable, li: nat, rhs: EntityId, rt: EntityTable, ri: nat)
      requires Pair(lhs, lt, li, rhs, rt, ri) && lt.ty != rt.ty && (Calm() ==> Front(lt) && Front(rt))
      modifies Repr()
      ensures Valid() && (forall o :: o in Repr() && o !in old(Repr()) ==> fresh(o))
      ensures lhs in old(View()) && rhs in old(View()) && View() == MergedView(old(View()), lhs, rhs)
      ensures lhs.index < |old(entityIds.state).slots|
              && SameAllocator(old(entityIds.state).Release(lhs), entityIds.state)
      ensures staging == old(staging)
      ensures Extends(old(archetypes), archetypes,
                      {old(rt.state.ty + lt.state.ty)} - {old(lt.state.ty), old(rt.state.ty)})
      ensures Aside() == MergedAside(old(Aside()), lhs, old(lt.state.ty), rhs, old(rt.state.ty))
      ensures old(Calm()) ==> (Calm() <==> !old(Obscures(lt, rt)))
    {
      hide TableState.Full;
      hide Occupied, Slots.IsLive;
      hide Filings.Calm, InFront, EntityTable.Valid, Family, Coherent, Filed, Slots.WellFormed, Store.Agree;
      hide Store.View, MergedView, SameAllocator, Extends, Snapshot, Residents;
      hide MergedAside, Joining;
      var dstHash := UnionHash(rt, lt);
      UnionKeys(rt.state, lt.state, dstHash);
      AsideCases(Aside(), lhs, lt.state.ty, rhs, rt.state.ty);
      ghost var types := {lt.state.ty, rt.state.ty};
      ExtendsOthers(archetypes, dstHash, types);
      if dstHash == rt.ty {
        MergeSubset(lhs, lt, li, rhs, rt, ri);
      } else if dstHash == lt.ty {
        MergeSuperset(lhs, lt, li, rhs, rt, ri);
      } else {
        MergeElsewhere(lhs, lt, li, rhs, rt, ri, dstHash);
      }
    }

    /** Both move to a third archetype, a new one if there is no live one. */
    method MergeElsewhere(lhs: EntityId, lt: EntityTable, li: nat, rhs: EntityId, rt: EntityTable, ri: nat, key: Key)
      requires Pair(lhs, lt, li, rhs, rt, ri) && lt.ty != rt.ty && (Calm() ==> Front(lt) && Front(rt))
      requires key == (rt.state.cols.Keys + lt.state.cols.Keys) - {UNIT} && key != lt.ty && key != rt.ty
      modifies Repr()
      ensures Valid() && (forall o :: o in Repr() && o !in old(Repr()) ==> fresh(o))
      ensures lhs in old(View()) && rhs in old(View()) && View() == MergedView(old(View()), lhs, rhs)
      ensures lhs.index < |old(entityIds.state).slots|
              && SameAllocator(old(entityIds.state).Release(lhs), entityIds.state)
      ensures staging == old(staging) && Extends(old(archetypes), archetypes, {key})
      ensures Aside() == Joining(old(Aside()), rhs, false) - {lhs}
      ensures old(Calm()) ==> (Calm() <==> key in old(archetypes) || !old(Occupied(Snapshot(tables), staging, key)))
    {
      hide Filings.Calm, InFront, EntityTable.Valid, Family, Coherent, Filed, Slots.WellFormed, Store.Agree;
      hide Store.View, MergedView, SameAllocator, Extends, Snapshot, Occupied, Residents, Joining;
      if key in archetypes {
        Found(key);
        FoundInFront(key);
        KeyDetermines(archetypes[key].state, rt.state.cols.Keys + lt.state.cols.Keys);
        ExtendsFiled(archetypes, key, {});
        LiveIsNotStaged(key);
        MergeGeneral(lhs, lt, li, rhs, rt, ri, archetypes[key]);
      } else {
        var dst := MergedArchetype(rt, lt, key);
        ExtendsBy(old(archetypes), key, dst, {});
        LiveIsNotStaged(key);
        Home(lhs);
        Home(rhs);
        MergeGeneral(lhs, lt, li, rhs, rt, ri, dst);
      }
    }

    /** The loop that computes the key of the union. */
    method UnionHash(rt: EntityTable, lt: EntityTable) returns (key: Key)
      requires rt.Complete() && lt.Complete()
      ensures key == (rt.components.Keys + lt.components.Keys) - {UNIT}
    {
      key := rt.ty;
      var todo := lt.components.Keys;
      while todo != {}
        invariant todo <= lt.components.Keys
        invariant key == (rt.components.Keys + (lt.components.Keys - todo)) - {UNIT}
      {
        var c :| c in todo;
        if c !in rt.components {
          key := Xor(key, HashTy(c));
        }
        todo := todo - {c};
      }
    }

    method MergeSubset(lhs: EntityId, lt: EntityTable, li: nat, rhs: EntityId, rt: EntityTable, ri: nat)
      requires Pair(lhs, lt, li, rhs, rt, ri) && lt != rt && lt.state.cols.Keys <= rt.state.cols.Keys
      modifies Repr()
      ensures Valid() && (forall o :: o in Repr() && o !in old(Repr()) ==> fresh(o))
      ensures lhs in old(View()) && rhs in old(View()) && View() == MergedView(old(View()), lhs, rhs)
      ensures lhs.index < |old(entityIds.state).slots|
              && SameAllocator(old(entityIds.state).Release(lhs), entityIds.state)
      ensures archetypes == old(archetypes) && staging == old(staging)
      ensures Aside() == old(Aside()) - {lhs}
      ensures old(Front(lt)) && old(Front(rt)) ==> (Calm() <==> old(Calm()))
    {
      hide Filings.Calm, InFront, EntityTable.Valid, EntityTable.Complete, TableState.Full, Family, Coherent, Filed;
      hide SameTables, SameAllocator, Residents, Joining, Slots.WellFormed, Store.EntriesNameRows;
      hide Store.RowsNameEntries, Store.View, MergedView;
      hide Store.Cut, Store.CanCut, Slots.Release, TableState.Overwrite;
      ghost var before := entityIds.state;
      SubsetMerge(Content(), lhs, rhs);
      if Front(lt) && Front(rt) { CalmAfterCutRewrite(archetypes, staging, Content(), lt, li, rt); }
      MoveRowInto(lt, li, rt, ri);
      Release(lhs);
      ReleasedResidents(before, entityIds.state, lhs, staging.Values);
    }

    method Release(id: EntityId)
      requires Structure() && entityIds.state.IsAllocated(id)
      modifies entityIds, entityIds.entries
      ensures Structure() && entityIds.entries == old(entityIds.entries)
      ensures Content() == old(Content()).WithIndex(old(entityIds.state).Release(id))
    {
      hide Family, Coherent, Filed, Slots.Release, Slots.WellFormed;
      entityIds.Free(id);
    }

    method MergeSuperset(lhs: EntityId, lt: EntityTable, li: nat, rhs: EntityId, rt: EntityTable, ri: nat)
      requires Pair(lhs, lt, li, rhs, rt, ri) && lt != rt && rt.state.cols.Keys <= lt.state.cols.Keys
      modifies Repr()
      ensures Valid() && (forall o :: o in Repr() && o !in old(Repr()) ==> fresh(o))
      ensures lhs in old(View()) && rhs in old(View()) && View() == MergedView(old(View()), lhs, rhs)
      ensures lhs.index < |old(entityIds.state).slots|
              && SameAllocator(old(entityIds.state).Release(lhs), entityIds.state)
      ensures archetypes == old(archetypes) && staging == old(staging)
      ensures Aside() == Joining(old(Aside()), rhs, lhs in old(Aside())) - {lhs}
      ensures old(Front(lt)) && old(Front(rt)) ==> (Calm() <==> old(Calm()))
    {
      hide Filings.Calm, InFront, EntityTable.Valid, EntityTable.Complete, TableState.Full, Family, Coherent, Filed;
      hide SameTables, SameAllocator, Residents, Joining, Slots.WellFormed, Store.EntriesNameRows;
      hide Store.RowsNameEntries, Store.View, MergedView;
      hide Store.Cut, Store.CanCut, Slots.Release, Slots.Place;
      ghost var before := entityIds.state;
      SupersetMerge(Content(), lhs, rhs);
      if Front(lt) && Front(rt) { CalmAfterCutRewrite(archetypes, staging, Content(), rt, ri, lt); }
      CutLeaves(Content(), rt, ri, lt);
      RemoveRow(rt, ri);
      Hand(lt, li, rhs);
      Place(rhs, lt, li);
      Release(lhs);
      HandedResidents(before, entityIds.state, lhs, rhs, lt, staging.Values);
    }

    method MergedArchetype(rt: EntityTable, lt: EntityTable, key: Key) returns (dst: EntityTable)
      requires Valid() && rt in tables && lt in tables && rt.Complete() && lt.Complete()
      requires rt.components.Keys == rt.state.cols.Keys && lt.components.Keys == lt.state.cols.Keys
      requires key != lt.ty && key != rt.ty
      requires key == (rt.state.cols.Keys + lt.state.cols.Keys) - {UNIT} && key !in archetypes
      modifies this
      ensures Valid() && (forall o :: o in Repr() && o !in old(Repr()) ==> fresh(o))
      ensures View() == old(View()) && entityIds == old(entityIds) && tables == old(tables) + {dst}
      ensures dst !in old(tables)
      ensures dst.state.cols.Keys == rt.state.cols.Keys + lt.state.cols.Keys
      ensures archetypes == old(archetypes)[key := dst] && staging == old(staging)
      ensures old(Calm()) ==> (Calm() <==> !old(Occupied(Snapshot(tables), staging, key)))
      ensures Front(dst) && (old(Front(lt)) ==> Front(lt)) && (old(Front(rt)) ==> Front(rt))
    {
      hide Filings.Calm, InFront, EntityTable.Valid, TableState.Full, Family, Coherent, Filed, Slots.WellFormed;
      hide Types, Store.Agree, Store.View;
      dst := rt.Merged(lt);
      Member(tables, region, lt);
      Member(tables, region, rt);
      NewInFront(dst, lt);
      NewInFront(dst, rt);
      AddArchetype(dst);
    }

    method MergeGeneral(lhs: EntityId, lt: EntityTable, li: nat, rhs: EntityId, rt: EntityTable, ri: nat,
                        dst: EntityTable)
      requires Pair(lhs, lt, li, rhs, rt, ri) && lt != rt && dst in tables && dst != lt && dst != rt
      requires dst.state.cols.Keys == rt.state.cols.Keys + lt.state.cols.Keys
      modifies Repr()
      ensures Valid() && (forall o :: o in Repr() && o !in old(Repr()) ==> fresh(o))
      ensures lhs in old(View()) && rhs in old(View()) && View() == MergedView(old(View()), lhs, rhs)
      ensures lhs.index < |old(entityIds.state).slots|
              && SameAllocator(old(entityIds.state).Release(lhs), entityIds.state)
      ensures archetypes == old(archetypes) && staging == old(staging)
      ensures Aside() == Joining(old(Aside()), rhs, dst in staging.Values) - {lhs}
      ensures old(Front(lt)) && old(Front(rt)) && old(Front(dst)) ==> (Calm() <==> old(Calm()))
    {
      hide Filings.Calm, InFront, EntityTable.Valid, EntityTable.Complete, TableState.Full, Family, Coherent, Filed;
      hide SameTables, SameAllocator, Residents, Joining, Slots.WellFormed, Store.Agree, Store.View, MergedView;
      hide CanGather, Gathered;
      ghost var before := entityIds.state;
      FullHere();
      GeneralMerge(Content(), lhs, rhs, dst);
      if Front(lt) && Front(rt) && Front(dst) {
        CalmAfterGather(archetypes, staging, Content(), lhs, lt, li, rhs, rt, ri, dst);
      }
      Gather(lhs, lt, li, rhs, rt, ri, dst);
      HandedResidents(before, entityIds.state, lhs, rhs, dst, staging.Values);
    }

    /** Moves the row of `rhs`, drains that of `lhs` after it, and settles the two entries. */
    method Gather(lhs: EntityId, lt: EntityTable, li: nat, rhs: EntityId, rt: EntityTable, ri: nat, dst: EntityTable)
      requires Structure() && CanGather(Content(), lhs, lt, li, rhs, rt, ri, dst)
               && rt.components.Keys == rt.state.cols.Keys
      requires dst in tables && dst.state.Full() && lt != rt && dst != lt && dst != rt
      modifies Repr()
      ensures Structure() && (forall o :: o in Repr() && o !in old(Repr()) ==> fresh(o))
      ensures Content() == Gathered(old(Content()), lhs, lt, li, rhs, rt, ri, dst)
      ensures archetypes == old(archetypes) && staging == old(staging)
    {
      hide EntityTable.Valid, TableState.Full, Family, Coherent, Filed, Store.CanCut, Store.Transfer, Slots.Release;
      hide Slots.Place, Drained, Fits, Slots.WellFormed;
      var dstIndex := JoinRows(lt, li, rt, ri, dst);
      Place(rhs, dst, dstIndex);
      Release(lhs);
    }

    /** The row of `rhs` moves to `dst`, and the cells of `lhs` follow. */
    method JoinRows(lt: EntityTable, li: nat, rt: EntityTable, ri: nat, dst: EntityTable) returns (dstIndex: nat)
      requires Structure() && Content().CanCut(rt, ri) && dst in tables && dst.state.Full() && lt != rt && dst != lt
               && dst != rt
      requires Content().Transfer(rt, ri, dst).CanCut(lt, li) && rt.components.Keys == rt.state.cols.Keys
      requires var moved := Content().Transfer(rt, ri, dst);
               Fits(moved.tables[lt], moved.tables[dst], rt.state.cols.Keys, |dst.state.entities|)
      modifies `region, entityIds`state, entityIds.entries, region.Keys
      ensures Structure() && dstIndex == |old(dst.state).entities|
      ensures Content() == Drained(old(Content().Transfer(rt, ri, dst)), lt, li, dst, dstIndex)
      ensures forall o :: o in region && o !in old(region) ==> fresh(o)
      ensures region.Keys >= old(region.Keys)
    {
      hide EntityTable.Valid, TableState.Full, Family, Coherent, Filed, Store.Transfer, Drained, Fits;
      var had := rt.components.Keys;
      dstIndex := MoveRow(rt, dst, ri);
      DrainRow(lt, li, dst, dstIndex, had);
    }

    // ---------------------------------------------------------------- the sweep (the end of `apply_commands`)

    /** No rows in staging, and none of the live archetypes empty but the void one. */
    ghost predicate IsSwept()
      reads this, tables
    {
      && (forall k :: k in staging ==> !Occupied(Snapshot(tables), staging, k))
      && (forall k :: k in archetypes && k != VOID_TY ==> Occupied(Snapshot(tables), archetypes, k))
    }

    ghost predicate Unshadowed()
      reads this, tables
    {
      NoneShadowed(archetypes, staging, Snapshot(tables))
    }

    /** This world is what the sweep makes of `store`, filed in `live` and `staged`. */
    ghost predicate IsSweepOf(store: Store<EntityTable>, live: Archetypes<EntityTable>, staged: Archetypes<EntityTable>)
      reads this, entityIds, tables
    {
      && Filed(live, staged, store.tables)
      && Content() == Store(store.index, Remaining(live, staged, store.tables))
      && archetypes == SweptArchetypes(live, staged, store.tables)
      && staging == SweptStaging(live, staged, store.tables)
    }

    /**
      Promotes the staging archetypes that have rows, then demotes the live ones that have none.
      The world is whole afterwards exactly when no key had rows in both maps.
     */
    method Sweep()
      requires Valid()
      modifies this
      ensures Structure() && IsSwept() && entityIds == old(entityIds) && region == old(region)
      ensures IsSweepOf(old(Content()), old(archetypes), old(staging)) && entityIds.state == old(entityIds.state)
      ensures Valid() <==> old(Unshadowed())
      ensures Valid() <==>
                old(forall k :: k in archetypes && k in staging ==> archetypes[k].rows == 0 || staging[k].rows == 0)
      ensures forall k :: k in staging ==> staging[k].rows == 0
      ensures forall k :: k in archetypes && k != VOID_TY ==> archetypes[k].rows != 0
      ensures Valid() ==> View() == old(View())
      ensures var (before, view) := old((Seating(), View()));
              && (Valid() <==> before.Apart(view)) && Seating() == before.Swept(view)
              && forall id :: id in view ==> (Lost(id) <==> before.Overtaken(view, id))
      ensures old(Calm()) ==> Valid() && Calm()
    {
      hide Filings.Calm, Coherent, Filed, Store.Agree, Store.View, Occupied, OccupiedKeys, Idle, Survives;
      hide NoneShadowed, Family, SweptArchetypes, SweptStaging, Layout.Apart, Layout.Swept, Layout.Overtaken, LayoutOf;
      hide IsLost;
      ghost var a, s, states := archetypes, staging, Snapshot(tables);
      if Calm() { CalmIsUnshadowed(a, s, states); }
      OccupiedMeans();
      SweepFiles(a, s, states);
      SweepAgrees(Content(), a, s);
      SweepAhead(Content(), a, s);
      ghost var rest := set t | t in tables && Survives(a, s, states, t);
      Rest(rest);
      Move();
      tables := rest;
      SweptIsCalm(archetypes, staging, Snapshot(tables));
      OccupiedMeans();
    }

    /** What is occupied has rows, as the tables count them. */
    lemma OccupiedMeans()
      requires Structure()
      ensures forall k :: k in archetypes ==> (Occupied(Snapshot(tables), archetypes, k) <==> archetypes[k].rows != 0)
      ensures forall k :: k in staging ==> (Occupied(Snapshot(tables), staging, k) <==> staging[k].rows != 0)
      ensures NothingStaged() <==> forall k :: k in staging ==> staging[k].rows == 0
      ensures Unshadowed() <==>
                forall k :: k in archetypes && k in staging ==> archetypes[k].rows == 0 || staging[k].rows == 0
    {
      hide EntityTable.Valid, Coherent, Family;
      Counted(tables, region);
    }

    /** `rest` are the tables that the sweep does not drop. */
    lemma Rest(rest: set<EntityTable>)
      requires Structure() && rest == set t | t in tables && Survives(archetypes, staging, Snapshot(tables), t)
      ensures rest <= tables && Family(rest, region)
      ensures Snapshot(rest) == Remaining(archetypes, staging, Snapshot(tables))
      ensures rest == Remaining(archetypes, staging, Snapshot(tables)).Keys
    {
      hide Family, Filed, Survives;
      Leave(tables, region, rest);
    }

    method Move()
      requires Structure()
      modifies `archetypes, `staging
      ensures archetypes == SweptArchetypes(old(archetypes), old(staging), Snapshot(tables))
      ensures staging == SweptStaging(old(archetypes), old(staging), Snapshot(tables))
    {
      hide EntityTable.Valid, EntityTable.Owns, Coherent, Family, Filed, Occupied, Only, OccupiedKeys, Idle;
      PromotedIn(archetypes, staging, Snapshot(tables));
      Counted(tables, region);
      var promotion := set k | k in staging && staging[k].rows != 0;
      PromotionQueue(staging, promotion);
      Promote(promotion);
      assert archetypes == Promoted(old(archetypes), old(staging), Snapshot(tables));
      var demotion := set k | k in archetypes && k != VOID_TY && archetypes[k].rows == 0;
      DemotionQueue(archetypes, demotion);
      Demote(demotion);
    }

    lemma PromotionQueue(m: map<Key, EntityTable>, queue: set<Key>)
      requires (forall t :: t in tables ==> t.rows == |t.state.entities|) && forall k :: k in m ==> m[k] in tables
      requires queue == set k | k in m && m[k].rows != 0
      ensures queue == OccupiedKeys(Snapshot(tables), m) && queue <= m.Keys
    {
    }

    lemma DemotionQueue(m: map<Key, EntityTable>, queue: set<Key>)
      requires (forall t :: t in tables ==> t.rows == |t.state.entities|) && forall k :: k in m ==> m[k] in tables
      requires queue == set k | k in m && k != VOID_TY && m[k].rows == 0
      ensures queue == Idle(m, Snapshot(tables)) && queue <= m.Keys
    {
    }

    method Promote(queue: set<Key>)
      requires queue <= staging.Keys
      modifies `archetypes, `staging
      ensures archetypes == old(archetypes) + Only(old(staging), queue)
      ensures staging == old(staging) - queue
    {
      OnlyEnds(staging, queue);
      hide Only;
      var todo := queue;
      while todo != {}
        invariant todo <= queue
        invariant archetypes == old(archetypes) + Only(old(staging), queue - todo)
        invariant staging == old(staging) - (queue - todo)
      {
        var k :| k in todo;
        OnlyStep(old(staging), queue, todo, k);
        var t := staging[k];
        staging := staging - {k};
        archetypes := archetypes[k := t];
        todo := todo - {k};
      }
    }

    method Demote(queue: set<Key>)
      requires queue <= archetypes.Keys
      modifies `archetypes, `staging
      ensures archetypes == old(archetypes) - queue
      ensures staging == old(staging) + Only(old(archetypes), queue)
    {
      OnlyEnds(archetypes, queue);
      hide Only;
      var todo := queue;
      while todo != {}
        invariant todo <= queue
        invariant staging == old(staging) + Only(old(archetypes), queue - todo)
        invariant archetypes == old(archetypes) - (queue - todo)
      {
        var k :| k in todo;
        OnlyStep(old(archetypes), queue, todo, k);
        var t := archetypes[k];
        archetypes := archetypes - {k};
        staging := staging[k := t];
        todo := todo - {k};
      }
    }

    /** Drops the staging archetypes; loses nothing exactly when none of them has rows. */
    method Vacuum()
      requires Valid()
      modifies this
      ensures Structure() && staging == map[] && archetypes == old(archetypes)
      ensures entityIds == old(entityIds) && entityIds.state == old(entityIds.state) && region == old(region)
      ensures Valid() <==> old(NothingStaged())
      ensures Valid() <==> old(forall k :: k in staging ==> staging[k].rows == 0)
      ensures Valid() ==> View() == old(View())
      ensures forall id :: id in old(View()) ==> (Lost(id) <==> id in old(Aside()))
    {
      hide Coherent, Store.Agree, Store.View, Family, Filed, Occupied, Kept, IsLost, Residents;
      OccupiedMeans();
      AsideIsLost(Content(), archetypes, staging);
      ForgetTables(Content(), archetypes.Values * tables);
      VacuumFiles(archetypes, staging, Snapshot(tables), archetypes.Values * tables);
      ghost var kept := archetypes.Values * tables;
      Filing(kept);
      staging, tables := map[], kept;
    }

    lemma Filing(kept: set<EntityTable>)
      requires Structure() && kept == archetypes.Values * tables
      ensures kept <= tables && Family(kept, region)
      ensures Snapshot(kept) == Kept(Snapshot(tables), kept)
    {
      hide Family, Filed;
      Leave(tables, region, kept);
    }

    /** No staging archetype has rows. */
    ghost predicate NothingStaged()
      reads this, tables
    {
      forall k :: k in staging ==> !Occupied(Snapshot(tables), staging, k)
    }
  
    // ---------------------------------------------------------------- copying

    constructor Of(ids: EntityIndex<EntityTable>, live: map<Key, EntityTable>, ghost made: set<EntityTable>,
                   ghost owned: Region)
      requires Family(made, owned) && ids.Valid() && ids !in owned && ids.entries !in owned
      requires Filed(live, map[], Snapshot(made))
      ensures Structure() && entityIds == ids && archetypes == live && staging == map[]
      ensures tables == made && region == owned
    {
      hide Family, Filed, Coherent;
      entityIds, archetypes, staging := ids, live, map[];
      tables, region := made, owned;
    }

    /**
      A copy of the live archetypes and of the index, each entry redirected to the table that was
      made for it. Whole exactly when staging has no rows; then it is the same map in the same
      allocator state, and it shares nothing with this world.
     */
    method Clone() returns (w: World)
      requires Valid()
      ensures w.Structure() && (forall o :: o in w.Repr() ==> fresh(o))
      ensures w.archetypes.Keys == archetypes.Keys && w.staging == map[]
      ensures w.Valid() <==> old(NothingStaged())
      ensures w.Valid() <==> forall k :: k in staging ==> staging[k].rows == 0
      ensures w.Valid() ==> w.View() == old(View())
      ensures SameAllocator(old(entityIds.state), w.entityIds.state)
      ensures var (view, aside) := old((View(), Aside()));
              forall id :: id in view ==> (w.Lost(id) <==> id in aside)
    {
      hide Slots.IsLive;
      hide Repointed, Family, Filed, Coherent, Store.Agree, Store.View, Occupied, Copies, Seen, SameAllocator;
      hide IsLost, Residents;
      OccupiedMeans();
      ghost var content, live, staged := Content(), archetypes, staging;
      var copies, f, made, owned := CloneTables();
      var ids, done := RedirectedIds(copies, f);
      w := new World.Of(ids, copies, made, owned);
      assert w.Content() == Copy(content, done, f, Snapshot(made)) && Snapshot(made).Keys == w.tables;
      CopyIsWhole(content, live, staged, done, f, Snapshot(made));
      CopyLoses(content, live, staged, done, f, Snapshot(made));
    }

    /** A copy of the index whose entries name the copied tables. */
    method RedirectedIds(copies: map<Key, EntityTable>, ghost f: map<EntityTable, EntityTable>)
      returns (ids: EntityIndex<EntityTable>, ghost done: set<EntityId>)
      requires Valid() && copies.Keys == archetypes.Keys
      requires f.Keys == archetypes.Values && forall k :: k in archetypes ==> f[archetypes[k]] == copies[k]
      ensures ids.Valid() && fresh(ids) && fresh(ids.entries)
      ensures ids.state == Repointed(entityIds.state, done, f) && Seen(Content(), done, f)
    {
      hide Repointed, Family, Filed, Coherent, Store.Agree, Occupied, Seen;
      ids := entityIds.Clone();
      done := Redirect(ids, copies, f);
    }

    method CloneTables()
      returns (copies: map<Key, EntityTable>, ghost f: map<EntityTable, EntityTable>, ghost made: set<EntityTable>,
               ghost owned: Region)
      requires Valid()
      ensures Family(made, owned) && (forall o :: o in owned ==> fresh(o)) && (forall t :: t in made ==> fresh(t))
      ensures copies.Keys == archetypes.Keys && Filed(copies, map[], Snapshot(made))
      ensures f.Keys == archetypes.Values && forall k :: k in archetypes ==> f[archetypes[k]] == copies[k]
      ensures Copies(old(Content()), f, Snapshot(made))
    {
      hide Family, Filed, Coherent, Store.Agree, Occupied, Mirrors, Copies, Forward, Claimed, EntityTable.Valid;
      copies, made, owned := map[], {}, map[];
      Nobody();
      MirrorsNone(archetypes, Snapshot(tables));
      var todo := archetypes.Keys;
      while todo != {}
        invariant todo <= archetypes.Keys && copies.Keys == archetypes.Keys - todo
        invariant Family(made, owned) && (forall o :: o in owned ==> fresh(o)) && (forall t :: t in made ==> fresh(t))
        invariant Mirrors(archetypes, Snapshot(tables), copies, Snapshot(made))
      {
        var k :| k in todo;
        LiveTable(k);
        var t := archetypes[k].Clone();
        Joins(made, owned, t);
        MirrorsMore(archetypes, Snapshot(tables), copies, Snapshot(made), k, t, t.state);
        copies, made, owned := copies[k := t], made + {t}, Claimed(owned[t := t], t);
        todo := todo - {k};
      }
      MirrorsAll(Content(), archetypes, staging, copies, Snapshot(made));
      f := Forward(archetypes, Snapshot(tables), copies);
    }

    lemma LiveTable(k: Key)
      requires Valid() && k in archetypes
      ensures archetypes[k] in tables && archetypes[k].Valid() && archetypes[k].ty == archetypes[k].state.ty == k
      ensures archetypes[k].rows == |archetypes[k].entities| && archetypes[k].entities == archetypes[k].state.entities
      ensures archetypes[k] in Snapshot(tables)
    {
      hide Coherent, Store.Agree;
    }

    /** `for id in Query<EntityId>`: redirects every entry of an entity in a live archetype. */
    method Redirect(ids: EntityIndex<EntityTable>, copies: map<Key, EntityTable>,
                    ghost f: map<EntityTable, EntityTable>)
      returns (ghost done: set<EntityId>)
      requires Valid() && ids.Valid() && ids.state == entityIds.state && ids !in Repr() && ids.entries !in Repr()
      requires copies.Keys == archetypes.Keys
      requires f.Keys == archetypes.Values && forall k :: k in archetypes ==> f[archetypes[k]] == copies[k]
      modifies ids`state, ids.entries
      ensures ids.Valid() && ids.state == Repointed(old(entityIds.state), done, f) && Seen(old(Content()), done, f)
    {
      hide Family, Filed, Coherent, Store.Agree, Occupied, Repointed, Seen;
      done := {};
      RepointNothing(entityIds.state, f);
      var todo := archetypes.Keys;
      while todo != {}
        invariant todo <= archetypes.Keys && ids.Valid() && ids.state == Repointed(entityIds.state, done, f)
        invariant SeenSoFar(Content(), archetypes, todo, done)
      {
        var k :| k in todo;
        done := RedirectTable(ids, copies, f, k, todo, done);
        todo := todo - {k};
      }
      SeenAll(Content(), archetypes, done, f);
    }

    method RedirectTable(ids: EntityIndex<EntityTable>, copies: map<Key, EntityTable>,
                         ghost f: map<EntityTable, EntityTable>,
                         k: Key, ghost todo: set<Key>, ghost before: set<EntityId>)
      returns (ghost done: set<EntityId>)
      requires Valid() && ids.Valid() && ids.state == Repointed(entityIds.state, before, f) && ids !in Repr()
               && ids.entries !in Repr()
      requires k in archetypes && copies.Keys == archetypes.Keys && SeenSoFar(Content(), archetypes, todo, before)
      requires f.Keys == archetypes.Values && forall k :: k in archetypes ==> f[archetypes[k]] == copies[k]
      modifies ids`state, ids.entries
      ensures ids.Valid() && ids.state == Repointed(entityIds.state, done, f)
      ensures SeenSoFar(Content(), archetypes, todo - {k}, done)
    {
      hide Family, Filed, Coherent, Store.Agree, Occupied, Repointed, EntityTable.Valid, SeenSoFar, Slots.Place;
      LiveTable(k);
      var t := archetypes[k];
      done := before;
      for row := 0 to t.rows
        invariant ids.Valid() && ids.state == Repointed(entityIds.state, done, f)
        invariant SeenSoFar(Content(), archetypes, todo, done) && SeenRows(t.entities, row, done)
      {
        var id := t.entities[row];
        SeenStep(Content(), archetypes, todo, done, k, row);
        RepointStep(entityIds.state, done, f, id);
        var at := entityIds.Read(id);
        ids.Update(id, copies[at.value.0.ty], at.value.1);
        done := done + {id};
      }
      SeenTable(Content(), archetypes, todo, done, k);
    }
  }

  /** Handing out an id puts nobody anywhere. */
  lemma HandedOut<T>(s: Store<T>, id: EntityId, after: Slots<T>, ts: set<T>)
    requires s.Agree() && (Allocates(s.index, id, after) || Claims(s.index, id, after))
    ensures Residents(after, ts) == Residents(s.index, ts)
  {
    hide Store.EntriesNameRows, Store.RowsNameEntries, Claims, Allocates;
    if Claims(s.index, id, after) {
      ClaimedResidents(s.index, id, after, ts);
    } else {
      AllocatedResidents(s.index, id, after, ts);
    }
  }

  /** The tables of a new world: the void archetype alone. */
  lemma NewTables(void: EntityTable)
    requires void.Complete() && void.components.Keys == {UNIT}
    ensures var region := Claimed(map[void := void], void);
            && Family({void}, region) && region.Keys == {void} + void.owner.Keys
            && Snapshot({void}) == map[void := void.state]
            && Filed<EntityTable>(map[VOID_TY := void], map[], map[void := void.state])
  {
    Alone(void);
    assert void.state.cols.Keys == {UNIT} && {UNIT} - {UNIT} == VOID_TY;
  }

  lemma OverwriteType(d: TableState, j: nat, s: TableState, i: nat)
    requires d.Full() && s.Full() && j < |d.entities| && i < |s.entities|
    ensures d.Overwrite(j, s, i).ty == d.ty
  {
  }

  lemma UnionKeys(r: TableState, l: TableState, key: Key)
    requires r.Full() && l.Full() && key == (r.cols.Keys + l.cols.Keys) - {UNIT}
    ensures key == r.ty + l.ty
    ensures key == r.ty ==> l.cols.Keys <= r.cols.Keys
    ensures key == l.ty ==> r.cols.Keys <= l.cols.Keys
  {
    if key == r.ty { KeyDetermines(r, r.cols.Keys + l.cols.Keys); }
    if key == l.ty { KeyDetermines(l, r.cols.Keys + l.cols.Keys); }
  }

  lemma MergedKeys(m: map<EntityId, Components>, lhs: EntityId, rhs: EntityId)
    requires lhs in m && rhs in m
    ensures MergedView(m, lhs, rhs)[rhs].Keys == m[rhs].Keys + m[lhs].Keys
  {
  }

  lemma CutLeaves<T>(s: Store<T>, t: T, row: nat, other: T)
    requires s.CanCut(t, row) && other in s.tables && other != t
    ensures s.Cut(t, row).tables.Keys == s.tables.Keys && s.Cut(t, row).tables[other] == s.tables[other]
  {
  }

  lemma CalmAfterCutRewrite<T>(archetypes: Archetypes<T>, staging: Archetypes<T>, s: Store<T>, t: T, row: nat, u: T)
    requires Filed(archetypes, staging, s.tables) && s.CanCut(t, row)
    requires InFront(archetypes, staging, s.tables, t) && InFront(archetypes, staging, s.tables, u)
    ensures forall changed :: Filings.Calm(archetypes, staging, s.Cut(t, row).Rewrite(u, changed).tables)
                              <==> Filings.Calm(archetypes, staging, s.tables)
  {
    forall changed ensures Filings.Calm(archetypes, staging, s.Cut(t, row).Rewrite(u, changed).tables)
                           <==> Filings.Calm(archetypes, staging, s.tables)
    {
      FrontChanges(archetypes, staging, s.tables, t, s.tables[t].RemoveRow(row), u, changed);
    }
  }

  lemma CalmAfterGather<T>(archetypes: Archetypes<T>, staging: Archetypes<T>, s: Store<T>,
                           lhs: EntityId, tl: T, rl: nat, rhs: EntityId, tr: T, rr: nat, dst: T)
    requires Filed(archetypes, staging, s.tables) && CanGather(s, lhs, tl, rl, rhs, tr, rr, dst)
    requires InFront(archetypes, staging, s.tables, tl) && InFront(archetypes, staging, s.tables, tr)
    requires InFront(archetypes, staging, s.tables, dst) && tl != tr && tl != dst && dst != tr
    ensures Filings.Calm(archetypes, staging, Gathered(s, lhs, tl, rl, rhs, tr, rr, dst).tables)
            <==> Filings.Calm(archetypes, staging, s.tables)
  {
    hide Filings.Calm, Filed;
    var moved := s.Transfer(tr, rr, dst);
    CalmAfterMove(archetypes, staging, s, tr, rr, dst);
    TransferTypes(s, tr, rr, dst);
    FiledTwice(archetypes, staging, s.tables, tr, moved.tables[tr], dst, moved.tables[dst]);
    assert moved.tables == s.tables[tr := moved.tables[tr]][dst := moved.tables[dst]];
    CalmAfterCutRewrite(archetypes, staging, moved, tl, rl, dst);
  }

  lemma TransferTypes<T>(s: Store<T>, t: T, row: nat, dst: T)
    requires s.CanCut(t, row) && dst in s.tables && t != dst
    ensures var moved := s.Transfer(t, row, dst);
            && moved.tables.Keys == s.tables.Keys
            && (forall u :: u in s.tables && u != t && u != dst ==> moved.tables[u] == s.tables[u])
            && moved.tables[t].ty == s.tables[t].ty && moved.tables[dst].ty == s.tables[dst].ty
  {
  }

  lemma XorMoves(key: Key, c: TypeId)
    requires c != UNIT
    ensures Xor(key, HashTy(c)) != key
  {
    assert c in Xor(key, HashTy(c)) <==> c !in key;
  }

  lemma AbsentStays<K, V>(m: map<K, V>, k: K)
    requires k !in m
    ensures m - {k} == m
  {
  }

  lemma ExtendsNothing<T>(archetypes: Archetypes<T>)
    ensures Extends(archetypes, archetypes, {})
  {
  }

  lemma ExtendsFiled<T>(archetypes: Archetypes<T>, key: Key, others: set<Key>)
    requires key in archetypes || key in others
    ensures Extends(archetypes, archetypes, {key} - others)
    ensures others == {} ==> Extends(archetypes, archetypes, {key})
  {
  }

  lemma ExtendsOthers<T>(archetypes: Archetypes<T>, key: Key, others: set<Key>)
    ensures key in others ==> Extends(archetypes, archetypes, {key} - others)
    ensures key !in others ==> {key} - others == {key}
  {
  }

  lemma ExtendsBy<T>(archetypes: Archetypes<T>, key: Key, t: T, others: set<Key>)
    requires key !in archetypes && key !in others
    ensures Extends(archetypes, archetypes[key := t], {key} - others)
    ensures others == {} ==> Extends(archetypes, archetypes[key := t], {key})
  {
  }

  lemma ReducedKey(key: Key, t: TableState, c: TypeId)
    requires t.Full() && key == t.ty && c in t.cols && c != UNIT
    ensures Xor(key, HashTy(c)) == (t.cols.Keys - {c}) - {UNIT}
  {
  }

  ghost predicate InTable<T>(s: Slots<T>, id: EntityId, t: T) {
    id.index < |s.slots| && s.slots[id.index].use.Live? && s.slots[id.index].use.table == t
  }

  lemma PlacedAt<T>(s: Slots<T>, id: EntityId, t: T, row: nat)
    requires id.index < |s.slots|
    ensures InTable(s.Place(id, t, row), id, t)
  {
  }

  /** The type that a bundle leads to, from the components of the entity and from its table. */
  lemma SetKeys(components: Components, t: TableState, bundle: Bundle)
    requires components.Keys == t.ty && t.Full()
    ensures (components + NoUnit(AsMap(bundle))).Keys == (t.cols.Keys + Types(bundle)) - {UNIT}
    ensures Types(bundle) <= t.cols.Keys ==> (components + NoUnit(AsMap(bundle))).Keys == t.ty
  {
  }

  lemma CombinedKeys(types: set<TypeId>, bundle: Bundle)
    requires Combines(bundle, types)
    ensures types + Odd(bundle) == types + Types(bundle)
  {
  }

  lemma XorRemoves(components: Components, key: Key, t: TableState, c: TypeId)
    requires t.Full() && key == t.ty == components.Keys && c in t.cols && c != UNIT
    ensures Xor(key, HashTy(c)) == (components - {c}).Keys
  {
    assert (components - {c}).Keys == components.Keys - {c};
  }

  lemma CutTypes(s: TableState, row: nat)
    requires s.Full() && row < |s.entities|
    ensures s.RemoveRow(row).ty == s.ty && forall d: TableState :: d.Receive(s, row).ty == d.ty
  {
  }
}
