/**
  The tables of one world, side by side. Each method here is an `EntityTable` method seen from
  the whole family: it also says what happens to the other tables, namely nothing.
 */
module Families {
  import opened Wrappers
  import opened TypeIds
  import opened EntityIds
  import opened Tables

  type Region = map<object, EntityTable>

  /** Valid tables with disjoint footprints: `region` gives each of their objects to one table. */
  ghost predicate Family(tables: set<EntityTable>, region: Region)
    reads region.Keys
  {
    && (forall t :: t in tables ==> t in region && region[t] == t)
    && (forall t :: t in tables ==> forall o :: o in t.owner ==> o in region && region[o] == t)
    && (forall t :: t in tables ==> t.Valid())
  }

  ghost function Snapshot(tables: set<EntityTable>): map<EntityTable, TableState>
    reads tables
  {
    map t | t in tables :: t.state
  }

  lemma InSnapshot(tables: set<EntityTable>, t: EntityTable)
    ensures Snapshot(tables).Keys == tables
    ensures t in tables ==> Snapshot(tables)[t] == t.state
  {
  }

  /** The region once `t` has grown. */
  ghost function Claimed(region: Region, t: EntityTable): Region
    reads t
  {
    region + map o | o in t.owner :: t
  }

  lemma OneChanged<K, V>(before: map<K, V>, after: map<K, V>, t: K)
    requires t in before && after.Keys == before.Keys
    requires forall u :: u in before && u != t ==> after[u] == before[u]
    ensures after == before[t := after[t]]
  {
  }

  lemma TwoChanged<K, V>(before: map<K, V>, after: map<K, V>, s: K, t: K)
    requires s in before && t in before && after.Keys == before.Keys
    requires forall u :: u in before && u != s && u != t ==> after[u] == before[u]
    ensures after == before[s := after[s]][t := after[t]]
  {
  }

  // ---------------------------------------------------------------- one table

  method RemoveRow(ghost tables: set<EntityTable>, ghost region: Region, t: EntityTable, row: nat)
    returns (moved: Option<EntityId>)
    requires Family(tables, region) && t in tables && t.state.Full() && row < |t.state.entities|
    modifies region.Keys
    ensures Family(tables, region) && moved == Displaced(old(t.state).entities, row)
    ensures Snapshot(tables) == old(Snapshot(tables))[t := old(t.state).RemoveRow(row)]
  {
    hide EntityTable.Valid, TableState.Full;
    ghost var before := Snapshot(tables);
    moved := t.Remove(row);
    OneChanged(before, Snapshot(tables), t);
  }

  method SwapComponents(ghost tables: set<EntityTable>, ghost region: Region, t: EntityTable, a: nat, b: nat)
    requires Family(tables, region) && t in tables && t.state.Full() && a < |t.state.entities| && b < |t.state.entities|
    modifies region.Keys
    ensures Family(tables, region)
    ensures Snapshot(tables) == old(Snapshot(tables))[t := old(t.state).SwapCells(a, b)]
  {
    hide EntityTable.Valid, TableState.Full;
    ghost var before := Snapshot(tables);
    t.SwapComponents(a, b);
    OneChanged(before, Snapshot(tables), t);
  }

  method SetEntity(ghost tables: set<EntityTable>, ghost region: Region, t: EntityTable, row: nat, id: EntityId)
    requires Family(tables, region) && t in tables && row < |t.state.entities|
    modifies region.Keys
    ensures Family(tables, region)
    ensures Snapshot(tables) ==
            old(Snapshot(tables))[t := TableState(old(t.state).ty, old(t.state).entities[row := id], old(t.state).cols)]
  {
    hide EntityTable.Valid;
    ghost var before := Snapshot(tables);
    t.SetEntity(row, id);
    OneChanged(before, Snapshot(tables), t);
  }

  method InsertBundle(ghost tables: set<EntityTable>, ghost region: Region, t: EntityTable, bundle: Bundle, row: nat)
    returns (ghost region': Region)
    requires Family(tables, region) && t in tables && t.CanInsert(bundle)
    requires forall k :: 0 <= k < |bundle| ==> row <= |t.state.cols[bundle[k].0]|
    modifies region.Keys
    ensures Family(tables, region') && region.Keys <= region'.Keys
    ensures forall o :: o in region' && o !in region ==> fresh(o)
    ensures Snapshot(tables) == old(Snapshot(tables))[t := Bundled(old(t.state), AsMap(bundle), row)]
  {
    hide EntityTable.Valid, AsMap, Bundled, Types;
    ghost var before := Snapshot(tables);
    t.InsertBundle(bundle, row);
    region' := Claimed(region, t);
    OneChanged(before, Snapshot(tables), t);
  }

  /** A row for an entity without components. */
  method InsertVoid(ghost tables: set<EntityTable>, ghost region: Region, t: EntityTable, id: EntityId)
    returns (row: nat, ghost region': Region)
    requires Family(tables, region) && t in tables && t.state.Full()
    modifies region.Keys
    ensures Family(tables, region') && region.Keys <= region'.Keys
    ensures forall o :: o in region' && o !in region ==> fresh(o)
    ensures row == |old(t.state).entities|
    ensures Snapshot(tables) == old(Snapshot(tables))[t := VoidGrown(old(t.state), id)]
  {
    hide EntityTable.Valid;
    ghost var before := Snapshot(tables);
    row := t.InsertVoid(id);
    region' := Claimed(region, t);
    OneChanged(before, Snapshot(tables), t);
  }

  /** What a table of the family holds is what its columns hold. */
  lemma Member(tables: set<EntityTable>, region: Region, t: EntityTable)
    requires Family(tables, region) && t in tables
    ensures t.Valid() && t.components.Keys == t.state.cols.Keys && t.state.ty == t.ty
  {
  }

  lemma Counted(tables: set<EntityTable>, region: Region)
    requires Family(tables, region)
    ensures forall t :: t in tables ==> t.rows == |t.state.entities|
  {
  }

  lemma Insertable(tables: set<EntityTable>, region: Region, t: EntityTable, bundle: Bundle)
    requires Family(tables, region) && t in tables
    ensures t.CanInsert(bundle) <==> Types(bundle) <= t.state.cols.Keys
    ensures forall k :: 0 <= k < |bundle| ==> bundle[k].0 in Types(bundle)
  {
    assert forall k :: 0 <= k < |bundle| ==> bundle[k].0 in Types(bundle);
    if t.CanInsert(bundle) {
      forall c | c in Types(bundle) ensures c in t.state.cols {}
    }
  }

  /** A table with objects of its own joins. */
  lemma Joins(tables: set<EntityTable>, region: Region, t: EntityTable)
    requires Family(tables, region) && t.Valid() && t !in region && forall o :: o in t.owner ==> o !in region
    ensures t !in tables && Family(tables + {t}, Claimed(region[t := t], t))
    ensures Claimed(region[t := t], t).Keys == region.Keys + {t} + t.owner.Keys
    ensures Snapshot(tables + {t}) == Snapshot(tables)[t := t.state]
  {
    hide EntityTable.Valid;
    JoinsRegion(tables, region, t);
  }

  lemma JoinsRegion(tables: set<EntityTable>, region: Region, t: EntityTable)
    requires Family(tables, region) && t !in region && forall o :: o in t.owner ==> o !in region
    ensures var r := Claimed(region[t := t], t);
            && r.Keys == region.Keys + {t} + t.owner.Keys
            && (forall u :: u in tables + {t} ==> u in r && r[u] == u)
            && (forall u :: u in tables + {t} ==> forall o :: o in u.owner ==> o in r && r[o] == u)
  {
    hide EntityTable.Valid;
  }

  lemma Nobody()
    ensures Family({}, map[]) && Snapshot({}) == map[]
  {
  }

  /** A family of one. */
  lemma Alone(t: EntityTable)
    requires t.Valid()
    ensures Family({t}, Claimed(map[t := t], t))
  {
    assert Family({}, map[]);
    Joins({}, map[], t);
    assert {} + {t} == {t};
  }

  lemma Leave(tables: set<EntityTable>, region: Region, rest: set<EntityTable>)
    requires Family(tables, region) && rest <= tables
    ensures Family(rest, region)
  {
  }

  // ---------------------------------------------------------------- two tables

  method MoveRow(ghost tables: set<EntityTable>, ghost region: Region, src: EntityTable, dst: EntityTable, row: nat)
    returns (res: nat, moved: Option<EntityId>, ghost region': Region)
    requires Family(tables, region) && src in tables && dst in tables && src != dst
    requires src.state.Full() && dst.state.Full() && row < |src.state.entities|
    modifies region.Keys
    ensures Family(tables, region') && region.Keys <= region'.Keys
    ensures forall o :: o in region' && o !in region ==> fresh(o)
    ensures Snapshot(tables) ==
            old(Snapshot(tables))[src := old(src.state).RemoveRow(row)]
            [dst := old(dst.state).Receive(old(src.state), row)]
    ensures res == |old(dst.state).entities| && moved == Displaced(old(src.state).entities, row)
    ensures dst.components == old(dst.components)
  {
    hide EntityTable.Valid;
    ghost var before := Snapshot(tables);
    res, moved, region' := MoveRowApart(tables, region, src, dst, row);
    TwoChanged(before, Snapshot(tables), src, dst);
  }

  method MoveRowApart(ghost tables: set<EntityTable>, ghost region: Region, src: EntityTable, dst: EntityTable,
                      row: nat)
    returns (res: nat, moved: Option<EntityId>, ghost region': Region)
    requires Family(tables, region) && src in tables && dst in tables && src != dst
    requires src.state.Full() && dst.state.Full() && row < |src.state.entities|
    modifies region.Keys
    ensures Family(tables, region') && region.Keys <= region'.Keys
    ensures forall o :: o in region' && o !in region ==> fresh(o)
    ensures src.state == old(src.state).RemoveRow(row) && dst.state == old(dst.state).Receive(old(src.state), row)
    ensures forall u :: u in tables && u != src && u != dst ==> u.state == old(u.state)
    ensures res == |old(dst.state).entities| && moved == Displaced(old(src.state).entities, row)
    ensures dst.components == old(dst.components)
  {
    hide EntityTable.Valid, TableState.Full, TableState.RemoveRow, TableState.Receive, Displaced;
    assert src.Apart(dst);
    res, moved := src.MoveEntity(dst, row);
    region' := Claimed(region, dst);
  }

  method MoveRowInto(ghost tables: set<EntityTable>, ghost region: Region, src: EntityTable, row: nat,
                     dst: EntityTable, dstRow: nat)
    returns (moved: Option<EntityId>)
    requires Family(tables, region) && src in tables && dst in tables && src != dst
    requires src.state.Full() && dst.state.Full() && row < |src.state.entities| && dstRow < |dst.state.entities|
    modifies region.Keys
    ensures Family(tables, region)
    ensures Snapshot(tables) ==
            old(Snapshot(tables))[src := old(src.state).RemoveRow(row)]
            [dst := old(dst.state).Overwrite(dstRow, old(src.state), row)]
    ensures moved == Displaced(old(src.state).entities, row)
  {
    hide TableState.Overwrite, TableState.RemoveRow, Displaced, EntityTable.Valid;
    ghost var before := Snapshot(tables);
    assert src.Apart(dst);
    moved := src.MoveEntityInto(row, dst, dstRow);
    TwoChanged(before, Snapshot(tables), src, dst);
  }

  method DrainRow(ghost tables: set<EntityTable>, ghost region: Region, src: EntityTable, dst: EntityTable,
                  had: set<TypeId>, row: nat, dstRow: nat)
    returns (moved: Option<EntityId>, ghost region': Region)
    requires Family(tables, region) && src in tables && dst in tables && src != dst
    requires src.state.Full() && row < |src.state.entities| && Fits(src.state, dst.state, had, dstRow)
    modifies region.Keys
    ensures Family(tables, region') && region.Keys <= region'.Keys
    ensures forall o :: o in region' && o !in region ==> fresh(o)
    ensures Snapshot(tables) ==
            old(Snapshot(tables))[src := old(src.state).RemoveRow(row)]
            [dst := Bundled(old(dst.state), old(src.state).Cells(row), dstRow)]
    ensures moved == Displaced(old(src.state).entities, row)
  {
    hide EntityTable.Valid;
    ghost var before := Snapshot(tables);
    moved, region' := DrainRowApart(tables, region, src, dst, had, row, dstRow);
    TwoChanged(before, Snapshot(tables), src, dst);
  }

  method DrainRowApart(ghost tables: set<EntityTable>, ghost region: Region, src: EntityTable, dst: EntityTable,
                       had: set<TypeId>, row: nat, dstRow: nat)
    returns (moved: Option<EntityId>, ghost region': Region)
    requires Family(tables, region) && src in tables && dst in tables && src != dst
    requires src.state.Full() && row < |src.state.entities| && Fits(src.state, dst.state, had, dstRow)
    modifies region.Keys
    ensures Family(tables, region') && region.Keys <= region'.Keys
    ensures forall o :: o in region' && o !in region ==> fresh(o)
    ensures src.state == old(src.state).RemoveRow(row)
    ensures dst.state == Bundled(old(dst.state), old(src.state).Cells(row), dstRow)
    ensures forall u :: u in tables && u != src && u != dst ==> u.state == old(u.state)
    ensures moved == Displaced(old(src.state).entities, row)
  {
    hide EntityTable.Valid, EntityTable.Owns, EntityTable.Complete, TableState.Full, Fits, Bundled, Displaced;
    hide TableState.RemoveRow, TableState.Cells;
    assert src.Apart(dst);
    moved := src.DrainInto(dst, had, row, dstRow);
    region' := Claimed(region, dst);
  }
}
