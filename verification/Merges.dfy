/**
  Merging two entities (src/lib.rs, `merge_entities`), on the store as a value: what each branch
  of the operation does to the map, and what the branch for equal types does instead.
 */
module Merges {
  import opened Seqs
  import opened EntityIds
  import opened EntityIndexes
  import opened Tables
  import opened Stores
  import opened Filings

  /** What a merge promises: `rhs` gets the components of `lhs` on top of its own, and `lhs` goes. */
  ghost function MergedView(m: map<EntityId, Components>, lhs: EntityId, rhs: EntityId): map<EntityId, Components>
    requires lhs in m && rhs in m
  {
    (m - {lhs})[rhs := m[rhs] + m[lhs]]
  }

  lemma MergedMeans(m: map<EntityId, Components>, lhs: EntityId, rhs: EntityId)
    ensures lhs in m && rhs in m ==> MergedView(m, lhs, rhs) == (m - {lhs})[rhs := m[rhs] + m[lhs]]
  {
  }

  /**
    Which entities are in staging archetypes after a merge, from those that were, and the types of
    the two. Only a merge into the archetype of `lhs` can leave `rhs` where `lhs` was.
   */
  ghost function MergedAside(aside: set<EntityId>, lhs: EntityId, left: Key, rhs: EntityId, right: Key): set<EntityId> {
    (if left + right == right then aside else Joining(aside, rhs, left + right == left && lhs in aside)) - {lhs}
  }

  lemma AsideCases(aside: set<EntityId>, lhs: EntityId, left: Key, rhs: EntityId, right: Key)
    ensures right + left == left + right
    ensures left + right == right ==> MergedAside(aside, lhs, left, rhs, right) == aside - {lhs}
    ensures left + right != right && left + right == left ==>
              MergedAside(aside, lhs, left, rhs, right) == Joining(aside, rhs, lhs in aside) - {lhs}
    ensures left + right != right && left + right != left ==>
              MergedAside(aside, lhs, left, rhs, right) == Joining(aside, rhs, false) - {lhs}
  {
  }

  /** Two different live entities in different tables. */
  ghost predicate Separate<T>(s: Store<T>, lhs: EntityId, rhs: EntityId) {
    && s.Agree() && s.index.IsLive(lhs) && s.index.IsLive(rhs) && lhs != rhs
    && s.TableOf(lhs) != s.TableOf(rhs)
  }

  // ---------------------------------------------------------------- lhs has no column that rhs lacks

  /** `move_entity_into`: the row of `lhs` is written over the row of `rhs`. */
  lemma SubsetMerge<T>(s: Store<T>, lhs: EntityId, rhs: EntityId)
    requires Separate(s, lhs, rhs)
    requires s.tables[s.TableOf(lhs)].cols.Keys <= s.tables[s.TableOf(rhs)].cols.Keys
    ensures lhs in s.View() && rhs in s.View()
    ensures var tl, rl, tr, rr := s.TableOf(lhs), s.RowOf(lhs), s.TableOf(rhs), s.RowOf(rhs);
            && s.CanCut(tl, rl) && s.Cut(tl, rl).index.IsLive(lhs)
            && var moved := s.Cut(tl, rl).Rewrite(tr, s.tables[tr].Overwrite(rr, s.tables[tl], rl));
            var after := moved.WithIndex(moved.index.Release(lhs));
            && after.Agree() && after.View() == MergedView(s.View(), lhs, rhs)
            && SameTables(s.index.Release(lhs), after.index)
  {
    var tl, rl, tr, rr := s.TableOf(lhs), s.RowOf(lhs), s.TableOf(rhs), s.RowOf(rhs);
    LastRow(s, tl);
    CutAllocator(s, tl, rl);
    SameRelease(s.index, s.Cut(tl, rl).index, lhs);
    hide SameTables;
    ViewKeys(s, lhs);
    ViewKeys(s, rhs);
    var absorbed := s.tables[tr].Overwrite(rr, s.tables[tl], rl);
    AbsorbedRow(s.tables[tr], rr, s.tables[tl], rl);
    hide Store.EntriesNameRows, Store.RowsNameEntries, Store.View, TableState.Overwrite, TableState.RemoveRow;
    hide TableState.Row, Slots.Release, Slots.WellFormed, Store.Cut, Store.CanCut, TableState.Full;
    CutBeside(s, tl, rl, tr, absorbed);
    RewriteView(s, rhs, absorbed);
    DeleteView(s.Rewrite(tr, absorbed), lhs);
    UpdateThenDrop(s.View(), lhs, rhs, s.View()[rhs] + s.View()[lhs]);
  }

  /** Removing a row of one table and rewriting another commute. */
  lemma CutBeside<T>(s: Store<T>, t: T, row: nat, other: T, changed: TableState)
    requires t != other && s.CanCut(t, row)
    ensures s.Rewrite(other, changed).CanCut(t, row)
    ensures s.Rewrite(other, changed).Cut(t, row) == s.Cut(t, row).Rewrite(other, changed)
  {
    assert s.Rewrite(other, changed).Cut(t, row).tables == s.Cut(t, row).Rewrite(other, changed).tables;
  }

  /** The entry of one live entity is updated, the slot of another is freed. */
  lemma ReleaseAfter<T>(a: Slots<T>, b: Slots<T>, id: EntityId, t: T, row: nat, gone: EntityId)
    requires SameTables(a, b) && a.IsLive(id) && gone.index < |a.slots|
    ensures SameTables(a.Place(id, t, 0).Release(gone), b.Place(id, t, row).Release(gone))
  {
    SamePlace(a, b, id, t, 0, row);
    hide SameTables;
    SameRelease(a.Place(id, t, 0), b.Place(id, t, row), gone);
  }

  lemma UpdateThenDrop<K, V>(m: map<K, V>, gone: K, k: K, v: V)
    requires gone != k
    ensures m[k := v] - {gone} == (m - {gone})[k := v]
  {
  }

  // ---------------------------------------------------------------- rhs has no column that lhs lacks

  /** The table once another entity is in charge of a row. */
  ghost function Handed(t: TableState, row: nat, id: EntityId): TableState
    requires row < |t.entities|
  {
    TableState(t.ty, t.entities[row := id], t.cols)
  }

  /** The row of `rhs` is removed and `rhs` takes over the row of `lhs`. */
  lemma SupersetMerge<T>(s: Store<T>, lhs: EntityId, rhs: EntityId)
    requires Separate(s, lhs, rhs)
    requires s.tables[s.TableOf(rhs)].cols.Keys <= s.tables[s.TableOf(lhs)].cols.Keys
    ensures lhs in s.View() && rhs in s.View()
    ensures var tl, rl, tr, rr := s.TableOf(lhs), s.RowOf(lhs), s.TableOf(rhs), s.RowOf(rhs);
            && s.CanCut(tr, rr) && s.Cut(tr, rr).index.IsLive(rhs)
            && var handed := s.Cut(tr, rr).Rewrite(tl, Handed(s.tables[tl], rl, rhs));
            && handed.index.Place(rhs, tl, rl).IsLive(lhs)
            && var after := handed.WithIndex(handed.index.Place(rhs, tl, rl).Release(lhs));
            && after.Agree() && after.View() == MergedView(s.View(), lhs, rhs)
            && SameTables(s.index.Place(rhs, tl, 0).Release(lhs), after.index)
  {
    var tl, rl, tr, rr := s.TableOf(lhs), s.RowOf(lhs), s.TableOf(rhs), s.RowOf(rhs);
    LastRow(s, tr);
    CutAllocator(s, tr, rr);
    ReleaseAfter(s.index, s.Cut(tr, rr).index, rhs, tl, rl, lhs);
    hide SameTables;
    ViewKeys(s, lhs);
    ViewKeys(s, rhs);
    DetachStays(s, rhs, lhs);
    var d := s.Detach(rhs);
    DetachAgrees(s, rhs);
    RepairedKeeps(s, rhs);
    RepairedApart(s, tr, rr, lhs);
    Dominated(s.View()[rhs], s.View()[lhs]);
    hide Store.EntriesNameRows, Store.RowsNameEntries, Store.View, TableState.RemoveRow, TableState.Row, Vacated;
    hide Store.Repaired, Slots.Place, Slots.Release, Slots.WellFormed, Store.Detach, TableState.Full;
    DetachView(s, rhs);
    BequeathView(d, lhs, rhs);
    ReleaseView(d.Bequeath(lhs, rhs), lhs);
    ReserveIsPassing(s.Repaired(tr, rr), rhs, tl, rl);
    ReserveIsPassing(s.Repaired(tr, rr).Place(rhs, tl, rl), lhs, tl, rl);
    ViewKeys(d, lhs);
    DropThenUpdate(s.View(), lhs, rhs, s.View()[lhs]);
  }

  lemma DropThenUpdate<K, V>(m: map<K, V>, a: K, b: K, v: V)
    requires a != b
    ensures ((m - {b}) - {a})[b := v] == (m - {a})[b := v]
  {
  }

  lemma Dominated<K, V>(a: map<K, V>, b: map<K, V>)
    requires a.Keys <= b.Keys
    ensures a + b == b
  {
  }

  /** Taking one entity out leaves the others where they were, but for the displaced one. */
  lemma DetachStays<T>(s: Store<T>, id: EntityId, other: EntityId)
    requires Separate(s, id, other) || Separate(s, other, id)
    ensures s.Detach(id).Agree() && s.Detach(id).index.IsLive(other)
    ensures s.Detach(id).TableOf(other) == s.TableOf(other) && s.Detach(id).RowOf(other) == s.RowOf(other)
    ensures s.Detach(id).tables[s.TableOf(other)] == s.tables[s.TableOf(other)]
  {
    DetachAgrees(s, id);
    assert other.index != id.index;
  }

  lemma RepairedApart<T>(s: Store<T>, t: T, row: nat, other: EntityId)
    requires s.Agree() && s.CanCut(t, row) && s.index.IsLive(other) && s.TableOf(other) != t
    ensures s.Repaired(t, row).IsLive(other) && s.Repaired(t, row).slots[other.index] == s.index.slots[other.index]
  {
  }

  // ---------------------------------------------------------------- each has a column that the other lacks

  /** The state once both rows have arrived in `dst`. */
  ghost function Joined(d: TableState, r: TableState, rr: nat, l: TableState, rl: nat): TableState
    requires r.Full() && rr < |r.entities| && l.Full() && rl < |l.entities|
  {
    Bundled(d.Receive(r, rr), l.Cells(rl), |d.entities|)
  }

  lemma JoinedRow(d: TableState, r: TableState, rr: nat, l: TableState, rl: nat)
    requires d.Full() && r.Full() && rr < |r.entities| && l.Full() && rl < |l.entities|
    requires d.cols.Keys == r.cols.Keys + l.cols.Keys
    ensures Appends(d, Joined(d, r, rr, l, rl), r.entities[rr])
    ensures Joined(d, r, rr, l, rl).entities == d.entities + [r.entities[rr]]
    ensures Joined(d, r, rr, l, rl).Row(|d.entities|) == r.Row(rr) + l.Row(rl)
    ensures Fits(l, d.Receive(r, rr), r.cols.Keys, |d.entities|)
  {
    assert NoUnit(l.Cells(rl)) == l.Row(rl);
    MovedRow(r, rr, d, l.Cells(rl));
  }

  /** The store once `rhs` has moved to `dst` and the cells of `lhs` have been drained after it. */
  ghost function Drained<T>(s: Store<T>, tl: T, rl: nat, dst: T, dstRow: nat): Store<T>
    requires s.CanCut(tl, rl) && dst in s.tables
  {
    s.Cut(tl, rl).Rewrite(dst, Bundled(s.tables[dst], s.tables[tl].Cells(rl), dstRow))
  }

  /** Both rows can be brought to `dst`, that of `rhs` first. */
  ghost predicate CanGather<T>(s: Store<T>, lhs: EntityId, tl: T, rl: nat, rhs: EntityId, tr: T, rr: nat, dst: T) {
    && tl in s.tables && tr in s.tables && dst in s.tables && s.CanCut(tr, rr)
    && var moved := s.Transfer(tr, rr, dst);
    && moved.CanCut(tl, rl) && moved.tables[tl] == s.tables[tl]
    && Fits(moved.tables[tl], moved.tables[dst], s.tables[tr].cols.Keys, |s.tables[dst].entities|)
    && var drained := Drained(moved, tl, rl, dst, |s.tables[dst].entities|);
    drained.index.IsLive(rhs) && drained.index.Place(rhs, dst, |s.tables[dst].entities|).IsLive(lhs)
  }

  /** The store once both rows are one, `rhs` is in charge of it, and the slot of `lhs` is free. */
  ghost function Gathered<T>(s: Store<T>, lhs: EntityId, tl: T, rl: nat, rhs: EntityId, tr: T, rr: nat,
                             dst: T): Store<T>
    requires CanGather(s, lhs, tl, rl, rhs, tr, rr, dst)
  {
    var drained := Drained(s.Transfer(tr, rr, dst), tl, rl, dst, |s.tables[dst].entities|);
    drained.WithIndex(drained.index.Place(rhs, dst, |s.tables[dst].entities|).Release(lhs))
  }

  /** A move of `rhs` that brings the cells of `lhs` along, and the deletion of `lhs`. */
  lemma GeneralView<T>(s: Store<T>, lhs: EntityId, rhs: EntityId, dst: T)
    requires Separate(s, lhs, rhs) && dst in s.tables && dst != s.TableOf(lhs) && dst != s.TableOf(rhs)
    requires s.tables[dst].cols.Keys == s.tables[s.TableOf(rhs)].cols.Keys + s.tables[s.TableOf(lhs)].cols.Keys
    requires s.tables[s.TableOf(lhs)].Full() && s.tables[s.TableOf(rhs)].Full() && s.tables[dst].Full()
    ensures lhs in s.View() && rhs in s.View()
    ensures var tl, rl, tr, rr := s.TableOf(lhs), s.RowOf(lhs), s.TableOf(rhs), s.RowOf(rhs);
            var grown := Joined(s.tables[dst], s.tables[tr], rr, s.tables[tl], rl);
            && s.CanCut(tr, rr) && s.Cut(tr, rr).index.IsLive(rhs) && grown.entities == s.tables[dst].entities + [rhs]
            && var arrived := s.Cut(tr, rr).Attach(rhs, dst, grown);
            && arrived.CanCut(tl, rl) && arrived.Cut(tl, rl).index.IsLive(lhs)
            && var after := arrived.Cut(tl, rl).WithIndex(arrived.Cut(tl, rl).index.Release(lhs));
            after.Agree() && after.View() == MergedView(s.View(), lhs, rhs)
  {
    hide Store.Agree, Store.View, Store.Cut, Store.CanCut, Store.Attach, Joined, Appends, Fits, SameTables;
    hide TableState.Row;
    var tl, rl, tr, rr := s.TableOf(lhs), s.RowOf(lhs), s.TableOf(rhs), s.RowOf(rhs);
    ViewKeys(s, lhs);
    ViewKeys(s, rhs);
    var grown := Joined(s.tables[dst], s.tables[tr], rr, s.tables[tl], rl);
    JoinedRow(s.tables[dst], s.tables[tr], rr, s.tables[tl], rl);
    MoveView(s, rhs, dst, grown);
    MovedStays(s, rhs, dst, grown, lhs);
    DeleteView(s.Cut(tr, rr).Attach(rhs, dst, grown), lhs);
    UpdateThenDrop(s.View(), lhs, rhs, s.View()[rhs] + s.View()[lhs]);
  }

  lemma FullTables<T>(s: Store<T>)
    requires s.Agree()
    ensures forall t :: t in s.tables ==> s.tables[t].Full()
  {
  }

  lemma GeneralMerge<T>(s: Store<T>, lhs: EntityId, rhs: EntityId, dst: T)
    requires Separate(s, lhs, rhs) && dst in s.tables && dst != s.TableOf(lhs) && dst != s.TableOf(rhs)
    requires s.tables[dst].cols.Keys == s.tables[s.TableOf(rhs)].cols.Keys + s.tables[s.TableOf(lhs)].cols.Keys
    ensures lhs in s.View() && rhs in s.View()
    ensures var tl, rl, tr, rr := s.TableOf(lhs), s.RowOf(lhs), s.TableOf(rhs), s.RowOf(rhs);
            && CanGather(s, lhs, tl, rl, rhs, tr, rr, dst)
            && var after := Gathered(s, lhs, tl, rl, rhs, tr, rr, dst);
            && after.Agree() && after.View() == MergedView(s.View(), lhs, rhs)
            && SameTables(s.index.Place(rhs, dst, 0).Release(lhs), after.index)
  {
    hide Store.Agree, Store.View, Store.Cut, Store.CanCut, Store.Attach, Joined, Appends, Fits, SameTables;
    hide Drained, Slots.Place, Slots.Release, TableState.Full, TableState.Receive, Bundled, MergedView;
    var tl, rl, tr, rr := s.TableOf(lhs), s.RowOf(lhs), s.TableOf(rhs), s.RowOf(rhs);
    FullTables(s);
    JoinedRow(s.tables[dst], s.tables[tr], rr, s.tables[tl], rl);
    GeneralView(s, lhs, rhs, dst);
    LastRowStays(s, rhs, dst, tl, rl);
    DrainedAllocator(s, tl, rl, tr, rr, dst, lhs, rhs);
    DrainedAfter(s, tl, rl, tr, rr, dst, rhs);
  }

  /** What the moves of a general merge are to the allocator: `rhs` moves, and `lhs` is freed. */
  lemma DrainedAllocator<T>(s: Store<T>, tl: T, rl: nat, tr: T, rr: nat, dst: T, lhs: EntityId, rhs: EntityId)
    requires dst in s.tables && s.CanCut(tr, rr) && s.Transfer(tr, rr, dst).CanCut(tl, rl)
    requires lhs.index < |s.index.slots| && s.index.IsLive(rhs)
    ensures var drained := Drained(s.Transfer(tr, rr, dst), tl, rl, dst, |s.tables[dst].entities|);
            && |drained.index.slots| == |s.index.slots|
            && SameTables(s.index.Place(rhs, dst, 0).Release(lhs),
                          drained.index.Place(rhs, dst, |s.tables[dst].entities|).Release(lhs))
  {
    var n := |s.tables[dst].entities|;
    var moved := s.Transfer(tr, rr, dst);
    CutAllocator(s, tr, rr);
    CutAllocator(moved, tl, rl);
    hide Store.CanCut, Store.Cut, TableState.Receive, Bundled;
    SameTransitive(s.index, moved.index, Drained(moved, tl, rl, dst, n).index);
    ReleaseAfter(s.index, Drained(moved, tl, rl, dst, n).index, rhs, dst, n, lhs);
  }

  /** Where an entity of a third table is, once another has moved. */
  lemma MovedStays<T>(s: Store<T>, id: EntityId, dst: T, grown: TableState, other: EntityId)
    requires Separate(s, other, id) && dst in s.tables && dst != s.TableOf(id) && dst != s.TableOf(other)
    requires s.CanCut(s.TableOf(id), s.RowOf(id)) && s.Cut(s.TableOf(id), s.RowOf(id)).index.IsLive(id)
    requires grown.entities != []
    requires s.Cut(s.TableOf(id), s.RowOf(id)).Attach(id, dst, grown).Agree()
    ensures var after := s.Cut(s.TableOf(id), s.RowOf(id)).Attach(id, dst, grown);
            && after.index.IsLive(other) && after.TableOf(other) == s.TableOf(other)
            && after.RowOf(other) == s.RowOf(other)
            && after.tables[s.TableOf(other)] == s.tables[s.TableOf(other)]
  {
    assert other.index != id.index;
    RepairedApart(s, s.TableOf(id), s.RowOf(id), other);
  }

  lemma LastRowStays<T>(s: Store<T>, id: EntityId, dst: T, t: T, row: nat)
    requires s.Agree() && s.index.IsLive(id) && s.CanCut(s.TableOf(id), s.RowOf(id)) && dst in s.tables
    requires t in s.tables && t != s.TableOf(id) && t != dst && row < |s.tables[t].entities|
    ensures s.Transfer(s.TableOf(id), s.RowOf(id), dst).CanCut(t, row)
    ensures s.Transfer(s.TableOf(id), s.RowOf(id), dst).tables[t] == s.tables[t]
  {
    LastRow(s, t);
    var last := s.tables[t].entities[|s.tables[t].entities| - 1];
    assert s.CanCut(t, row);
    RepairedApart(s, s.TableOf(id), s.RowOf(id), last);
  }

  /** What lets both rows be moved to `dst`, in either order of bookkeeping. */
  ghost predicate Movable<T>(s: Store<T>, tl: T, rl: nat, tr: T, rr: nat, dst: T, rhs: EntityId) {
    && s.Agree() && s.index.IsLive(rhs) && tr == s.TableOf(rhs) && rr == s.RowOf(rhs)
    && tl in s.tables && s.tables[tl].Full() && rl < |s.tables[tl].entities|
    && tl != tr && dst != tr && dst != tl && dst in s.tables && s.CanCut(tr, rr)
    && s.Transfer(tr, rr, dst).CanCut(tl, rl)
    && s.Cut(tr, rr).index.IsLive(rhs)
    && Joined(s.tables[dst], s.tables[tr], rr, s.tables[tl], rl).entities == s.tables[dst].entities + [rhs]
    && s.Cut(tr, rr).Attach(rhs, dst, Joined(s.tables[dst], s.tables[tr], rr, s.tables[tl], rl)).CanCut(tl, rl)
  }

  /** Draining and then updating the entry of `rhs` is the same as doing it the other way around. */
  lemma DrainedAfter<T>(s: Store<T>, tl: T, rl: nat, tr: T, rr: nat, dst: T, rhs: EntityId)
    requires Movable(s, tl, rl, tr, rr, dst, rhs)
    ensures var n := |s.tables[dst].entities|;
            var drained := Drained(s.Transfer(tr, rr, dst), tl, rl, dst, n);
            var grown := Joined(s.tables[dst], s.tables[tr], rr, s.tables[tl], rl);
            && drained.index.IsLive(rhs)
            && drained.WithIndex(drained.index.Place(rhs, dst, n)) == s.Cut(tr, rr).Attach(rhs, dst, grown).Cut(tl, rl)
  {
    DrainedIndex(s, tl, rl, tr, rr, dst, rhs);
    DrainedTables(s, tl, rl, tr, rr, dst, rhs);
    hide Store.Cut, Store.Attach, Store.Transfer, Drained, Joined, Slots.Place;
  }

  lemma DrainedIndex<T>(s: Store<T>, tl: T, rl: nat, tr: T, rr: nat, dst: T, rhs: EntityId)
    requires Movable(s, tl, rl, tr, rr, dst, rhs)
    ensures var n := |s.tables[dst].entities|;
            var drained := Drained(s.Transfer(tr, rr, dst), tl, rl, dst, n);
            var grown := Joined(s.tables[dst], s.tables[tr], rr, s.tables[tl], rl);
            && drained.index.IsLive(rhs)
            && drained.index.Place(rhs, dst, n) == s.Cut(tr, rr).Attach(rhs, dst, grown).Cut(tl, rl).index
  {
    hide TableState.RemoveRow, TableState.Receive, TableState.Cells, TableState.Full, Bundled, Joined;
    hide Store.RowsNameEntries;
    var n := |s.tables[dst].entities|;
    var moved := s.Transfer(tr, rr, dst);
    var last := s.tables[tl].entities[|s.tables[tl].entities| - 1];
    assert last.index != rhs.index by {
      assert moved.index.slots[last.index].use.table == tl;
    }
    PlacesCommute(moved.index, last, tl, rl, rhs, dst, n);
  }

  lemma DrainedTables<T>(s: Store<T>, tl: T, rl: nat, tr: T, rr: nat, dst: T, rhs: EntityId)
    requires Movable(s, tl, rl, tr, rr, dst, rhs)
    ensures var n := |s.tables[dst].entities|;
            var drained := Drained(s.Transfer(tr, rr, dst), tl, rl, dst, n);
            var grown := Joined(s.tables[dst], s.tables[tr], rr, s.tables[tl], rl);
            drained.tables == s.Cut(tr, rr).Attach(rhs, dst, grown).Cut(tl, rl).tables
  {
    hide TableState.RemoveRow, TableState.Receive, TableState.Cells, Bundled, Store.Repaired, Store.EntriesNameRows;
    hide Store.RowsNameEntries;
    var received := s.tables[dst].Receive(s.tables[tr], rr);
    UpdatesCommute(s.tables, tr, s.tables[tr].RemoveRow(rr), dst, received, tl, s.tables[tl].RemoveRow(rl),
                   Joined(s.tables[dst], s.tables[tr], rr, s.tables[tl], rl));
  }

  lemma UpdatesCommute<K, V>(m: map<K, V>, a: K, x: V, d: K, y: V, t: K, z: V, w: V)
    requires a != d && d != t
    ensures m[a := x][d := y][t := z][d := w] == m[a := x][d := w][t := z]
  {
  }

  lemma PlacesCommute<T>(s: Slots<T>, a: EntityId, ta: T, ra: nat, b: EntityId, tb: T, rb: nat)
    requires a.index < |s.slots| && b.index < |s.slots| && a.index != b.index
    ensures s.Place(a, ta, ra).Place(b, tb, rb) == s.Place(b, tb, rb).Place(a, ta, ra)
  {
    assert s.Place(a, ta, ra).Place(b, tb, rb).slots == s.Place(b, tb, rb).Place(a, ta, ra).slots;
  }

  // ---------------------------------------------------------------- equal types

  /** The branch for equal types indexes the table of one entity with the row of the other. */
  ghost predicate RowsInRange<T>(s: Store<T>, lhs: EntityId, rhs: EntityId) {
    && s.Agree() && s.index.IsLive(lhs) && s.index.IsLive(rhs) && lhs != rhs
    && s.RowOf(lhs) < |s.tables[s.TableOf(rhs)].entities| && s.RowOf(rhs) < |s.tables[s.TableOf(lhs)].entities|
  }

  /** Components and entries are swapped, the entity lists are not. */
  ghost function Swap<T>(s: Store<T>, lhs: EntityId, rhs: EntityId): Store<T>
    requires RowsInRange(s, lhs, rhs)
  {
    var tl, rl, tr, rr := s.TableOf(lhs), s.RowOf(lhs), s.TableOf(rhs), s.RowOf(rhs);
    s.Rewrite(tr, s.tables[tr].SwapCells(rl, rr)).WithIndex(s.index.Place(lhs, tl, rr).Place(rhs, tr, rl))
  }

  /** What the code does for equal types: swap, then delete the row that `lhs` now has. */
  ghost function SwapMerge<T>(s: Store<T>, lhs: EntityId, rhs: EntityId): Store<T>
    requires RowsInRange(s, lhs, rhs)
  {
    SwapCuts(s, lhs, rhs);
    var cut := Swap(s, lhs, rhs).Cut(s.TableOf(lhs), s.RowOf(rhs));
    cut.WithIndex(cut.index.Release(lhs))
  }

  lemma SwapCuts<T>(s: Store<T>, lhs: EntityId, rhs: EntityId)
    requires RowsInRange(s, lhs, rhs)
    ensures Swap(s, lhs, rhs).CanCut(s.TableOf(lhs), s.RowOf(rhs))
    ensures Swap(s, lhs, rhs).Cut(s.TableOf(lhs), s.RowOf(rhs)).index.IsLive(lhs)
    ensures Swap(s, lhs, rhs).index.IsLive(lhs)
  {
    hide Store.EntriesNameRows, Slots.WellFormed;
    var tl := s.TableOf(lhs);
    assert Swap(s, lhs, rhs).tables[tl].entities == s.tables[tl].entities;
  }

  /**
    Within one table the two swaps cancel against the entity list: afterwards the entry of `rhs`
    names a row that is not its own, so the index and the tables disagree. Only when the two are
    in different tables with the same key, and in the same row, does the store stay whole; then
    `lhs` is deleted and `rhs` receives nothing.
   */
  lemma SwapMergeAgrees<T>(s: Store<T>, lhs: EntityId, rhs: EntityId)
    requires RowsInRange(s, lhs, rhs)
    ensures SwapMerge(s, lhs, rhs).Agree() <==> s.TableOf(lhs) != s.TableOf(rhs) && s.RowOf(lhs) == s.RowOf(rhs)
    ensures SwapMerge(s, lhs, rhs).Agree() ==> SwapMerge(s, lhs, rhs).View() == s.View() - {lhs}
  {
    var tl, tr, rl, rr := s.TableOf(lhs), s.TableOf(rhs), s.RowOf(lhs), s.RowOf(rhs);
    if tl != tr && rl == rr {
      SwapIsNothing(s, lhs, rhs);
      DeleteView(s, lhs);
    } else {
      SwapMergeBreaks(s, lhs, rhs);
    }
  }

  lemma SwapIsNothing<T>(s: Store<T>, lhs: EntityId, rhs: EntityId)
    requires RowsInRange(s, lhs, rhs) && s.TableOf(lhs) != s.TableOf(rhs) && s.RowOf(lhs) == s.RowOf(rhs)
    ensures Swap(s, lhs, rhs) == s
  {
    var tr, row := s.TableOf(rhs), s.RowOf(rhs);
    var cols := s.tables[tr].cols;
    forall t | t in cols ensures Swapped(cols[t], row, row) == cols[t] {}
    assert s.tables[tr].SwapCells(row, row).cols == cols;
    assert s.index.Place(lhs, s.TableOf(lhs), row).Place(rhs, tr, row).slots == s.index.slots;
  }

  lemma SwapMergeBreaks<T>(s: Store<T>, lhs: EntityId, rhs: EntityId)
    requires RowsInRange(s, lhs, rhs) && (s.TableOf(lhs) == s.TableOf(rhs) || s.RowOf(lhs) != s.RowOf(rhs))
    ensures !SwapMerge(s, lhs, rhs).Agree()
  {
    hide TableState.Full;
    SwapCuts(s, lhs, rhs);
    var tl, tr, rl, rr := s.TableOf(lhs), s.TableOf(rhs), s.RowOf(lhs), s.RowOf(rhs);
    var after := SwapMerge(s, lhs, rhs);
    assert rl != rr;
    assert lhs.index != rhs.index;
    assert after.index.slots[rhs.index].use == Live(tr, rl);
    assert after.tables[tl].entities == SwapRemove(s.tables[tl].entities, rr);
  }

  /**
    What a merge promises is what comes of this branch only if the two were in the same row of
    different tables and had the same components to begin with.
   */
  lemma SwapMergeIsMerge<T>(s: Store<T>, lhs: EntityId, rhs: EntityId)
    requires RowsInRange(s, lhs, rhs) && s.tables[s.TableOf(lhs)].ty == s.tables[s.TableOf(rhs)].ty
    ensures lhs in s.View() && rhs in s.View()
    ensures SwapMerge(s, lhs, rhs).Agree() && SwapMerge(s, lhs, rhs).View() == MergedView(s.View(), lhs, rhs) <==>
            && s.TableOf(lhs) != s.TableOf(rhs) && s.RowOf(lhs) == s.RowOf(rhs)
            && s.ComponentsOf(lhs) == s.ComponentsOf(rhs)
  {
    ViewKeys(s, lhs);
    ViewKeys(s, rhs);
    SwapMergeAgrees(s, lhs, rhs);
    TypeIsKeys(s, lhs);
    TypeIsKeys(s, rhs);
    hide Store.Agree, Store.View, Store.ComponentsOf, SwapMerge, RowsInRange;
    Dominated(s.View()[rhs], s.View()[lhs]);
    OverrideIsNothing(s.View(), lhs, rhs, s.View()[lhs]);
  }

  lemma OverrideIsNothing<K, V>(m: map<K, V>, gone: K, k: K, v: V)
    requires k in m && k != gone
    ensures (m - {gone})[k := v] == m - {gone} <==> m[k] == v
  {
    assert (m - {gone})[k] == m[k];
    assert (m - {gone})[k := v][k] == v;
  }

  /** Between two sweeps that lose nothing, two entities of one type are in one table: this branch breaks the store. */
  lemma CalmSwapBreaks<T>(s: Store<T>, archetypes: Archetypes<T>, staging: Archetypes<T>, lhs: EntityId, rhs: EntityId)
    requires s.Agree() && Filed(archetypes, staging, s.tables) && Filings.Calm(archetypes, staging, s.tables)
    requires s.index.IsLive(lhs) && s.index.IsLive(rhs) && lhs != rhs
    requires s.tables[s.TableOf(lhs)].ty == s.tables[s.TableOf(rhs)].ty
    ensures RowsInRange(s, lhs, rhs) && !SwapMerge(s, lhs, rhs).Agree()
  {
    var tl, tr := s.TableOf(lhs), s.TableOf(rhs);
    assert s.tables[tl].entities[s.RowOf(lhs)] == lhs && s.tables[tr].entities[s.RowOf(rhs)] == rhs;
    OccupiedInFront(archetypes, staging, s.tables, tl);
    OccupiedInFront(archetypes, staging, s.tables, tr);
    OneUnderKey(archetypes, staging, s.tables, tl, tr);
    SwapMergeAgrees(s, lhs, rhs);
  }

  // ---------------------------------------------------------------- an example

  /** Two entities with one component each, in table 't'; table 'v' is the void archetype. */
  ghost function TwoAlike(): Store<char> {
    Store(Slots([Slot(0, Live('t', 0)), Slot(0, Live('t', 1))], []),
          map['v' := TableState({}, [], map[UNIT := []]),
              't' := TableState({1}, [EntityId(0, 0), EntityId(1, 0)],
                                map[UNIT := [Unit, Unit], 1 := [Data(10), Data(20)]])])
  }

  lemma TwoAlikeAgree()
    ensures TwoAlike().Agree()
  {
    var s := TwoAlike();
    assert s.tables['v'].Full() && s.tables['t'].Full() by {
      assert s.tables['v'].cols.Keys - {UNIT} == {} && s.tables['t'].cols.Keys - {UNIT} == {1};
    }
    hide TableState.Full;
    assert s.EntriesNameRows();
    assert s.RowsNameEntries();
  }

  lemma TwoAlikeFiled()
    ensures Filed(map[{} := 'v', {1} := 't'], map[], TwoAlike().tables)
  {
  }

  /** Merging the first of the two into the second breaks the store. */
  lemma SwapMergeExample()
    ensures var lhs, rhs, s := EntityId(0, 0), EntityId(1, 0), TwoAlike();
            && s.Agree() && Filed(map[{} := 'v', {1} := 't'], map[], s.tables)
            && RowsInRange(s, lhs, rhs) && !SwapMerge(s, lhs, rhs).Agree()
  {
    hide Store.EntriesNameRows, Store.RowsNameEntries, Filed, SwapMerge;
    TwoAlikeAgree();
    TwoAlikeFiled();
    SwapMergeBreaks(TwoAlike(), EntityId(0, 0), EntityId(1, 0));
  }
}
