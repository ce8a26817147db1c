/**
  Copying a world (src/lib.rs, `Clone for World`): the index is copied first, and then every entry
  of an entity in a live archetype is redirected to the copy of its table.
 */
module Clones {
  import opened EntityIds
  import opened EntityIndexes
  import opened Tables
  import opened Stores
  import opened Filings
  import opened Layouts

  /** The index once the entries of `done` have been redirected along `f`. */
  ghost function Repointed<T>(s: Slots<T>, done: set<EntityId>, f: map<T, T>): Slots<T> {
    Slots(seq(|s.slots|, i requires 0 <= i < |s.slots| => RepointedSlot(s.slots[i], i, done, f)), s.free)
  }

  ghost function RepointedSlot<T>(slot: Slot<T>, i: nat, done: set<EntityId>, f: map<T, T>): Slot<T> {
    if slot.use.Live? && EntityId(i, slot.generation) in done && slot.use.table in f
    then Slot(slot.generation, Live(f[slot.use.table], slot.use.row))
    else slot
  }

  lemma RepointNothing<T>(s: Slots<T>, f: map<T, T>)
    ensures Repointed(s, {}, f) == s
  {
    assert Repointed(s, {}, f).slots == s.slots;
  }

  lemma RepointStep<T>(s: Slots<T>, done: set<EntityId>, f: map<T, T>, id: EntityId)
    requires s.IsLive(id) && s.slots[id.index].use.table in f
    ensures Repointed(s, done, f).IsAllocated(id)
    ensures Repointed(s, done, f).Place(id, f[s.slots[id.index].use.table], s.slots[id.index].use.row) ==
              Repointed(s, done + {id}, f)
  {
    var p := Repointed(s, done, f).Place(id, f[s.slots[id.index].use.table], s.slots[id.index].use.row);
    var r := Repointed(s, done + {id}, f);
    forall i | 0 <= i < |s.slots| ensures p.slots[i] == r.slots[i] {
      if i != id.index {
        assert EntityId(i, s.slots[i].generation) != id;
      }
    }
  }

  /** `f` takes some of the tables, one to one, to new tables with the same contents. */
  ghost predicate Copies<T>(s: Store<T>, f: map<T, T>, states: map<T, TableState>) {
    && f.Keys <= s.tables.Keys
    && states.Keys == f.Values
    && states.Keys !! s.tables.Keys
    && (forall t :: t in f ==> states[f[t]] == s.tables[t])
    && forall t, u :: t in f && u in f && f[t] == f[u] ==> t == u
  }

  /** The copy: the redirected index over the copied tables. */
  ghost function Copy<T>(s: Store<T>, done: set<EntityId>, f: map<T, T>, states: map<T, TableState>): Store<T> {
    Store(Repointed(s.index, done, f), states)
  }

  /** The ids that the query of the clone sees: those with a row in a copied table. */
  ghost predicate Seen<T>(s: Store<T>, done: set<EntityId>, f: map<T, T>) {
    forall id :: s.index.IsLive(id) ==> (id in done <==> s.index.slots[id.index].use.table in f)
  }

  /**
    The copy is a whole store exactly when every table that was not copied is empty. Then it
    stands for the same map, in the same allocator state.
   */
  lemma CopyAgrees<T>(s: Store<T>, done: set<EntityId>, f: map<T, T>, states: map<T, TableState>)
    requires s.Agree() && Copies(s, f, states) && Seen(s, done, f)
    ensures Copy(s, done, f, states).Agree() <==> forall t :: t in s.tables && t !in f ==> s.tables[t].entities == []
    ensures Copy(s, done, f, states).Agree() ==> Copy(s, done, f, states).View() == s.View()
    ensures SameAllocator(s.index, Copy(s, done, f, states).index)
  {
    var c := Copy(s, done, f, states);
    if t :| t in s.tables && t !in f && s.tables[t].entities != [] {
      var id := s.tables[t].entities[0];
      assert s.index.IsLive(id) && s.index.slots[id.index].use == Live(t, 0);
      assert c.index.slots[id.index] == s.index.slots[id.index];
      assert !c.EntriesNameRows();
    } else {
      CopiedRows(s, done, f, states);
      SameView(c, s.View());
    }
  }

  /** Every entry of the copy is redirected, if every table that was not copied is empty. */
  lemma CopiedEntries<T>(s: Store<T>, done: set<EntityId>, f: map<T, T>)
    requires s.Agree() && Seen(s, done, f) && forall t :: t in s.tables && t !in f ==> s.tables[t].entities == []
    ensures forall i :: 0 <= i < |s.index.slots| && s.index.slots[i].use.Live? ==>
              && s.index.slots[i].use.table in f
              && Repointed(s.index, done, f).slots[i] ==
                 Slot(s.index.slots[i].generation, Live(f[s.index.slots[i].use.table], s.index.slots[i].use.row))
    ensures forall i :: 0 <= i < |s.index.slots| && !s.index.slots[i].use.Live? ==>
              Repointed(s.index, done, f).slots[i] == s.index.slots[i]
  {
    hide Store.RowsNameEntries, Slots.WellFormed, TableState.Full;
    forall i | 0 <= i < |s.index.slots| && s.index.slots[i].use.Live?
      ensures s.index.slots[i].use.table in f && EntityId(i, s.index.slots[i].generation) in done
    {
      var id := EntityId(i, s.index.slots[i].generation);
      assert s.index.IsLive(id);
    }
  }

  lemma CopiedRows<T>(s: Store<T>, done: set<EntityId>, f: map<T, T>, states: map<T, TableState>)
    requires s.Agree() && Copies(s, f, states) && Seen(s, done, f)
    requires forall t :: t in s.tables && t !in f ==> s.tables[t].entities == []
    ensures Copy(s, done, f, states).Agree()
    ensures forall id :: s.index.IsLive(id) <==> Copy(s, done, f, states).index.IsLive(id)
    ensures forall id :: s.index.IsLive(id) ==> Copy(s, done, f, states).ComponentsOf(id) == s.ComponentsOf(id)
  {
    CopiedEntries(s, done, f);
    CopiedFull(s, f, states);
    CopiedWellFormed(s.index, Repointed(s.index, done, f));
    CopiedNames(s, done, f, states);
    hide Repointed, Seen, Slots.WellFormed, TableState.Full, Store.EntriesNameRows, Store.RowsNameEntries;
    forall id ensures s.index.IsLive(id) <==> Copy(s, done, f, states).index.IsLive(id) {}
  }

  /** Index and tables of the copy name each other as those of the original do. */
  lemma CopiedNames<T>(s: Store<T>, done: set<EntityId>, f: map<T, T>, states: map<T, TableState>)
    requires s.Agree() && Copies(s, f, states) && Seen(s, done, f)
    requires forall t :: t in s.tables && t !in f ==> s.tables[t].entities == []
    ensures Copy(s, done, f, states).EntriesNameRows() && Copy(s, done, f, states).RowsNameEntries()
  {
    CopiedEntries(s, done, f);
    hide Repointed, Seen, Slots.WellFormed, TableState.Full;
    var c := Copy(s, done, f, states);
    assert c.EntriesNameRows() by { hide Store.RowsNameEntries; }
    forall t, row | t in states && 0 <= row < |states[t].entities|
      ensures var id := states[t].entities[row];
              id.index < |c.index.slots| && c.index.slots[id.index] == Slot(id.generation, Live(t, row))
    {
      var u :| u in f && f[u] == t;
      assert s.tables[u].entities[row] == states[t].entities[row];
    }
  }

  lemma CopiedFull<T>(s: Store<T>, f: map<T, T>, states: map<T, TableState>)
    requires s.Agree() && Copies(s, f, states)
    ensures forall t :: t in states ==> states[t].Full()
  {
    hide Store.EntriesNameRows, Store.RowsNameEntries, Slots.WellFormed, TableState.Full;
    forall t | t in states ensures states[t].Full() {
      var u :| u in f && f[u] == t;
    }
  }

  lemma CopiedWellFormed<T>(s: Slots<T>, r: Slots<T>)
    requires s.WellFormed() && |r.slots| == |s.slots| && r.free == s.free
    requires forall i :: 0 <= i < |s.slots| ==>
      r.slots[i].generation == s.slots[i].generation && (r.slots[i].use.Free? <==> s.slots[i].use.Free?)
    ensures r.WellFormed()
  {
  }

  // ---------------------------------------------------------------- the copied tables

  /** `copied` holds what the live archetypes under the keys of `copies` hold. */
  ghost predicate Mirrors<T>(live: Archetypes<T>, states: map<T, TableState>, copies: Archetypes<T>,
                             copied: map<T, TableState>) {
    && (forall k :: k in copies ==>
          k in live && live[k] in states && copies[k] in copied && copied[copies[k]] == states[live[k]])
    && (forall t :: t in copied ==> copied[t].ty in copies && copies[copied[t].ty] == t)
  }

  lemma MirrorsMore<T>(live: Archetypes<T>, states: map<T, TableState>, copies: Archetypes<T>,
                       copied: map<T, TableState>,
                       k: Key, t: T, s: TableState)
    requires Mirrors(live, states, copies, copied)
    requires k in live && live[k] in states && k !in copies && t !in copied && s == states[live[k]] && s.ty == k
    ensures Mirrors(live, states, copies[k := t], copied[t := s])
  {
  }

  lemma MirrorsNone<T>(live: Archetypes<T>, states: map<T, TableState>)
    ensures Mirrors(live, states, map[], map[])
  {
  }

  /** From each live table to its copy. */
  ghost function Forward<T>(live: Archetypes<T>, states: map<T, TableState>, copies: Archetypes<T>): map<T, T> {
    map t | t in live.Values && t in states && states[t].ty in copies :: copies[states[t].ty]
  }

  lemma MirrorsAll<T>(s: Store<T>, live: Archetypes<T>, staging: Archetypes<T>, copies: Archetypes<T>,
                      copied: map<T, TableState>)
    requires Filed(live, staging, s.tables) && Mirrors(live, s.tables, copies, copied)
    requires copies.Keys == live.Keys && copied.Keys !! s.tables.Keys
    ensures Filed(copies, map[], copied)
    ensures var f := Forward(live, s.tables, copies);
            && f.Keys == live.Values && (forall k :: k in live ==> f[live[k]] == copies[k])
            && Copies(s, f, copied)
  {
    var f := Forward(live, s.tables, copies);
    forall t | t in live.Values ensures t in f {
      var k :| k in live && live[k] == t;
    }
    forall k | k in live ensures live[k] in f && f[live[k]] == copies[k] {
      assert live[k] in live.Values;
    }
    forall t | t in copied ensures t in f.Values {
      assert live[copied[t].ty] in f;
    }
    forall t | t in f.Values ensures t in copied {
      var u :| u in f && f[u] == t;
    }
    forall t, u | t in f && u in f && f[t] == f[u] ensures t == u {
      var k :| k in live && live[k] == t;
      var l :| l in live && live[l] == u;
      assert copied[copies[k]].ty == k && copied[copies[l]].ty == l;
    }
  }

  lemma CopiedAll<T>(live: Archetypes<T>, staging: Archetypes<T>, states: map<T, TableState>, f: map<T, T>)
    requires Filed(live, staging, states) && f.Keys == live.Values
    ensures (forall t :: t in states && t !in f ==> states[t].entities == []) <==>
            forall k :: k in staging ==> !Occupied(states, staging, k)
  {
    VacuumFiles(live, staging, states, live.Values * states.Keys);
  }

  /** A copy of the live archetypes is a whole store exactly when nothing is staged. */
  lemma CopyIsWhole<T>(s: Store<T>, live: Archetypes<T>, staging: Archetypes<T>, done: set<EntityId>, f: map<T, T>,
                       states: map<T, TableState>)
    requires s.Agree() && Filed(live, staging, s.tables) && f.Keys == live.Values && Copies(s, f, states)
             && Seen(s, done, f)
    ensures Copy(s, done, f, states).Agree() <==> forall k :: k in staging ==> !Occupied(s.tables, staging, k)
    ensures Copy(s, done, f, states).Agree() ==> Copy(s, done, f, states).View() == s.View()
    ensures SameAllocator(s.index, Copy(s, done, f, states).index)
  {
    hide Store.Agree, Store.View, Filed, Copies, Seen, SameAllocator, Occupied, Copy;
    CopyAgrees(s, done, f, states);
    CopiedAll(live, staging, s.tables, f);
  }

  /** The copy loses exactly the entities that are in staging archetypes. */
  lemma CopyLoses<T>(s: Store<T>, live: Archetypes<T>, staging: Archetypes<T>, done: set<EntityId>, f: map<T, T>,
                     states: map<T, TableState>)
    requires s.Agree() && Filed(live, staging, s.tables) && f.Keys == live.Values && Copies(s, f, states)
             && Seen(s, done, f)
    ensures forall id :: id in s.View() ==>
      (IsLost(Copy(s, done, f, states).index, states.Keys, id) <==> id in Residents(s.index, staging.Values))
  {
    hide Store.Agree, Store.View;
    forall id | id in s.View()
      ensures IsLost(Copy(s, done, f, states).index, states.Keys, id) <==> id in Residents(s.index, staging.Values)
    {
      ViewKeys(s, id);
      Seated(s, live, staging, id);
    }
  }

  // ---------------------------------------------------------------- the ids that the query yields

  /** `done` are live ids with a row in `live`, and all of those outside the keys in `todo`. */
  ghost predicate SeenSoFar<T>(s: Store<T>, live: Archetypes<T>, todo: set<Key>, done: set<EntityId>) {
    && (forall id :: id in done ==> s.index.IsLive(id) && s.index.slots[id.index].use.table in live.Values)
    && (forall k :: k in live && k !in todo ==>
          live[k] in s.tables && SeenRows(s.tables[live[k]].entities, |s.tables[live[k]].entities|, done))
  }

  ghost predicate SeenRows(entities: seq<EntityId>, n: nat, done: set<EntityId>) {
    forall row :: 0 <= row < n && row < |entities| ==> entities[row] in done
  }

  lemma SeenStep<T>(s: Store<T>, live: Archetypes<T>, todo: set<Key>, done: set<EntityId>, k: Key, row: nat)
    requires s.Agree() && SeenSoFar(s, live, todo, done) && k in live && live[k] in s.tables
    requires row < |s.tables[live[k]].entities| && SeenRows(s.tables[live[k]].entities, row, done)
    ensures var id := s.tables[live[k]].entities[row];
            && s.index.IsLive(id) && s.index.slots[id.index].use == Live(live[k], row)
            && SeenSoFar(s, live, todo, done + {id}) && SeenRows(s.tables[live[k]].entities, row + 1, done + {id})
  {
    assert live[k] in live.Values;
  }

  lemma SeenTable<T>(s: Store<T>, live: Archetypes<T>, todo: set<Key>, done: set<EntityId>, k: Key)
    requires SeenSoFar(s, live, todo, done) && k in live && live[k] in s.tables
    requires SeenRows(s.tables[live[k]].entities, |s.tables[live[k]].entities|, done)
    ensures SeenSoFar(s, live, todo - {k}, done)
  {
  }

  lemma SeenAll<T>(s: Store<T>, live: Archetypes<T>, done: set<EntityId>, f: map<T, T>)
    requires s.Agree() && SeenSoFar(s, live, {}, done) && f.Keys == live.Values
    ensures Seen(s, done, f)
  {
    forall id | s.index.IsLive(id) && s.index.slots[id.index].use.table in f ensures id in done {
      var k :| k in live && live[k] == s.TableOf(id);
      assert s.tables[live[k]].entities[s.RowOf(id)] == id;
    }
  }
}
