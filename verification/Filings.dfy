/**
  How the tables of a world are filed: the live archetypes and the staging archetypes, each under
  its key, and the sweep that moves tables between the two (src/lib.rs, `apply_commands`).
 */
module Filings {
  import opened EntityIds
  import opened EntityIndexes
  import opened Tables
  import opened Stores

  type Archetypes<T> = map<Key, T>

  /** Each table is filed under its key in exactly one of the two maps. */
  ghost predicate Filed<T>(archetypes: Archetypes<T>, staging: Archetypes<T>, states: map<T, TableState>) {
    && VOID_TY in archetypes
    && (forall k :: k in archetypes ==> archetypes[k] in states && states[archetypes[k]].ty == k)
    && (forall k :: k in staging ==> staging[k] in states && states[staging[k]].ty == k)
    && (forall t :: t in states ==>
          var k := states[t].ty;
          (k in archetypes && archetypes[k] == t) != (k in staging && staging[k] == t))
  }

  lemma FiledMore<T>(archetypes: Archetypes<T>, staging: Archetypes<T>, states: map<T, TableState>, t: T, s: TableState)
    requires Filed(archetypes, staging, states) && t !in states && s.ty !in archetypes
    ensures Filed(archetypes[s.ty := t], staging, states[t := s])
  {
  }

  /** Changing the contents of a table under the same key keeps the filing. */
  lemma FiledOnce<T>(archetypes: Archetypes<T>, staging: Archetypes<T>, states: map<T, TableState>, t: T, s: TableState)
    requires Filed(archetypes, staging, states) && t in states && s.ty == states[t].ty
    ensures Filed(archetypes, staging, states[t := s])
  {
  }

  lemma FiledTwice<T>(archetypes: Archetypes<T>, staging: Archetypes<T>, states: map<T, TableState>,
                      t: T, s: TableState, u: T, r: TableState)
    requires Filed(archetypes, staging, states) && t in states && s.ty == states[t].ty
    requires u in states && u != t && r.ty == states[u].ty
    ensures Filed(archetypes, staging, states[t := s][u := r])
  {
    hide Filed;
    FiledOnce(archetypes, staging, states, t, s);
    FiledOnce(archetypes, staging, states[t := s], u, r);
  }

  /** `after` is `before` with tables added under those of the keys that were missing. */
  ghost predicate Extends<T>(before: Archetypes<T>, after: Archetypes<T>, keys: set<Key>) {
    after.Keys == before.Keys + keys && forall k :: k in before ==> after[k] == before[k]
  }

  lemma FiledSomewhere<T>(archetypes: Archetypes<T>, staging: Archetypes<T>, states: map<T, TableState>, t: T)
    requires Filed(archetypes, staging, states) && t in states
    ensures states[t].ty in archetypes || states[t].ty in staging
    ensures Extends(archetypes, archetypes, {states[t].ty} - staging.Keys)
  {
  }

  // ---------------------------------------------------------------- the sweep

  /** The tables of `m` under the keys `ks`. */
  ghost function Only<T>(m: Archetypes<T>, ks: set<Key>): Archetypes<T> {
    map k | k in m && k in ks :: m[k]
  }

  lemma OnlyStep<T>(m: Archetypes<T>, q: set<Key>, todo: set<Key>, k: Key)
    requires k in todo && todo <= q && k in m
    ensures Only(m, q - (todo - {k})) == Only(m, q - todo)[k := m[k]]
    ensures m - (q - (todo - {k})) == (m - (q - todo)) - {k}
    ensures k in m - (q - todo)
  {
  }

  lemma OnlyEnds<T>(m: Archetypes<T>, q: set<Key>)
    ensures Only(m, q - q) == map[] && m - (q - q) == m && Only(m, q - {}) == Only(m, q) && m - (q - {}) == m - q
  {
    assert q - {} == q;
  }

  ghost predicate Occupied<T>(states: map<T, TableState>, m: Archetypes<T>, k: Key) {
    k in m && m[k] in states && states[m[k]].entities != []
  }

  ghost function OccupiedKeys<T>(states: map<T, TableState>, m: Archetypes<T>): set<Key> {
    set k | k in m && Occupied(states, m, k)
  }

  /** The live archetypes once the occupied staging tables have been promoted. */
  ghost function Promoted<T>(archetypes: Archetypes<T>, staging: Archetypes<T>,
                             states: map<T, TableState>): Archetypes<T> {
    archetypes + Only(staging, OccupiedKeys(states, staging))
  }

  lemma PromotedIn<T>(archetypes: Archetypes<T>, staging: Archetypes<T>, states: map<T, TableState>)
    requires Filed(archetypes, staging, states)
    ensures forall k :: k in staging ==> staging[k] in states
    ensures forall k :: k in Promoted(archetypes, staging, states) ==>
              Promoted(archetypes, staging, states)[k] in states
  {
  }

  /** The keys of the live tables that the sweep demotes. */
  ghost function Idle<T>(archetypes: Archetypes<T>, states: map<T, TableState>): set<Key> {
    set k | k in archetypes && k != VOID_TY && !Occupied(states, archetypes, k)
  }

  ghost function SweptArchetypes<T>(archetypes: Archetypes<T>, staging: Archetypes<T>,
                                    states: map<T, TableState>): Archetypes<T> {
    var p := Promoted(archetypes, staging, states);
    p - Idle(p, states)
  }

  ghost function SweptStaging<T>(archetypes: Archetypes<T>, staging: Archetypes<T>,
                                 states: map<T, TableState>): Archetypes<T> {
    var p := Promoted(archetypes, staging, states);
    (staging - OccupiedKeys(states, staging)) + Only(p, Idle(p, states))
  }

  /** The tables that are still filed somewhere after the sweep. */
  ghost predicate Survives<T>(archetypes: Archetypes<T>, staging: Archetypes<T>, states: map<T, TableState>, t: T)
    requires t in states
  {
    var k := states[t].ty;
    var (a, s) := (SweptArchetypes(archetypes, staging, states), SweptStaging(archetypes, staging, states));
    (k in a && a[k] == t) || (k in s && s[k] == t)
  }

  /** No key has rows in both maps. */
  ghost predicate NoneShadowed<T>(archetypes: Archetypes<T>, staging: Archetypes<T>, states: map<T, TableState>) {
    forall k :: k in archetypes && k in staging ==> !(Occupied(states, archetypes, k) && Occupied(states, staging, k))
  }

  ghost function Remaining<T>(archetypes: Archetypes<T>, staging: Archetypes<T>,
                              states: map<T, TableState>): map<T, TableState> {
    map t | t in states && Survives(archetypes, staging, states, t) :: states[t]
  }

  /** After the sweep the filing is in order, staging holds no rows, and only the void archetype may be empty. */
  lemma SweepFiles<T>(archetypes: Archetypes<T>, staging: Archetypes<T>, states: map<T, TableState>)
    requires Filed(archetypes, staging, states)
    ensures var (a, s) := (SweptArchetypes(archetypes, staging, states), SweptStaging(archetypes, staging, states));
            var rest := Remaining(archetypes, staging, states);
            && Filed(a, s, rest)
            && (forall k :: k in s ==> !Occupied(rest, s, k))
            && (forall k :: k in a && k != VOID_TY ==> Occupied(rest, a, k))
  {
    SweptPlaces(archetypes, staging, states);
    hide SweptArchetypes, SweptStaging, Promoted;
  }

  /** What is filed where after the sweep, and with rows or without. */
  lemma SweptPlaces<T>(archetypes: Archetypes<T>, staging: Archetypes<T>, states: map<T, TableState>)
    requires Filed(archetypes, staging, states)
    ensures var (a, s) := (SweptArchetypes(archetypes, staging, states), SweptStaging(archetypes, staging, states));
            && VOID_TY in a && (forall k :: k in a && k in s ==> a[k] != s[k])
            && (forall k :: k in a ==> a[k] in states && states[a[k]].ty == k)
            && (forall k :: k in s ==> s[k] in states && states[s[k]].ty == k && states[s[k]].entities == [])
            && (forall k :: k in a && k != VOID_TY ==> states[a[k]].entities != [])
  {
    var p := Promoted(archetypes, staging, states);
    assert forall k :: k in p ==> p[k] in states && states[p[k]].ty == k;
  }

  /** The sweep drops no rows exactly when no key had rows in both maps. */
  lemma SweepKeepsRows<T>(archetypes: Archetypes<T>, staging: Archetypes<T>, states: map<T, TableState>)
    requires Filed(archetypes, staging, states)
    ensures NoneShadowed(archetypes, staging, states) <==>
            forall t :: t in states && !Survives(archetypes, staging, states, t) ==> states[t].entities == []
  {
    var (a, s) := (SweptArchetypes(archetypes, staging, states), SweptStaging(archetypes, staging, states));
    var p := Promoted(archetypes, staging, states);
    if NoneShadowed(archetypes, staging, states) {
      forall t | t in states && states[t].entities != [] ensures Survives(archetypes, staging, states, t) {
        var k := states[t].ty;
        assert p[k] == t;
        assert k in a && a[k] == t;
      }
    } else {
      var k :| k in archetypes && k in staging && Occupied(states, archetypes, k) && Occupied(states, staging, k);
      var t := archetypes[k];
      assert p[k] == staging[k] != t;
      assert k !in Idle(p, states) && a[k] == staging[k];
      assert k !in s;
      assert !Survives(archetypes, staging, states, t);
    }
  }

  lemma VacuumFiles<T>(archetypes: Archetypes<T>, staging: Archetypes<T>, states: map<T, TableState>, kept: set<T>)
    requires Filed(archetypes, staging, states) && kept == archetypes.Values * states.Keys
    ensures Filed(archetypes, map[], Kept(states, kept))
    ensures (forall t :: t in states && t !in kept ==> states[t].entities == []) <==>
            forall k :: k in staging ==> !Occupied(states, staging, k)
  {
    forall t | t in states
      ensures t in kept <==> states[t].ty in archetypes && archetypes[states[t].ty] == t
    {
      if t in kept {
        var k :| k in archetypes && archetypes[k] == t;
      }
    }
  }

  /**
    The sweep keeps index and tables in agreement, and every entity as it was, exactly when no key
    has rows both in a live and in a staging archetype.
   */
  lemma SweepAgrees<T>(store: Store<T>, archetypes: Archetypes<T>, staging: Archetypes<T>)
    requires store.Agree() && Filed(archetypes, staging, store.tables)
    ensures var after := Store(store.index, Remaining(archetypes, staging, store.tables));
            && (after.Agree() <==> NoneShadowed(archetypes, staging, store.tables))
            && (after.Agree() ==> after.View() == store.View())
  {
    hide Store.Agree, Store.View, Survives, NoneShadowed;
    SweepKeepsRows(archetypes, staging, store.tables);
    var kept := set t | t in store.tables && Survives(archetypes, staging, store.tables, t);
    ForgetTables(store, kept);
    assert Remaining(archetypes, staging, store.tables) == Kept(store.tables, kept);
  }

  /** An entity in a live archetype 'l' and one in a staging archetype 's' of the same type; 'v' is the void one. */
  ghost function Doubled(): Store<char> {
    Store(Slots([Slot(0, Live('l', 0)), Slot(0, Live('s', 0))], []),
          map['v' := TableState({}, [], map[UNIT := []]),
              'l' := TableState({1}, [EntityId(0, 0)], map[UNIT := [Unit], 1 := [Data(10)]]),
              's' := TableState({1}, [EntityId(1, 0)], map[UNIT := [Unit], 1 := [Data(20)]])])
  }

  lemma DoubledAgrees()
    ensures Doubled().Agree()
  {
    var s := Doubled();
    assert s.tables['v'].Full() && s.tables['l'].Full() && s.tables['s'].Full() by {
      assert s.tables['v'].cols.Keys - {UNIT} == {};
      assert s.tables['l'].cols.Keys - {UNIT} == {1} && s.tables['s'].cols.Keys - {UNIT} == {1};
    }
    hide TableState.Full;
    assert s.EntriesNameRows();
    assert s.RowsNameEntries();
  }

  lemma DoubledFiled()
    ensures Filed(map[{} := 'v', {1} := 'l'], map[{1} := 's'], Doubled().tables)
    ensures !NoneShadowed(map[{} := 'v', {1} := 'l'], map[{1} := 's'], Doubled().tables)
  {
    var archetypes: Archetypes<char> := map[{} := 'v', {1} := 'l'];
    var staging: Archetypes<char> := map[{1} := 's'];
    assert {1} in archetypes && Occupied(Doubled().tables, archetypes, {1}) && Occupied(Doubled().tables, staging, {1});
  }

  /**
    The same key live and staged, with one row each: the sweep drops the live table. `set_bundle`
    fills a staging table when it finds one, `remove_component` does not look there, so both can
    happen between two sweeps.
   */
  lemma SweepLosesExample()
    ensures var archetypes: Archetypes<char> := map[{} := 'v', {1} := 'l'];
            var staging: Archetypes<char> := map[{1} := 's'];
            && Doubled().Agree() && Filed(archetypes, staging, Doubled().tables)
            && !Store(Doubled().index, Remaining(archetypes, staging, Doubled().tables)).Agree()
  {
    hide Store.EntriesNameRows, Store.RowsNameEntries, Filed, NoneShadowed, Remaining;
    DoubledAgrees();
    DoubledFiled();
    SweepAgrees(Doubled(), map[{} := 'v', {1} := 'l'], map[{1} := 's']);
  }

  // ---------------------------------------------------------------- between two sweeps

  /** A key that is in both maps has no rows in staging, where nobody would look for them. */
  ghost predicate Calm<T>(archetypes: Archetypes<T>, staging: Archetypes<T>, states: map<T, TableState>) {
    forall k :: k in archetypes && k in staging ==> !Occupied(states, staging, k)
  }

  /** The table that is found under its key when both maps are searched, the live one first. */
  ghost predicate InFront<T>(archetypes: Archetypes<T>, staging: Archetypes<T>, states: map<T, TableState>, t: T) {
    && t in states
    && var k := states[t].ty;
    k in archetypes ==> archetypes[k] == t
  }

  lemma CalmIsUnshadowed<T>(archetypes: Archetypes<T>, staging: Archetypes<T>, states: map<T, TableState>)
    requires Calm(archetypes, staging, states)
    ensures NoneShadowed(archetypes, staging, states)
  {
  }

  /** After a sweep staging holds no rows at all. */
  lemma SweptIsCalm<T>(archetypes: Archetypes<T>, staging: Archetypes<T>, states: map<T, TableState>)
    requires forall k :: k in staging ==> !Occupied(states, staging, k)
    ensures Calm(archetypes, staging, states)
  {
  }

  lemma OccupiedInFront<T>(archetypes: Archetypes<T>, staging: Archetypes<T>, states: map<T, TableState>, t: T)
    requires Filed(archetypes, staging, states) && Calm(archetypes, staging, states)
    requires t in states && states[t].entities != []
    ensures InFront(archetypes, staging, states, t)
  {
  }

  lemma OneUnderKey<T>(archetypes: Archetypes<T>, staging: Archetypes<T>, states: map<T, TableState>, t: T, u: T)
    requires Filed(archetypes, staging, states) && InFront(archetypes, staging, states, t)
             && InFront(archetypes, staging, states, u)
    requires states[t].ty == states[u].ty
    ensures t == u
  {
  }

  /** Changing tables that are in front does not change what is behind them. */
  lemma FrontChanges<T>(archetypes: Archetypes<T>, staging: Archetypes<T>, states: map<T, TableState>,
                        t: T, s: TableState, u: T, r: TableState)
    requires Filed(archetypes, staging, states)
    requires InFront(archetypes, staging, states, t) && InFront(archetypes, staging, states, u)
    ensures Calm(archetypes, staging, states[t := s][u := r]) <==> Calm(archetypes, staging, states)
  {
    forall k | k in archetypes && k in staging ensures staging[k] != t && staging[k] != u {}
    assert forall k :: k in archetypes && k in staging ==>
      (Occupied(states[t := s][u := r], staging, k) <==> Occupied(states, staging, k));
  }

  /** A new live archetype hides the rows of a staging archetype with the same key, if it has any. */
  lemma NewHides<T>(archetypes: Archetypes<T>, staging: Archetypes<T>, states: map<T, TableState>, t: T, s: TableState)
    requires Filed(archetypes, staging, states) && Calm(archetypes, staging, states)
    requires t !in states && s.ty !in archetypes
    ensures Calm(archetypes[s.ty := t], staging, states[t := s]) <==> !Occupied(states, staging, s.ty)
  {
    assert forall k :: k in staging ==> (Occupied(states[t := s], staging, k) <==> Occupied(states, staging, k));
    if Occupied(states, staging, s.ty) {
      assert s.ty in archetypes[s.ty := t] && s.ty in staging;
    }
  }

  lemma CalmAfterRewrite<T>(archetypes: Archetypes<T>, staging: Archetypes<T>, s: Store<T>, t: T, changed: TableState)
    requires Filed(archetypes, staging, s.tables) && InFront(archetypes, staging, s.tables, t)
    ensures Calm(archetypes, staging, s.Rewrite(t, changed).tables) <==> Calm(archetypes, staging, s.tables)
  {
    FrontChanges(archetypes, staging, s.tables, t, changed, t, changed);
    assert s.tables[t := changed][t := changed] == s.tables[t := changed];
  }

  lemma CalmAfterCut<T>(archetypes: Archetypes<T>, staging: Archetypes<T>, s: Store<T>, t: T, row: nat)
    requires Filed(archetypes, staging, s.tables) && InFront(archetypes, staging, s.tables, t) && s.CanCut(t, row)
    ensures Calm(archetypes, staging, s.Cut(t, row).tables) <==> Calm(archetypes, staging, s.tables)
  {
    CalmAfterRewrite(archetypes, staging, s, t, s.tables[t].RemoveRow(row));
  }

  lemma CalmAfterMove<T>(archetypes: Archetypes<T>, staging: Archetypes<T>, s: Store<T>, t: T, row: nat, dst: T)
    requires Filed(archetypes, staging, s.tables) && s.CanCut(t, row) && dst in s.tables
    requires InFront(archetypes, staging, s.tables, t) && InFront(archetypes, staging, s.tables, dst)
    ensures Calm(archetypes, staging, s.Transfer(t, row, dst).tables) <==> Calm(archetypes, staging, s.tables)
    ensures forall grown :: Calm(archetypes, staging, s.Transfer(t, row, dst).Rewrite(dst, grown).tables)
                            <==> Calm(archetypes, staging, s.tables)
  {
    var cut, received := s.tables[t].RemoveRow(row), s.tables[dst].Receive(s.tables[t], row);
    FrontChanges(archetypes, staging, s.tables, t, cut, dst, received);
    forall grown
      ensures Calm(archetypes, staging, s.Transfer(t, row, dst).Rewrite(dst, grown).tables) <==>
                Calm(archetypes, staging, s.tables)
    {
      FrontChanges(archetypes, staging, s.tables, t, cut, dst, grown);
      assert s.tables[t := cut][dst := received][dst := grown] == s.tables[t := cut][dst := grown];
    }
  }
}
