/**
  Archetype tables (src/table.rs).

  `Column` is the growable buffer of one component type; `EntityTable` keeps one column per
  type and one entity per row. `TableState` is what a table holds, column by column; every
  method of `EntityTable` is tied to a function on it.
 */
module Tables {
  import opened Wrappers
  import opened TypeIds
  import opened Seqs
  import opened EntityIds

  /** The type `()`: every table has its column, and its hash is zero. */
  const UNIT: TypeId := 0

  /** A component value. Nothing here looks inside one. */
  datatype Value = Unit | Data(word: int)

  /**
    An archetype hash. Hashes combine by exclusive or, so a key is modelled as a finite set of
    non-unit types under symmetric difference; this is the no-collision assumption.
   */
  type Key = set<TypeId>

  const VOID_TY: Key := {}

  function HashTy(t: TypeId): Key {
    if t == UNIT then {} else {t}
  }

  function Xor(a: Key, b: Key): Key {
    (a - b) + (b - a)
  }

  // ---------------------------------------------------------------- columns

  class Column {
    var data: array<Value>
    var end: nat
    ghost var contents: seq<Value>

    ghost predicate Valid()
      reads this, data
    {
      end <= data.Length && contents == data[..end]
    }

    constructor (capacity: nat)
      ensures Valid() && fresh(data) && contents == [] && data.Length == capacity
    {
      data := new Value[capacity];
      end := 0;
      contents := [];
    }

    /** Appends, reallocating to one and a half times the capacity when full. */
    method Push(val: Value)
      requires Valid()
      modifies this, data
      ensures Valid() && (data == old(data) || fresh(data))
      ensures contents == old(contents) + [val]
    {
      if end == data.Length {
        var newCap := if data.Length * 3 / 2 < 2 then 2 else data.Length * 3 / 2;
        var newData := new Value[newCap];
        for i := 0 to end
          invariant newData[..i] == data[..i]
          modifies newData
        {
          newData[i] := data[i];
        }
        data := newData;
      }
      data[end] := val;
      end, contents := end + 1, contents + [val];
    }

    method SwapRemove(i: nat) returns (res: Value)
      requires Valid() && i < |contents|
      modifies this, data
      ensures Valid() && data == old(data)
      ensures res == old(contents)[i] && contents == Seqs.SwapRemove(old(contents), i)
    {
      res := data[i];
      if i + 1 != end {
        data[i] := data[end - 1];
      }
      end, contents := end - 1, Seqs.SwapRemove(contents, i);
    }

    /** `as_slice_mut()[i] = val`. */
    method Store(i: nat, val: Value)
      requires Valid() && i < |contents|
      modifies `contents, data
      ensures Valid() && contents == old(contents)[i := val]
    {
      data[i] := val;
      contents := contents[i := val];
    }

    method SwapRows(a: nat, b: nat)
      requires Valid() && a < |contents| && b < |contents|
      modifies `contents, data
      ensures Valid() && contents == old(contents)[a := old(contents)[b]][b := old(contents)[a]]
    {
      data[a], data[b] := data[b], data[a];
      contents := contents[a := contents[b]][b := contents[a]];
    }

    /** A copy with a buffer of its own. */
    method Clone() returns (c: Column)
      requires Valid()
      ensures fresh(c) && fresh(c.data) && c.Valid() && c.contents == contents
    {
      c := new Column(data.Length);
      for i := 0 to end
        invariant fresh(c) && fresh(c.data) && c.end == i && c.data.Length == data.Length
        invariant c.data[..i] == data[..i]
      {
        c.data[i] := data[i];
        c.end := i + 1;
      }
      c.contents := contents;
    }
  }

  // ---------------------------------------------------------------- what a table holds

  datatype TableState = TableState(ty: Key, entities: seq<EntityId>, cols: map<TypeId, seq<Value>>) {

    /** Every column has one value per row, and the key is the combination of the column types. */
    ghost predicate Full() {
      && UNIT in cols
      && ty == cols.Keys - {UNIT}
      && forall t :: t in cols ==> |cols[t]| == |entities|
    }

    /** The components of one row, the unit column aside. */
    function Row(i: nat): (r: map<TypeId, Value>)
      requires forall t :: t in cols ==> i < |cols[t]|
    {
      map t | t in cols && t != UNIT :: cols[t][i]
    }

    /** All cells of one row, the unit column included. */
    function Cells(i: nat): map<TypeId, Value>
      requires forall t :: t in cols ==> i < |cols[t]|
    {
      map t | t in cols :: cols[t][i]
    }

    function SwapCells(a: nat, b: nat): TableState
      requires forall t :: t in cols ==> a < |cols[t]| && b < |cols[t]|
    {
      TableState(ty, entities, map t | t in cols :: Swapped(cols[t], a, b))
    }

    function Cell(t: TypeId, col: seq<Value>): TableState {
      TableState(ty, entities, cols[t := col])
    }

    function RemoveRow(i: nat): TableState
      requires i < |entities| && forall t :: t in cols ==> i < |cols[t]|
    {
      TableState(ty, SwapRemove(entities, i), map t | t in cols :: SwapRemove(cols[t], i))
    }

    /** Row `i` of `src` arrives as a new row: only the shared columns get a value. */
    function Receive(src: TableState, i: nat): TableState
      requires i < |src.entities| && forall t :: t in src.cols ==> i < |src.cols[t]|
    {
      TableState(ty, entities + [src.entities[i]],
                 map t | t in cols :: if t in src.cols then cols[t] + [src.cols[t][i]] else cols[t])
    }

    /** Row `i` of `src` overwrites the shared columns of row `j`. */
    function Overwrite(j: nat, src: TableState, i: nat): TableState
      requires forall t :: t in cols ==> j < |cols[t]|
      requires forall t :: t in src.cols ==> i < |src.cols[t]|
    {
      TableState(ty, entities,
                 map t | t in cols :: if t in src.cols then cols[t][j := src.cols[t][i]] else cols[t])
    }
  }

  /** The entity that `remove` moves into row `i`, if the row was not the last. */
  function Displaced(entities: seq<EntityId>, i: nat): Option<EntityId>
    requires i < |entities|
  {
    if i + 1 < |entities| then Some(entities[|entities| - 1]) else None
  }

  /** `set_component` on one column; the row is never further than one past the end. */
  function Put(col: seq<Value>, row: nat, v: Value): seq<Value> {
    if row < |col| then col[row := v] else col + [v]
  }

  function Swapped(col: seq<Value>, a: nat, b: nat): seq<Value>
    requires a < |col| && b < |col|
  {
    col[a := col[b]][b := col[a]]
  }

  /** Two rows change places in every column, and nothing else does. */
  lemma SwapCellsMeans(s: TableState, a: nat, b: nat)
    requires forall t :: t in s.cols ==> a < |s.cols[t]| && b < |s.cols[t]|
    ensures var after := s.SwapCells(a, b);
            && after.ty == s.ty && after.entities == s.entities && after.cols.Keys == s.cols.Keys
            && forall t :: t in s.cols ==>
                 && |after.cols[t]| == |s.cols[t]|
                 && after.cols[t][a] == s.cols[t][b] && after.cols[t][b] == s.cols[t][a]
                 && forall k :: 0 <= k < |s.cols[t]| && k != a && k != b ==> after.cols[t][k] == s.cols[t][k]
  {
  }

  /** The void table with a row for one more entity. */
  ghost function VoidGrown(void: TableState, id: EntityId): TableState
    requires UNIT in void.cols
  {
    TableState(void.ty, void.entities + [id], void.cols[UNIT := void.cols[UNIT] + [Value.Unit]])
  }

  ghost function Copied(cols: map<TypeId, seq<Value>>, todo: set<TypeId>): map<TypeId, seq<Value>> {
    map t | t in cols && t !in todo :: cols[t]
  }

  lemma CopiedStep(cols: map<TypeId, seq<Value>>, todo: set<TypeId>, t: TypeId)
    requires t in todo && t in cols
    ensures t !in Copied(cols, todo) && Copied(cols, todo)[t := cols[t]] == Copied(cols, todo - {t})
  {
  }

  lemma CopiedEnds(cols: map<TypeId, seq<Value>>)
    ensures Copied(cols, cols.Keys) == map[] && Copied(cols, {}) == cols
  {
  }

  // ---------------------------------------------------------------- bundles

  /** A tuple of components. */
  type Bundle = seq<(TypeId, Value)>

  ghost function Types(bundle: Bundle): set<TypeId> {
    set k | 0 <= k < |bundle| :: bundle[k].0
  }

  /** The types that a bundle lists an odd number of times: those whose hashes do not cancel. */
  ghost function Odd(bundle: Bundle): (types: set<TypeId>)
    ensures types <= Types(bundle)
  {
    if bundle == [] then {}
    else
      var n := |bundle| - 1;
      TypesStep(bundle, n);
      assert bundle == bundle[..n + 1];
      Xor(Odd(bundle[..n]), {bundle[n].0})
  }

  lemma OddStep(bundle: Bundle, k: nat)
    requires k < |bundle|
    ensures Odd(bundle[..k + 1]) == Xor(Odd(bundle[..k]), {bundle[k].0})
  {
    assert bundle[..k + 1][..k] == bundle[..k];
  }

  lemma NoneOdd()
    ensures Odd([]) == {}
  {
  }

  /** A type that is not among `types` enters or leaves the key each time it is listed. */
  lemma HashStep(types: set<TypeId>, odd: set<TypeId>, t: TypeId)
    ensures t !in types ==> Xor((types + odd) - {UNIT}, HashTy(t)) == (types + Xor(odd, {t})) - {UNIT}
    ensures t in types ==> types + odd == types + Xor(odd, {t})
  {
  }

  /** Each type of the bundle is listed an odd number of times, unless it is among `types`. */
  ghost predicate Combines(bundle: Bundle, types: set<TypeId>) {
    Types(bundle) <= Odd(bundle) + types
  }

  ghost predicate DistinctTypes(bundle: Bundle) {
    forall j, k :: 0 <= j < k < |bundle| ==> bundle[j].0 != bundle[k].0
  }

  /** So does every bundle that lists no type twice. */
  lemma {:induction false} DistinctCombines(bundle: Bundle)
    requires DistinctTypes(bundle)
    ensures Odd(bundle) == Types(bundle)
    decreases |bundle|
  {
    if bundle != [] {
      var n := |bundle| - 1;
      DistinctCombines(bundle[..n]);
      assert bundle == bundle[..n + 1];
      TypesStep(bundle, n);
      OddStep(bundle, n);
      forall t | t in Types(bundle[..n]) ensures t != bundle[n].0 {
        var j :| 0 <= j < n && bundle[..n][j].0 == t;
      }
    }
  }

  ghost function AsMap(bundle: Bundle): (m: map<TypeId, Value>)
    ensures m.Keys == Types(bundle)
  {
    if bundle == [] then map[]
    else
      var n := |bundle| - 1;
      TypesStep(bundle, n);
      assert bundle == bundle[..n + 1];
      AsMap(bundle[..n])[bundle[n].0 := bundle[n].1]
  }

  /** A bundle has the types that it lists, and for a type that is listed more often the last value counts. */
  lemma {:induction false} LastWins(bundle: Bundle, k: nat)
    requires k < |bundle|
    ensures bundle[k].0 in AsMap(bundle)
    ensures (forall j :: k < j < |bundle| ==> bundle[j].0 != bundle[k].0) ==> AsMap(bundle)[bundle[k].0] == bundle[k].1
    decreases |bundle|
  {
    var n := |bundle| - 1;
    if k < n {
      LastWins(bundle[..n], k);
      assert AsMap(bundle) == AsMap(bundle[..n])[bundle[n].0 := bundle[n].1];
    }
  }

  /** It has no other types. */
  lemma ListedOnly(bundle: Bundle, t: TypeId)
    requires t in AsMap(bundle)
    ensures exists k :: 0 <= k < |bundle| && bundle[k].0 == t
  {
  }

  lemma TypesStep(bundle: Bundle, k: nat)
    requires k < |bundle|
    ensures Types(bundle[..k + 1]) == Types(bundle[..k]) + {bundle[k].0}
  {
    var longer, shorter := bundle[..k + 1], bundle[..k];
    forall t | t in Types(shorter) ensures t in Types(longer) {
      var j :| 0 <= j < k && shorter[j].0 == t;
      assert longer[j].0 == t;
    }
    forall t | t in Types(longer) && t != bundle[k].0 ensures t in Types(shorter) {
      var j :| 0 <= j < k + 1 && longer[j].0 == t;
      assert shorter[j].0 == t;
    }
    assert longer[k] == bundle[k];
  }

  lemma AsMapStep(bundle: Bundle, k: nat)
    requires k < |bundle|
    ensures AsMap(bundle[..k + 1]) == AsMap(bundle[..k])[bundle[k].0 := bundle[k].1]
  {
    assert bundle[..k + 1][..k] == bundle[..k];
  }

  /** The state once the components of `m` are written to `row`. */
  ghost function Bundled(s: TableState, m: map<TypeId, Value>, row: nat): TableState {
    TableState(s.ty, s.entities, map t | t in s.cols :: if t in m then Put(s.cols[t], row, m[t]) else s.cols[t])
  }

  lemma BundledStarts(s: TableState, row: nat)
    ensures Bundled(s, map[], row) == s
  {
    assert Bundled(s, map[], row).cols == s.cols;
  }

  lemma BundledStep(s: TableState, m: map<TypeId, Value>, t: TypeId, v: Value, row: nat)
    requires t in s.cols && row <= |s.cols[t]|
    ensures var b := Bundled(s, m, row);
            && row <= |b.cols[t]| && b.Cell(t, Put(b.cols[t], row, v)) == Bundled(s, m[t := v], row)
            && (t !in m ==> b.cols[t] == s.cols[t])
  {
    var b := Bundled(s, m, row);
    assert Put(b.cols[t], row, v) == Put(s.cols[t], row, v);
  }

  // The state while the columns outside `todo` have been handled.

  ghost function Swept(s: TableState, todo: set<TypeId>, i: nat): TableState
    requires forall t :: t in s.cols ==> i < |s.cols[t]|
  {
    TableState(s.ty, s.entities, map t | t in s.cols :: if t in todo then s.cols[t] else SwapRemove(s.cols[t], i))
  }

  ghost function Received(d: TableState, s: TableState, todo: set<TypeId>, i: nat): TableState
    requires forall t :: t in s.cols ==> i < |s.cols[t]|
  {
    TableState(d.ty, d.entities,
               map t | t in d.cols :: if t in s.cols && t !in todo then d.cols[t] + [s.cols[t][i]] else d.cols[t])
  }

  ghost function Overwritten(d: TableState, s: TableState, todo: set<TypeId>, i: nat, j: nat): TableState
    requires forall t :: t in s.cols ==> i < |s.cols[t]|
    requires forall t :: t in d.cols ==> j < |d.cols[t]|
  {
    TableState(d.ty, d.entities,
               map t | t in d.cols :: if t in s.cols && t !in todo then d.cols[t][j := s.cols[t][i]] else d.cols[t])
  }

  lemma SweptStep(s: TableState, todo: set<TypeId>, t: TypeId, i: nat)
    requires (forall u :: u in s.cols ==> i < |s.cols[u]|) && t in todo && todo <= s.cols.Keys
    ensures Swept(s, todo, i).Cell(t, SwapRemove(s.cols[t], i)) == Swept(s, todo - {t}, i)
  {
  }

  lemma ReceivedStep(d: TableState, s: TableState, todo: set<TypeId>, t: TypeId, i: nat)
    requires (forall u :: u in s.cols ==> i < |s.cols[u]|) && t in todo && todo <= s.cols.Keys
    ensures t in d.cols ==>
              Received(d, s, todo, i).Cell(t, d.cols[t] + [s.cols[t][i]]) == Received(d, s, todo - {t}, i)
    ensures t !in d.cols ==> Received(d, s, todo, i) == Received(d, s, todo - {t}, i)
  {
  }

  lemma OverwrittenStep(d: TableState, s: TableState, todo: set<TypeId>, t: TypeId, i: nat, j: nat)
    requires (forall u :: u in s.cols ==> i < |s.cols[u]|) && t in todo && todo <= s.cols.Keys
    requires forall u :: u in d.cols ==> j < |d.cols[u]|
    ensures t in d.cols ==>
              Overwritten(d, s, todo, i, j).Cell(t, d.cols[t][j := s.cols[t][i]]) == Overwritten(d, s, todo - {t}, i, j)
    ensures t !in d.cols ==> Overwritten(d, s, todo, i, j) == Overwritten(d, s, todo - {t}, i, j)
  {
  }

  /** Before the sweep nothing is handled; after it the whole row is. */
  lemma SweepEnds(s: TableState, s1: TableState, i: nat)
    requires s.Full() && i < |s.entities|
    requires s1 == TableState(s.ty, SwapRemove(s.entities, i), s.cols)
    ensures Swept(s1, s.cols.Keys, i) == s1 && Swept(s1, {}, i) == s.RemoveRow(i)
    ensures s.RemoveRow(i).Full()
  {
    assert Swept(s1, s.cols.Keys, i).cols == s1.cols;
    assert Swept(s1, {}, i).cols == s.RemoveRow(i).cols;
  }

  lemma SweepStarts(s: TableState, i: nat)
    requires s.Full() && i < |s.entities|
    ensures Swept(s, s.cols.Keys, i) == s
  {
    assert Swept(s, s.cols.Keys, i).cols == s.cols;
  }

  lemma ReceiveEnds(d: TableState, d1: TableState, s: TableState, s1: TableState, i: nat)
    requires s.Full() && i < |s.entities|
    requires d1 == TableState(d.ty, d.entities + [s.entities[i]], d.cols) && s1.cols == s.cols
    ensures Received(d1, s1, s.cols.Keys, i) == d1 && Received(d1, s1, {}, i) == d.Receive(s, i)
  {
    assert Received(d1, s1, s.cols.Keys, i).cols == d1.cols;
    assert Received(d1, s1, {}, i).cols == d.Receive(s, i).cols;
  }

  lemma OverwriteEnds(d: TableState, s: TableState, s1: TableState, i: nat, j: nat)
    requires s.Full() && i < |s.entities| && d.Full() && j < |d.entities| && s1.cols == s.cols
    ensures Overwritten(d, s1, s.cols.Keys, i, j) == d && Overwritten(d, s1, {}, i, j) == d.Overwrite(j, s, i)
    ensures d.Overwrite(j, s, i).Full()
  {
    assert Overwritten(d, s1, s.cols.Keys, i, j).cols == d.cols;
    assert Overwritten(d, s1, {}, i, j).cols == d.Overwrite(j, s, i).cols;
  }

  /** The cells already handed over. */
  ghost function Given(s: TableState, todo: set<TypeId>, i: nat): map<TypeId, Value>
    requires forall t :: t in s.cols ==> i < |s.cols[t]|
  {
    map t | t in s.cols && t !in todo :: s.cols[t][i]
  }

  /** The columns of `d` have a value in row `j` where `had` says so, and end there elsewhere. */
  ghost predicate Fits(s: TableState, d: TableState, had: set<TypeId>, j: nat) {
    && s.cols.Keys <= d.cols.Keys
    && forall t :: t in s.cols ==> if t in had then j < |d.cols[t]| else j == |d.cols[t]|
  }

  lemma GivenStep(s: TableState, todo: set<TypeId>, t: TypeId, i: nat)
    requires (forall u :: u in s.cols ==> i < |s.cols[u]|) && t in todo && t in s.cols
    ensures t !in Given(s, todo, i) && Given(s, todo, i)[t := s.cols[t][i]] == Given(s, todo - {t}, i)
  {
  }

  lemma GivenEnds(s: TableState, i: nat)
    requires forall u :: u in s.cols ==> i < |s.cols[u]|
    ensures Given(s, s.cols.Keys, i) == map[] && Given(s, {}, i) == s.Cells(i)
  {
  }

  ghost function Swapping(s: TableState, todo: set<TypeId>, a: nat, b: nat): TableState
    requires forall t :: t in s.cols ==> a < |s.cols[t]| && b < |s.cols[t]|
  {
    TableState(s.ty, s.entities, map t | t in s.cols :: if t in todo then s.cols[t] else Swapped(s.cols[t], a, b))
  }

  lemma SwapStep(s: TableState, todo: set<TypeId>, t: TypeId, a: nat, b: nat)
    requires (forall u :: u in s.cols ==> a < |s.cols[u]| && b < |s.cols[u]|) && t in todo && todo <= s.cols.Keys
    ensures Swapping(s, todo, a, b).Cell(t, Swapped(s.cols[t], a, b)) == Swapping(s, todo - {t}, a, b)
  {
  }

  lemma SwapEnds(s: TableState, a: nat, b: nat)
    requires s.Full() && a < |s.entities| && b < |s.entities|
    ensures Swapping(s, s.cols.Keys, a, b) == s && Swapping(s, {}, a, b) == s.SwapCells(a, b)
    ensures s.SwapCells(a, b).Full()
  {
    assert Swapping(s, s.cols.Keys, a, b).cols == s.cols;
    assert Swapping(s, {}, a, b).cols == s.SwapCells(a, b).cols;
  }

  /** The state with one more column, which has no values yet. */
  ghost function Extended(s: TableState, t: TypeId): TableState {
    if t in s.cols then s else TableState(Xor(s.ty, HashTy(t)), s.entities, s.cols[t := []])
  }

  lemma ExtendedIsFull(s: TableState, t: TypeId)
    ensures s.Full() ==> (Extended(s, t).Full() <==> t in s.cols || s.entities == [])
  {
  }

  // ---------------------------------------------------------------- tables

  class EntityTable {
    var ty: Key
    var rows: nat
    var entities: seq<EntityId>
    var components: map<TypeId, Column>
    ghost var state: TableState
    ghost var owner: map<object, TypeId>

    /**
      The columns are valid and this table's own, and `state` says what they hold. `owner` gives
      each column and each buffer to one type, which keeps them apart.
     */
    ghost predicate Valid()
      reads this, owner.Keys
    {
      && rows == |entities|
      && state.ty == ty && state.entities == entities
      && state.cols.Keys == components.Keys
      && forall t :: t in components ==> Owns(t)
    }

    ghost predicate Owns(t: TypeId)
      requires t in components && t in state.cols
      reads this, owner.Keys
    {
      && components[t] in owner && owner[components[t]] == t
      && components[t].data in owner && owner[components[t].data] == t
      && components[t].Valid() && state.cols[t] == components[t].contents
    }

    ghost predicate Apart(other: EntityTable)
      reads this, other
    {
      this != other && this !in other.owner && other !in owner && forall o :: o in owner ==> o !in other.owner
    }

    ghost predicate Complete()
      reads this, owner.Keys
    {
      Valid() && state.Full()
    }

    lemma Columns()
      requires Valid()
      ensures state.cols.Keys == components.Keys
    {
    }

    // -------- one column at a time

    method TakeCell(t: TypeId, i: nat) returns (v: Value)
      requires Valid() && t in components && i < |state.cols[t]|
      modifies this, owner.Keys
      ensures Valid() && owner == old(owner) && components == old(components)
      ensures v == old(state).cols[t][i]
      ensures state == old(state).Cell(t, SwapRemove(old(state).cols[t], i))
    {
      hide Column.Valid;
      assert Owns(t);
      v := components[t].SwapRemove(i);
      state := state.Cell(t, SwapRemove(state.cols[t], i));
      forall u | u in components ensures Owns(u) { assert old(Owns(u)); }
    }

    method MoveCell(dst: EntityTable, t: TypeId, i: nat)
      requires Valid() && dst.Valid() && Apart(dst)
      requires t in components && t in dst.components && i < |state.cols[t]|
      modifies this, owner.Keys, dst, dst.owner.Keys
      ensures Valid() && owner == old(owner) && components == old(components)
      ensures dst.Valid() && (forall o :: o in dst.owner && o !in old(dst.owner) ==> fresh(o))
              && dst.components == old(dst.components)
      ensures state == old(state).Cell(t, SwapRemove(old(state).cols[t], i))
      ensures dst.state == old(dst.state).Cell(t, old(dst.state).cols[t] + [old(state).cols[t][i]])
    {
      hide EntityTable.Valid;
      Columns();
      dst.Columns();
      var v := TakeCell(t, i);
      dst.PushCell(t, v);
    }

    method MoveCellInto(dst: EntityTable, t: TypeId, i: nat, j: nat)
      requires Valid() && dst.Valid() && Apart(dst)
      requires t in components && t in dst.components && i < |state.cols[t]| && j < |dst.state.cols[t]|
      modifies this, owner.Keys, dst, dst.owner.Keys
      ensures Valid() && owner == old(owner) && components == old(components)
      ensures dst.Valid() && dst.owner == old(dst.owner) && dst.components == old(dst.components)
      ensures state == old(state).Cell(t, SwapRemove(old(state).cols[t], i))
      ensures dst.state == old(dst.state).Cell(t, old(dst.state).cols[t][j := old(state).cols[t][i]])
    {
      hide EntityTable.Valid;
      Columns();
      dst.Columns();
      var v := TakeCell(t, i);
      dst.StoreCell(t, j, v);
    }

    method PushCell(t: TypeId, v: Value)
      requires Valid() && t in components
      modifies this, owner.Keys
      ensures Valid() && (forall o :: o in owner && o !in old(owner) ==> fresh(o)) && components == old(components)
      ensures state == old(state).Cell(t, old(state).cols[t] + [v])
    {
      hide Column.Valid;
      assert Owns(t);
      components[t].Push(v);
      owner, state := owner[components[t].data := t], state.Cell(t, state.cols[t] + [v]);
      forall u | u in components ensures Owns(u) {
        assert old(Owns(u));
        assert u != t ==> components[u] != components[t] && components[u].data != old(components[t].data);
      }
    }

    method StoreCell(t: TypeId, j: nat, v: Value)
      requires Valid() && t in components && j < |state.cols[t]|
      modifies this, owner.Keys
      ensures Valid() && owner == old(owner) && components == old(components)
      ensures state == old(state).Cell(t, old(state).cols[t][j := v])
    {
      hide Column.Valid;
      assert Owns(t);
      components[t].Store(j, v);
      state := state.Cell(t, state.cols[t][j := v]);
      forall u | u in components ensures Owns(u) { assert old(Owns(u)); }
    }

    // -------- whole rows

    /** Columns first, then the entity list; the entity that filled the hole is reported. */
    method Remove(row: nat) returns (moved: Option<EntityId>)
      requires Complete() && row < |state.entities|
      modifies this, owner.Keys
      ensures Complete() && owner == old(owner) && components == old(components)
      ensures state == old(state).RemoveRow(row)
      ensures moved == Displaced(old(state).entities, row)
    {
      ghost var s := state;
      SweepEnds(s, TableState(s.ty, SwapRemove(s.entities, row), s.cols), row);
      SweepStarts(s, row);
      var todo := components.Keys;
      while todo != {}
        invariant Valid() && owner == old(owner) && components == old(components)
        invariant todo <= components.Keys
        invariant state == Swept(s, todo, row)
      {
        var t :| t in todo;
        SweptStep(s, todo, t, row);
        var _ := TakeCell(t, row);
        todo := todo - {t};
      }
      moved := RemoveEntity(row);
    }

    method RemoveEntity(row: nat) returns (moved: Option<EntityId>)
      requires Valid() && row < |state.entities|
      modifies this
      ensures Valid() && owner == old(owner) && components == old(components)
      ensures state == TableState(old(state).ty, SwapRemove(old(state).entities, row), old(state).cols)
      ensures moved == Displaced(old(state).entities, row)
    {
      entities := SwapRemove(entities, row);
      rows := rows - 1;
      moved := if row < rows then Some(entities[row]) else None;
      state := TableState(state.ty, entities, state.cols);
    }

    method InsertEntity(id: EntityId) returns (row: nat)
      requires Valid()
      modifies this
      ensures Valid() && owner == old(owner) && components == old(components)
      ensures state == TableState(old(state).ty, old(state).entities + [id], old(state).cols)
      ensures row == |old(state).entities|
    {
      row := rows;
      entities := entities + [id];
      rows := rows + 1;
      state := TableState(state.ty, entities, state.cols);
    }

    /** A row for an entity without components: only the unit column gets a value. */
    method InsertVoid(id: EntityId) returns (row: nat)
      requires Complete()
      modifies this, owner.Keys
      ensures Valid() && (forall o :: o in owner && o !in old(owner) ==> fresh(o)) && components == old(components)
      ensures row == |old(state).entities|
      ensures state == VoidGrown(old(state), id)
    {
      row := InsertEntity(id);
      SetComponent(UNIT, row, Value.Unit);
    }

    /** Puts another entity in charge of a row. */
    method SetEntity(row: nat, id: EntityId)
      requires Valid() && row < |state.entities|
      modifies this
      ensures Valid() && owner == old(owner) && components == old(components)
      ensures state == TableState(old(state).ty, old(state).entities[row := id], old(state).cols)
    {
      entities := entities[row := id];
      state := TableState(state.ty, entities, state.cols);
    }

    /** Moves a row to a new row of `dst`; columns that `dst` lacks are dropped. */
    method MoveEntity(dst: EntityTable, index: nat) returns (res: nat, moved: Option<EntityId>)
      requires Complete() && dst.Complete() && Apart(dst)
      requires index < |state.entities|
      modifies this, owner.Keys, dst, dst.owner.Keys
      ensures Complete() && owner == old(owner) && components == old(components)
      ensures dst.Valid() && (forall o :: o in dst.owner && o !in old(dst.owner) ==> fresh(o))
              && dst.components == old(dst.components)
      ensures state == old(state).RemoveRow(index)
      ensures dst.state == old(dst.state).Receive(old(state), index)
      ensures res == |old(dst.state).entities| && moved == Displaced(old(state).entities, index)
    {
      ghost var s, d := state, dst.state;
      res, moved := MoveId(dst, index);
      SweepEnds(s, state, index);
      ReceiveEnds(d, dst.state, s, state, index);
      MoveColumns(dst, index);
    }

    method MoveId(dst: EntityTable, index: nat) returns (res: nat, moved: Option<EntityId>)
      requires Valid() && dst.Valid() && Apart(dst) && index < |state.entities|
      modifies this, dst
      ensures Valid() && owner == old(owner) && components == old(components)
      ensures dst.Valid() && dst.owner == old(dst.owner) && dst.components == old(dst.components)
      ensures state == TableState(old(state).ty, SwapRemove(old(state).entities, index), old(state).cols)
      ensures dst.state == TableState(old(dst.state).ty, old(dst.state).entities + [old(state).entities[index]],
                                      old(dst.state).cols)
      ensures res == |old(dst.state).entities| && moved == Displaced(old(state).entities, index)
    {
      var entityId := entities[index];
      moved := RemoveEntity(index);
      res := dst.InsertEntity(entityId);
    }

    method MoveColumns(dst: EntityTable, index: nat)
      requires Valid() && dst.Valid() && Apart(dst)
      requires forall t :: t in state.cols ==> index < |state.cols[t]|
      requires Swept(state, state.cols.Keys, index) == state
      requires Received(dst.state, state, state.cols.Keys, index) == dst.state
      modifies this, owner.Keys, dst, dst.owner.Keys
      ensures Valid() && owner == old(owner) && components == old(components)
      ensures dst.Valid() && (forall o :: o in dst.owner && o !in old(dst.owner) ==> fresh(o))
              && dst.components == old(dst.components)
      ensures state == Swept(old(state), {}, index)
      ensures dst.state == Received(old(dst.state), old(state), {}, index)
    {
      ghost var s, d := state, dst.state;
      var todo := components.Keys;
      while todo != {}
        invariant Valid() && owner == old(owner) && components == old(components)
        invariant dst.Valid() && (forall o :: o in dst.owner && o !in old(dst.owner) ==> fresh(o))
                  && dst.components == old(dst.components)
        invariant Apart(dst)
        invariant todo <= components.Keys
        invariant state == Swept(s, todo, index)
        invariant dst.state == Received(d, s, todo, index)
      {
        var t :| t in todo;
        SweptStep(s, todo, t, index);
        ReceivedStep(d, s, todo, t, index);
        MoveOrDrop(dst, t, index);
        todo := todo - {t};
      }
    }

    method MoveOrDrop(dst: EntityTable, t: TypeId, i: nat)
      requires Valid() && dst.Valid() && Apart(dst)
      requires t in components && i < |state.cols[t]|
      modifies this, owner.Keys, dst, dst.owner.Keys
      ensures Valid() && owner == old(owner) && components == old(components)
      ensures dst.Valid() && (forall o :: o in dst.owner && o !in old(dst.owner) ==> fresh(o))
              && dst.components == old(dst.components)
      ensures state == old(state).Cell(t, SwapRemove(old(state).cols[t], i))
      ensures dst.state == if t in old(dst.state).cols
                           then old(dst.state).Cell(t, old(dst.state).cols[t] + [old(state).cols[t][i]])
                           else old(dst.state)
    {
      if t in dst.components {
        MoveCell(dst, t, i);
      } else {
        var _ := TakeCell(t, i);
      }
    }

    /** Moves a row over row `dstIndex` of `dst`, overwriting the shared columns. */
    method MoveEntityInto(srcIndex: nat, dst: EntityTable, dstIndex: nat) returns (moved: Option<EntityId>)
      requires Complete() && dst.Complete() && Apart(dst)
      requires srcIndex < |state.entities| && dstIndex < |dst.state.entities|
      modifies this, owner.Keys, dst, dst.owner.Keys
      ensures Complete() && owner == old(owner) && components == old(components)
      ensures dst.Complete() && dst.owner == old(dst.owner) && dst.components == old(dst.components)
      ensures state == old(state).RemoveRow(srcIndex)
      ensures dst.state == old(dst.state).Overwrite(dstIndex, old(state), srcIndex)
      ensures moved == Displaced(old(state).entities, srcIndex)
    {
      hide Swept, Overwritten, TableState.Overwrite;
      ghost var s := state;
      moved := RemoveEntity(srcIndex);
      SweepEnds(s, state, srcIndex);
      OverwriteEnds(dst.state, s, state, srcIndex, dstIndex);
      MoveColumnsInto(srcIndex, dst, dstIndex);
    }

    method MoveColumnsInto(srcIndex: nat, dst: EntityTable, dstIndex: nat)
      requires Valid() && dst.Valid() && Apart(dst)
      requires forall t :: t in state.cols ==> srcIndex < |state.cols[t]|
      requires forall t :: t in dst.state.cols ==> dstIndex < |dst.state.cols[t]|
      requires Swept(state, state.cols.Keys, srcIndex) == state
      requires Overwritten(dst.state, state, state.cols.Keys, srcIndex, dstIndex) == dst.state
      modifies this, owner.Keys, dst, dst.owner.Keys
      ensures Valid() && owner == old(owner) && components == old(components)
      ensures dst.Valid() && dst.owner == old(dst.owner) && dst.components == old(dst.components)
      ensures state == Swept(old(state), {}, srcIndex)
      ensures dst.state == Overwritten(old(dst.state), old(state), {}, srcIndex, dstIndex)
    {
      ghost var s, d := state, dst.state;
      var todo := components.Keys;
      while todo != {}
        invariant Valid() && owner == old(owner) && components == old(components)
        invariant dst.Valid() && dst.owner == old(dst.owner) && dst.components == old(dst.components)
        invariant todo <= components.Keys
        invariant state == Swept(s, todo, srcIndex)
        invariant dst.state == Overwritten(d, s, todo, srcIndex, dstIndex)
      {
        var t :| t in todo;
        SweptStep(s, todo, t, srcIndex);
        OverwrittenStep(d, s, todo, t, srcIndex, dstIndex);
        OverwriteOrDrop(dst, t, srcIndex, dstIndex);
        todo := todo - {t};
      }
    }

    method OverwriteOrDrop(dst: EntityTable, t: TypeId, i: nat, j: nat)
      requires Valid() && dst.Valid() && Apart(dst)
      requires t in components && i < |state.cols[t]| && (t in dst.components ==> j < |dst.state.cols[t]|)
      modifies this, owner.Keys, dst, dst.owner.Keys
      ensures Valid() && owner == old(owner) && components == old(components)
      ensures dst.Valid() && dst.owner == old(dst.owner) && dst.components == old(dst.components)
      ensures state == old(state).Cell(t, SwapRemove(old(state).cols[t], i))
      ensures dst.state == if t in old(dst.state).cols
                           then old(dst.state).Cell(t, old(dst.state).cols[t][j := old(state).cols[t][i]])
                           else old(dst.state)
    {
      if t in dst.components {
        MoveCellInto(dst, t, i, j);
      } else {
        var _ := TakeCell(t, i);
      }
    }

    /**
      The column loop of a merge into a third table: where the other parent already supplied a
      value (`had`) it is overwritten, elsewhere the value is appended. Then the row goes.
     */
    method DrainInto(dst: EntityTable, had: set<TypeId>, index: nat, dstIndex: nat) returns (moved: Option<EntityId>)
      requires Complete() && dst.Valid() && Apart(dst) && index < |state.entities|
      requires Fits(state, dst.state, had, dstIndex)
      modifies this, owner.Keys, dst, dst.owner.Keys
      ensures Complete() && owner == old(owner) && components == old(components)
      ensures dst.Valid() && (forall o :: o in dst.owner && o !in old(dst.owner) ==> fresh(o))
              && dst.components == old(dst.components)
      ensures state == old(state).RemoveRow(index)
      ensures dst.state == Bundled(old(dst.state), old(state).Cells(index), dstIndex)
      ensures moved == Displaced(old(state).entities, index)
    {
      ghost var s := state;
      SweepStarts(s, index);
      GivenEnds(s, index);
      BundledStarts(dst.state, dstIndex);
      SweepEnds(s, TableState(s.ty, SwapRemove(s.entities, index), s.cols), index);
      DrainColumns(dst, had, index, dstIndex);
      moved := RemoveEntityBeside(dst, index);
    }

    method RemoveEntityBeside(ghost dst: EntityTable, row: nat) returns (moved: Option<EntityId>)
      requires Valid() && dst.Valid() && Apart(dst) && row < |state.entities|
      modifies this
      ensures Valid() && owner == old(owner) && components == old(components)
      ensures dst.Valid() && Apart(dst)
      ensures state == TableState(old(state).ty, SwapRemove(old(state).entities, row), old(state).cols)
      ensures moved == Displaced(old(state).entities, row)
    {
      moved := RemoveEntity(row);
    }

    method DrainColumns(dst: EntityTable, had: set<TypeId>, index: nat, dstIndex: nat)
      requires Complete() && dst.Valid() && Apart(dst) && index < |state.entities|
      requires Fits(state, dst.state, had, dstIndex)
      requires Swept(state, state.cols.Keys, index) == state
      requires Given(state, state.cols.Keys, index) == map[] && Bundled(dst.state, map[], dstIndex) == dst.state
      modifies this, owner.Keys, dst, dst.owner.Keys
      ensures Valid() && owner == old(owner) && components == old(components)
      ensures dst.Valid() && (forall o :: o in dst.owner && o !in old(dst.owner) ==> fresh(o))
              && dst.components == old(dst.components)
      ensures Apart(dst)
      ensures state == Swept(old(state), {}, index)
      ensures dst.state == Bundled(old(dst.state), Given(old(state), {}, index), dstIndex)
    {
      ghost var s, d := state, dst.state;
      var todo := components.Keys;
      while todo != {}
        invariant Valid() && owner == old(owner) && components == old(components)
        invariant dst.Valid() && (forall o :: o in dst.owner && o !in old(dst.owner) ==> fresh(o))
                  && dst.components == old(dst.components)
        invariant Apart(dst)
        invariant todo <= components.Keys
        invariant state == Swept(s, todo, index)
        invariant dst.state == Bundled(d, Given(s, todo, index), dstIndex)
      {
        var t :| t in todo;
        SweptStep(s, todo, t, index);
        GivenStep(s, todo, t, index);
        BundledStep(d, Given(s, todo, index), t, s.cols[t][index], dstIndex);
        DrainCell(dst, t in had, t, index, dstIndex);
        todo := todo - {t};
      }
    }

    method DrainCell(dst: EntityTable, had: bool, t: TypeId, i: nat, j: nat)
      requires Valid() && dst.Valid() && Apart(dst)
      requires t in components && t in dst.components && i < |state.cols[t]|
      requires if had then j < |dst.state.cols[t]| else j == |dst.state.cols[t]|
      modifies this, owner.Keys, dst, dst.owner.Keys
      ensures Valid() && owner == old(owner) && components == old(components)
      ensures dst.Valid() && (forall o :: o in dst.owner && o !in old(dst.owner) ==> fresh(o))
              && dst.components == old(dst.components)
      ensures Apart(dst)
      ensures state == old(state).Cell(t, SwapRemove(old(state).cols[t], i))
      ensures dst.state == old(dst.state).Cell(t, Put(old(dst.state).cols[t], j, old(state).cols[t][i]))
    {
      if had {
        MoveCellInto(dst, t, i, j);
      } else {
        MoveCell(dst, t, i);
      }
    }

    /** Appends when the row is one past the end of the column, overwrites otherwise. */
    method SetComponent(t: TypeId, row: nat, v: Value)
      requires Valid() && t in components && row <= |state.cols[t]|
      modifies this, owner.Keys
      ensures Valid() && (forall o :: o in owner && o !in old(owner) ==> fresh(o)) && components == old(components)
      ensures state == old(state).Cell(t, Put(old(state).cols[t], row, v))
    {
      if row == components[t].end {
        PushCell(t, v);
      } else {
        StoreCell(t, row, v);
      }
    }

    // -------- bundles (src/bundle.rs)

    predicate CanInsert(bundle: Bundle)
      reads this
    {
      forall k :: 0 <= k < |bundle| ==> bundle[k].0 in components
    }

    /**
      The key of the table that has this table's columns and those of the bundle, of which the ones
      that are listed an even number of times cancel.
     */
    method ComputeHash(bundle: Bundle) returns (key: Key)
      requires Complete()
      ensures key == (components.Keys + Odd(bundle)) - {UNIT}
    {
      hide Odd, Xor, HashTy;
      key := ty;
      assert key == (components.Keys + Odd(bundle[..0])) - {UNIT} by { NoneOdd(); }
      for k := 0 to |bundle|
        invariant key == (components.Keys + Odd(bundle[..k])) - {UNIT}
      {
        var t := bundle[k].0;
        OddStep(bundle, k);
        HashStep(components.Keys, Odd(bundle[..k]), t);
        if t !in components {
          key := Xor(key, HashTy(t));
        }
      }
      assert bundle[..|bundle|] == bundle;
    }

    /** Writes the bundle into one row, appending where the column is still one short. */
    method InsertBundle(bundle: Bundle, row: nat)
      requires Valid() && CanInsert(bundle)
      requires forall k :: 0 <= k < |bundle| ==> row <= |state.cols[bundle[k].0]|
      modifies this, owner.Keys
      ensures Valid() && (forall o :: o in owner && o !in old(owner) ==> fresh(o)) && components == old(components)
      ensures state == Bundled(old(state), AsMap(bundle), row)
    {
      ghost var s := state;
      BundledStarts(s, row);
      for k := 0 to |bundle|
        invariant Valid() && (forall o :: o in owner && o !in old(owner) ==> fresh(o)) && components == old(components)
        invariant state == Bundled(s, AsMap(bundle[..k]), row)
      {
        AsMapStep(bundle, k);
        BundledStep(s, AsMap(bundle[..k]), bundle[k].0, bundle[k].1, row);
        SetComponent(bundle[k].0, row, bundle[k].1);
      }
      assert bundle[..|bundle|] == bundle;
    }

    // -------- new tables

    constructor (key: Key)
      ensures Valid() && owner == map[] && components == map[]
      ensures state == TableState(key, [], map[])
    {
      ty, rows, entities, components := key, 0, [], map[];
      state := TableState(key, [], map[]);
      owner := map[];
    }

    method AdoptColumn(key: Key, t: TypeId, c: Column)
      requires Valid() && t !in components && c.Valid() && c !in owner && c.data !in owner
      modifies this
      ensures Valid() && components == old(components)[t := c]
      ensures owner == old(owner)[c := t][c.data := t]
      ensures state == TableState(key, old(state).entities, old(state).cols[t := c.contents])
    {
      components, ty := components[t := c], key;
      owner, state := owner[c := t][c.data := t], TableState(key, state.entities, state.cols[t := c.contents]);
      forall u | u in components ensures Owns(u) { assert u != t ==> old(Owns(u)); }
    }

    method AddColumn(key: Key, t: TypeId, capacity: nat)
      requires Valid() && t !in components
      modifies this
      ensures Valid() && (forall o :: o in owner && o !in old(owner) ==> fresh(o))
      ensures components.Keys == old(components).Keys + {t}
      ensures state == TableState(key, old(state).entities, old(state).cols[t := []])
    {
      var c := new Column(capacity);
      AdoptColumn(key, t, c);
    }

    /** The table of entities without components. */
    static method Empty() returns (r: EntityTable)
      ensures fresh(r) && (forall o :: o in r.owner ==> fresh(o)) && r.Complete()
      ensures r.components.Keys == {UNIT} && r.state.entities == []
    {
      r := new EntityTable(HashTy(UNIT));
      r.AddColumn(HashTy(UNIT), UNIT, 0);
    }

    method CloneEmpty() returns (r: EntityTable)
      requires Complete()
      ensures fresh(r) && (forall o :: o in r.owner ==> fresh(o)) && r.Complete()
      ensures r.components.Keys == components.Keys && r.state.entities == []
    {
      r := new EntityTable(ty);
      r.AddEmptyColumns(components.Keys);
    }

    method AddEmptyColumns(types: set<TypeId>)
      requires Valid() && components == map[] && state.entities == []
      modifies this
      ensures Valid() && (forall o :: o in owner && o !in old(owner) ==> fresh(o))
      ensures components.Keys == types && state.ty == old(state).ty && state.entities == []
      ensures forall t :: t in state.cols ==> state.cols[t] == []
    {
      var todo := types;
      while todo != {}
        invariant Valid() && (forall o :: o in owner && o !in old(owner) ==> fresh(o))
        invariant todo <= types && components.Keys == types - todo
        invariant state.ty == old(state).ty && state.entities == []
        invariant forall t :: t in state.cols ==> state.cols[t] == []
      {
        var t :| t in todo;
        AddColumn(ty, t, 1);
        todo := todo - {t};
      }
    }

    /**
      A column without values, unless there is one for `t`. The table stays complete exactly when
      nothing is added or it has no rows.
     */
    method ExtendWithColumn(t: TypeId)
      requires Valid()
      modifies this
      ensures Valid() && (forall o :: o in owner && o !in old(owner) ==> fresh(o))
      ensures components.Keys == old(components).Keys + {t} && state.entities == old(state.entities)
      ensures state == Extended(old(state), t)
      ensures old(Complete()) ==> (Complete() <==> t in old(components) || state.entities == [])
    {
      if t !in components {
        AddColumn(Xor(ty, HashTy(t)), t, 2);
      }
      ExtendedIsFull(old(state), t);
    }

    /** Takes a column off, with its values. The table stays complete unless it is the unit column. */
    method ReduceWithColumn(t: TypeId)
      requires Valid()
      modifies this
      ensures Valid() && owner == old(owner)
      ensures components.Keys == old(components).Keys - {t}
      ensures state == if t in old(components)
                       then TableState(Xor(old(ty), HashTy(t)), old(state.entities), old(state.cols) - {t})
                       else old(state)
      ensures old(Complete()) ==> (Complete() <==> t != UNIT)
    {
      if t in components {
        components, ty := components - {t}, Xor(ty, HashTy(t));
        state := TableState(ty, state.entities, state.cols - {t});
        forall u | u in components ensures Owns(u) { assert old(Owns(u)); }
      }
    }

    /** An empty table with this table's columns but one: `clone_empty().reduce_with_column()`. */
    method Reduce(t: TypeId) returns (r: EntityTable)
      requires Complete() && t in components && t != UNIT
      ensures fresh(r) && (forall o :: o in r.owner ==> fresh(o)) && r.Complete()
      ensures r.components.Keys == components.Keys - {t} && r.state.entities == []
      ensures r.ty == r.components.Keys - {UNIT} && r.state.cols.Keys == r.components.Keys
      ensures r.ty == Xor(ty, HashTy(t))
    {
      r := CloneEmpty();
      r.ReduceWithColumn(t);
    }

    /** An empty table with this table's columns and the bundle's. */
    method Extend(bundle: Bundle) returns (r: EntityTable)
      requires Complete()
      ensures fresh(r) && (forall o :: o in r.owner ==> fresh(o)) && r.Complete()
      ensures r.components.Keys == components.Keys + Types(bundle) && r.state.entities == []
      ensures r.ty == r.components.Keys - {UNIT} && r.state.cols.Keys == r.components.Keys
    {
      r := CloneEmpty();
      ghost var owned := r.owner;
      r.ExtendWithBundle(bundle);
      forall o | o in r.owner ensures fresh(o) { if o in owned {} }
    }

    method ExtendWithBundle(bundle: Bundle)
      requires Complete() && state.entities == []
      modifies this
      ensures Complete() && (forall o :: o in owner && o !in old(owner) ==> fresh(o))
      ensures components.Keys == old(components).Keys + Types(bundle) && state.entities == []
    {
      ghost var had := components.Keys;
      for k := 0 to |bundle|
        invariant Complete() && (forall o :: o in owner && o !in old(owner) ==> fresh(o))
        invariant components.Keys == had + Types(bundle[..k]) && state.entities == []
      {
        TypesStep(bundle, k);
        UnionAssociates(had, Types(bundle[..k]), {bundle[k].0});
        ExtendWithColumn(bundle[k].0);
      }
      assert bundle[..|bundle|] == bundle;
    }

    /** An empty table with the columns of both. */
    method Merged(rhs: EntityTable) returns (r: EntityTable)
      requires Complete()
      ensures fresh(r) && (forall o :: o in r.owner ==> fresh(o)) && r.Complete()
      ensures r.components.Keys == components.Keys + rhs.components.Keys && r.state.entities == []
      ensures r.ty == r.components.Keys - {UNIT} && r.state.cols.Keys == r.components.Keys
    {
      r := CloneEmpty();
      ghost var owned := r.owner;
      r.ExtendWithColumns(rhs.components.Keys);
      forall o | o in r.owner ensures fresh(o) { if o in owned {} }
    }

    method ExtendWithColumns(types: set<TypeId>)
      requires Complete() && state.entities == []
      modifies this
      ensures Complete() && (forall o :: o in owner && o !in old(owner) ==> fresh(o))
      ensures components.Keys == old(components).Keys + types && state.entities == []
    {
      ghost var had := components.Keys;
      UnionEnds(had, types);
      var todo := types;
      while todo != {}
        invariant Complete() && (forall o :: o in owner && o !in old(owner) ==> fresh(o))
        invariant todo <= types && components.Keys == had + (types - todo)
        invariant state.entities == []
      {
        var t :| t in todo;
        UnionStep(had, types, todo, t);
        ExtendWithColumn(t);
        todo := todo - {t};
      }
    }

    /** A copy with columns of its own. */
    method Clone() returns (r: EntityTable)
      requires Valid()
      ensures fresh(r) && (forall o :: o in r.owner ==> fresh(o)) && r.Valid() && r.state == state
    {
      r := new EntityTable(ty);
      r.rows, r.entities := rows, entities;
      r.state := TableState(ty, entities, map[]);
      r.AdoptClones(this);
    }

    method AdoptClones(src: EntityTable)
      requires Valid() && src.Valid() && this != src && this !in src.owner && components == map[]
      modifies this
      ensures Valid() && (forall o :: o in owner && o !in old(owner) ==> fresh(o))
      ensures state == TableState(old(state).ty, old(state).entities, src.state.cols)
    {
      ghost var cols := src.state.cols;
      CopiedEnds(cols);
      var todo := src.components.Keys;
      while todo != {}
        invariant Valid() && (forall o :: o in owner && o !in old(owner) ==> fresh(o))
        invariant todo <= cols.Keys
        invariant state.ty == old(state).ty && state.entities == old(state).entities
        invariant state.cols == Copied(cols, todo)
      {
        var t :| t in todo;
        CopiedStep(cols, todo, t);
        AdoptClone(src, t);
        todo := todo - {t};
      }
    }

    method AdoptClone(src: EntityTable, t: TypeId)
      requires Valid() && src.Valid() && t in src.components && t !in components
      modifies this
      ensures Valid() && (forall o :: o in owner && o !in old(owner) ==> fresh(o))
      ensures components.Keys == old(components).Keys + {t}
      ensures state == TableState(old(state).ty, old(state).entities, old(state).cols[t := src.state.cols[t]])
    {
      var c := src.components[t].Clone();
      AdoptColumn(ty, t, c);
    }

    method SwapComponents(a: nat, b: nat)
      requires Complete() && a < |state.entities| && b < |state.entities|
      modifies this, owner.Keys
      ensures Complete() && owner == old(owner) && components == old(components)
      ensures state == old(state).SwapCells(a, b)
    {
      ghost var s := state;
      SwapEnds(s, a, b);
      var todo := components.Keys;
      while todo != {}
        invariant Valid() && owner == old(owner) && components == old(components)
        invariant todo <= components.Keys
        invariant state == Swapping(s, todo, a, b)
      {
        var t :| t in todo;
        SwapStep(s, todo, t, a, b);
        SwapCell(t, a, b);
        todo := todo - {t};
      }
    }

    method SwapCell(t: TypeId, a: nat, b: nat)
      requires Valid() && t in components && a < |state.cols[t]| && b < |state.cols[t]|
      modifies this, owner.Keys
      ensures Valid() && owner == old(owner) && components == old(components)
      ensures state == old(state).Cell(t, Swapped(old(state).cols[t], a, b))
    {
      hide Column.Valid;
      assert Owns(t);
      components[t].SwapRows(a, b);
      state := state.Cell(t, Swapped(state.cols[t], a, b));
      forall u | u in components ensures Owns(u) { assert old(Owns(u)); }
    }
  }
}
