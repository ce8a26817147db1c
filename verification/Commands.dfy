/**
  Deferred entity commands (src/commands.rs) on a world: the life of an id from free through
  reserved to live, each command by itself, and a whole buffer of commands followed by the sweep
  (src/lib.rs, `apply_commands`).
 */
module Commands {
  import opened Wrappers
  import opened TypeIds
  import opened EntityIds
  import opened EntityIndexes
  import opened Tables
  import opened Stores
  import opened Merges
  import opened Filings
  import opened Layouts
  import opened Worlds
  import opened Effects

  /** A world as `Effects` sees it. */
  ghost function OutsideOf(world: World): Outside
    requires world.Valid()
    reads world, world.entityIds, world.entityIds.entries, world.region.Keys
  {
    FromOutside(world.Content(), world.archetypes, world.staging)
  }

  lemma OutsideParts(world: World)
    requires world.Valid()
    ensures var (w, slots) := (OutsideOf(world), world.entityIds.state);
            && w.view == world.View() && w.ids.free == slots.free && |w.ids.slots| == |slots.slots|
            && forall i :: 0 <= i < |slots.slots| ==>
                 && w.ids.slots[i].generation == slots.slots[i].generation
                 && w.ids.slots[i].use.Free? == slots.slots[i].use.Free?
                 && w.ids.slots[i].use.Reserved? == slots.slots[i].use.Reserved?
  {
    hide Families.Family, Filed, Coherent, Store.Agree, Store.View;
  }

  lemma OutsideValid(world: World)
    requires world.Valid()
    ensures OutsideOf(world).Valid()
  {
    hide Families.Family, Filed, Coherent, Store.View, Slots.WellFormed, Forget, Store.EntriesNameRows;
    hide Store.RowsNameEntries;
    ForgetUses(world.entityIds.state);
    SeatsHere(world);
    forall id ensures id in world.View() <==> world.entityIds.state.IsLive(id) {
      ViewKeys(world.Content(), id);
    }
  }

  lemma SeatsHere(world: World)
    requires world.Valid()
    ensures world.Seating().Seats(world.View())
  {
    hide Families.Family, Filed, Coherent, Store.Agree, Store.View;
    SeatsAll(world.Content(), world.archetypes, world.staging);
  }

  /** Whether two entities have one type shows in their components. */
  lemma SwapsIsSameType(world: World, lhs: EntityId, rhs: EntityId)
    requires world.Valid() && lhs in world.View() && rhs in world.View()
    ensures world.SameType(lhs, rhs) <==> world.View()[lhs].Keys == world.View()[rhs].Keys
  {
    hide Families.Family, Filed, Coherent, Store.EntriesNameRows, Store.RowsNameEntries;
    ViewKeys(world.Content(), lhs);
    ViewKeys(world.Content(), rhs);
    TypeIsKeys(world.Content(), lhs);
    TypeIsKeys(world.Content(), rhs);
  }

  /** A command that only adds: it cannot put a new archetype in front of a staged one. */
  predicate Gentle(c: Command) {
    !c.action.Merge? && OnlyPuts(c.payload)
  }

  predicate OnlyPuts(payload: seq<Part>) {
    forall k :: 0 <= k < |payload| ==> payload[k].Put?
  }

  lemma SetTwice<K, V>(m: map<K, V>, k: K, v: V, w: V)
    ensures m[k := v][k := w] == m[k := w]
  {
  }

  lemma SetSame<K, V>(m: map<K, V>, k: K)
    requires k in m
    ensures m[k := m[k]] == m
  {
  }

  class EntityCommands {
    var action: Action
    const payload: seq<Part>

    constructor (action: Action, payload: seq<Part>)
      ensures this.action == action && this.payload == payload
    {
      this.action, this.payload := action, payload;
    }

    /**
      The id of the entity this command is about. Asking an insertion for it allocates it: from
      then on the id is reserved, stands for nothing yet, and the command only initialises it.
     */
    method Id(world: World) returns (r: Result<EntityId, HandleTableError>)
      requires world.Valid() && this !in world.Repr()
      modifies this, world.entityIds, world.entityIds.entries
      ensures world.Valid() && world.View() == old(world.View()) && world.Repr() == old(world.Repr())
      ensures match old(action)
              case Insert =>
                (match r
                 case Ok(id) => action == Init(id) && world.entityIds.state.IsReserved(id) && id !in world.View()
                                && old(world.entityIds.state).free != []
                                && Allocates(old(world.entityIds.state), id, world.entityIds.state)
                 case Err(e) => e == OutOfCapacity && action == Insert && old(world.entityIds.state).free == [])
              case Merge(_, dst) => r == Ok(dst) && action == old(action)
              case _ => r == Ok(old(action).id) && action == old(action)
    {
      hide Families.Family, Filings.Filed, Coherent, Store.Agree, Store.View, Slots.WellFormed, EntityTable.Valid;
      hide Allocates;
      match action
      case Insert =>
        r := AllocateFor(world);
        if r.Ok? {
          action := Init(r.value);
        }
      case Merge(_, dst) => r := Ok(dst);
      case _ => r := Ok(action.id);
    }

    static method AllocateFor(world: World) returns (r: Result<EntityId, HandleTableError>)
      requires world.Valid()
      modifies world.entityIds, world.entityIds.entries
      ensures world.Valid() && world.View() == old(world.View()) && world.Repr() == old(world.Repr())
      ensures r.Ok? <==> old(world.entityIds.state).free != []
      ensures match r
              case Ok(id) => world.entityIds.state.IsReserved(id) && id !in world.View()
                             && Allocates(old(world.entityIds.state), id, world.entityIds.state)
              case Err(e) => e == OutOfCapacity
    {
      hide Families.Family, Filings.Filed, Coherent, Store.Agree, Store.View, Slots.WellFormed, Slots.Allocate;
      hide Slots.NextId, Allocates;
      ghost var content := world.Content();
      AllocatedHere(content);
      r := world.entityIds.Allocate();
    }

    ghost function Value(): Command
      reads this
    {
      Command(action, payload)
    }

    /** `apply`: a command of a buffer, at its turn. For a merge within one type see `SwapMerge`. */
    method Apply(world: World) returns (r: Result<(), WorldError>)
      requires world.Valid() && Sound(payload)
      requires FindsReserved(OutsideOf(world), action) && HasRoom(OutsideOf(world), action)
      requires Swaps(OutsideOf(world), action) ==> RowsInRange(world.Content(), action.src, action.dst)
      modifies world.Repr()
      ensures world.Structure() && (forall o :: o in world.Repr() && o !in old(world.Repr()) ==> fresh(o))
      ensures old(Swaps(OutsideOf(world), action)) ==>
                r.Ok? && world.Content() == SwapMerge(old(world.Content()), old(action).src, old(action).dst)
      ensures !old(Swaps(OutsideOf(world), action)) ==>
                world.Valid() && Does(old(OutsideOf(world)), old(Value()), r, OutsideOf(world))
      ensures !old(Swaps(OutsideOf(world), action)) ==>
                var m, ids := old(world.View()), old(world.entityIds.state);
                var now, slots := world.View(), world.entityIds.state;
                && (r.Err? ==> now == m && OutsideOf(world) == old(OutsideOf(world)))
                && match old(action)
                   case Fetch(id) =>
                     if id in m then r.Ok? && now == m[id := Dressed(m[id], payload)] else r == Err(EntityNotFound)
                   case Init(id) => r.Ok? && id !in m && now == m[id := Dressed(map[], payload)] && slots.free != []
                   case InsertId(id) =>
                     if id.index >= |ids.slots| || ids.slots[id.index].use.Free? then
                       r.Ok? && id !in m && now == m[id := Dressed(map[], payload)]
                     else if ids.slots[id.index].generation != id.generation then r == Err(InsertInvalidId(id))
                     else if ids.slots[id.index].use.Reserved? then r == Err(EntityNotFound)
                     else r.Ok? && id in m && now == m[id := Dressed(m[id], payload)]
                   case Insert => r.Ok? && exists id :: id !in m && now == m[id := Dressed(map[], payload)]
                   case Delete(id) =>
                     && r.Ok? && now == m - {id}
                     && (id in m ==>
                           && id.index < |ids.slots| == |slots.slots| && slots.free == [id.index] + ids.free
                           && slots.slots[id.index] == Slot((id.generation + 1) % 256, Use.Free))
                   case Merge(src, dst) =>
                     if src == dst then r.Ok? && now == m
                     else if src in m && dst in m then
                       && r.Ok? && now == (m - {src})[dst := m[dst] + m[src]]
                       && src.index < |ids.slots| == |slots.slots| && slots.free == [src.index] + ids.free
                       && slots.slots[src.index] == Slot((src.generation + 1) % 256, Use.Free)
                     else r == Err(EntityNotFound)
      ensures world.staging == old(world.staging)
      ensures old(world.Calm() && Gentle(Value())) ==> world.Calm()
    {
      hide World.Repr;
      hide Families.Family, Filings.Filed, Coherent, Store.Agree, Store.View, Slots.WellFormed, EntityTable.Valid;
      hide Filings.Calm, Forget, Outside.Valid, OutsideOf, Dressed, Applied, Gentle, SwapMerge, FindsReserved, HasRoom;
      hide World.Structure, World.Valid;
      ghost var before, value := OutsideOf(world), Value();
      OutsideParts(world);
      r := Dispatch(world);
      if !Swaps(before, value.action) {
        OutsideParts(world);
        AppliedMeans(before, value, r, OutsideOf(world));
      }
    }

    /** Each command by its own method. */
    method Dispatch(world: World) returns (r: Result<(), WorldError>)
      requires world.Valid() && Sound(payload)
      requires FindsReserved(OutsideOf(world), action) && HasRoom(OutsideOf(world), action)
      requires Swaps(OutsideOf(world), action) ==> RowsInRange(world.Content(), action.src, action.dst)
      modifies world.Repr()
      ensures world.Structure() && (forall o :: o in world.Repr() && o !in old(world.Repr()) ==> fresh(o))
      ensures old(Swaps(OutsideOf(world), action)) ==>
                r.Ok? && world.Content() == SwapMerge(old(world.Content()), old(action).src, old(action).dst)
      ensures !old(Swaps(OutsideOf(world), action)) ==>
                world.Valid() && Does(old(OutsideOf(world)), old(Value()), r, OutsideOf(world))
      ensures world.staging == old(world.staging)
      ensures old(world.Calm() && Gentle(Value())) ==> world.Calm()
    {
      hide Families.Family, Filings.Filed, Coherent, Store.Agree, Store.View, Slots.WellFormed, EntityTable.Valid;
      hide Filings.Calm, Forget, Outside.Valid, OutsideOf, Dressed, Applied;
      OutsideValid(world);
      if !Swaps(OutsideOf(world), action) { DoesEach(OutsideOf(world), Value()); }
      match action
      case Fetch(id) => r := Dress(world, id);
      case Init(id) => r := ApplyInit(world, id);
      case InsertId(id) => r := ApplyInsertId(world, id);
      case Insert => r := ApplyInsert(world);
      case Delete(id) => r := ApplyDelete(world, id);
      case Merge(src, dst) => r := ApplyMerge(world, src, dst);
    }

    method ApplyInit(world: World, id: EntityId) returns (r: Result<(), WorldError>)
      requires world.Valid() && Sound(payload) && FindsReserved(OutsideOf(world), Init(id))
               && HasRoom(OutsideOf(world), Init(id))
      modifies world.Repr()
      ensures world.Valid() && (forall o :: o in world.Repr() && o !in old(world.Repr()) ==> fresh(o))
      ensures old(OutsideOf(world)).ids.IsReserved(id)
      ensures AppliedInit(old(OutsideOf(world)), id, payload) == Outcome(r, OutsideOf(world))
      ensures world.staging == old(world.staging)
      ensures old(world.Calm()) && OnlyPuts(payload) ==> world.Calm()
    {
      hide Families.Family, Filings.Filed, Coherent, Store.Agree, Store.View, Slots.WellFormed, EntityTable.Valid;
      hide Filings.Calm, Forget, Dressed, Reserving, Slots.Place;
      ghost var before := world.View();
      ForgetUses(world.entityIds.state);
      ForgetCount(world);
      world.InitId(id);
      SetTwice(before, id, map[], Dressed(map[], payload));
      ForgetReserving(world.entityIds.state, 1);
      world.ReserveEntities(1);
      r := Dress(world, id);
    }

    method ApplyInsert(world: World) returns (r: Result<(), WorldError>)
      requires world.Valid() && Sound(payload) && HasRoom(OutsideOf(world), Insert)
      modifies world.Repr()
      ensures world.Valid() && (forall o :: o in world.Repr() && o !in old(world.Repr()) ==> fresh(o))
      ensures Does(old(OutsideOf(world)), Command(Insert, payload), r, OutsideOf(world))
      ensures world.staging == old(world.staging)
      ensures old(world.Calm()) && OnlyPuts(payload) ==> world.Calm()
    {
      hide Families.Family, Filings.Filed, Coherent, Store.Agree, Store.View, Slots.WellFormed, EntityTable.Valid;
      hide Filings.Calm, Forget, Dressed, Refilled, Slots.Place, Inserts, Outside.Valid, Slots.CanAllocate, Applied;
      ghost var before := world.View();
      OutsideValid(world);
      DoesEach(OutsideOf(world), Command(Insert, payload));
      ForgetUses(world.entityIds.state);
      var id := world.InsertEntity();
      ForgetInserts(old(world.entityIds.state), id, world.entityIds.state);
      SetTwice(before, id, map[], Dressed(map[], payload));
      r := Dress(world, id);
    }

    method ApplyInsertId(world: World, id: EntityId) returns (r: Result<(), WorldError>)
      requires world.Valid() && Sound(payload) && HasRoom(OutsideOf(world), InsertId(id))
      modifies world.Repr()
      ensures world.Valid() && (forall o :: o in world.Repr() && o !in old(world.Repr()) ==> fresh(o))
      ensures old(OutsideOf(world)).Valid()
              && AppliedInsertId(old(OutsideOf(world)), id, payload) == Outcome(r, OutsideOf(world))
      ensures world.staging == old(world.staging)
      ensures old(world.Calm()) && OnlyPuts(payload) ==> world.Calm()
    {
      hide Families.Family, Filings.Filed, Coherent, Store.Agree, Store.View, Slots.WellFormed, EntityTable.Valid;
      hide Filings.Calm, Forget, Dressed, Spanning, Seized, Slots.Place, InsertsClaimed, Outside.Valid;
      ghost var before := world.View();
      OutsideValid(world);
      ForgetUses(world.entityIds.state);
      IndexWellFormed(world);
      var inserted := world.InsertId(id);
      if inserted.Err? && inserted.error.Taken? {
        return Err(InsertInvalidId(id));
      }
      if inserted.Ok? { ForgetInsertsClaimed(old(world.entityIds.state), id, world.entityIds.state); }
      SetTwice(before, id, map[], Dressed(map[], payload));
      r := Dress(world, id);
    }

    static method ApplyDelete(world: World, id: EntityId) returns (r: Result<(), WorldError>)
      requires world.Valid()
      modifies world.Repr()
      ensures world.Valid() && (forall o :: o in world.Repr() && o !in old(world.Repr()) ==> fresh(o))
      ensures old(OutsideOf(world)).Valid() && AppliedDelete(old(OutsideOf(world)), id) == Outcome(r, OutsideOf(world))
      ensures world.staging == old(world.staging)
      ensures old(world.Calm()) ==> world.Calm()
    {
      hide Families.Family, Filings.Filed, Coherent, Store.Agree, Store.View, Slots.WellFormed, EntityTable.Valid;
      hide Filings.Calm, Forget, Slots.Release, Outside.Valid, SameAllocator;
      OutsideValid(world);
      if id !in world.View() { AbsentStays(world.View(), id); }
      ViewKeys(world.Content(), id);
      ghost var before := world.entityIds.state;
      var deleted := world.DeleteEntity(id);
      if deleted.Ok? {
        ForgetRelease(before, id);
        ForgetSame(before.Release(id), world.entityIds.state);
      }
      r := Ok(());
    }

    static method ApplyMerge(world: World, src: EntityId, dst: EntityId) returns (r: Result<(), WorldError>)
      requires world.Valid()
      requires Swaps(OutsideOf(world), Merge(src, dst)) ==> RowsInRange(world.Content(), src, dst)
      modifies world.Repr()
      ensures world.Structure() && (forall o :: o in world.Repr() && o !in old(world.Repr()) ==> fresh(o))
      ensures old(Swaps(OutsideOf(world), Merge(src, dst))) ==>
                r.Ok? && world.Content() == SwapMerge(old(world.Content()), src, dst)
      ensures !old(Swaps(OutsideOf(world), Merge(src, dst))) ==>
                && world.Valid() && old(OutsideOf(world)).Valid()
                && AppliedMerge(old(OutsideOf(world)), src, dst) == Outcome(r, OutsideOf(world))
      ensures world.staging == old(world.staging)
    {
      hide Families.Family, Filings.Filed, Coherent, Store.Agree, Store.View, Slots.WellFormed, EntityTable.Valid;
      hide Filings.Calm, Forget, Slots.Release, Outside.Valid, SameAllocator, MergedView, SwapMerge, RowsInRange;
      hide Extends;
      OutsideValid(world);
      ghost var before := world.entityIds.state;
      if src in world.View() && dst in world.View() {
        SwapsIsSameType(world, src, dst);
        MergedKeys(world.View(), src, dst);
        assert world.View()[dst].Keys + world.View()[src].Keys == world.View()[src].Keys + world.View()[dst].Keys;
        ViewKeys(world.Content(), src);
        ForgetRelease(before, src);
      }
      ghost var m := world.View();
      r := world.MergeEntities(src, dst);
      ExtendedKeys(old(world.archetypes), world.archetypes, {});
      if src in m && dst in m {
        ExtendedKeys(old(world.archetypes), world.archetypes, {m[src].Keys + m[dst].Keys} - {m[src].Keys, m[dst].Keys});
      }
      if src != dst && r.Ok? && !old(Swaps(OutsideOf(world), Merge(src, dst))) {
        ForgetSame(before.Release(src), world.entityIds.state);
      }
      assert r.Ok? ==> r.value == ();
    }

    /** The check that the id is valid, and the payload. */
    method Dress(world: World, id: EntityId) returns (r: Result<(), WorldError>)
      requires world.Valid() && Sound(payload)
      modifies world.Repr()
      ensures world.Valid() && (forall o :: o in world.Repr() && o !in old(world.Repr()) ==> fresh(o))
      ensures AppliedFetch(old(OutsideOf(world)), id, payload) == Outcome(r, OutsideOf(world))
      ensures world.staging == old(world.staging)
      ensures old(world.Calm()) && OnlyPuts(payload) ==> world.Calm()
    {
      hide Families.Family, Filings.Filed, Coherent, Store.Agree, Store.View, Slots.WellFormed, Step, AsMap, NoUnit;
      hide Filings.Calm, Forget;
      ViewKeys(world.Content(), id);
      if !world.entityIds.IsValid(id) {
        return Err(EntityNotFound);
      }
      ghost var before, ids, layout := world.View(), Forget(world.entityIds.state), world.Seating();
      SetSame(before, id);
      for k := 0 to |payload|
        invariant world.Valid() && (forall o :: o in world.Repr() && o !in old(world.Repr()) ==> fresh(o))
        invariant Forget(world.entityIds.state) == ids
                  && world.View() == before[id := Dressed(before[id], payload[..k])]
        invariant world.Seating() == Relaid(layout, id, before[id], payload[..k])
        invariant world.staging == old(world.staging) && (old(world.Calm()) && OnlyPuts(payload) ==> world.Calm())
      {
        DressedStep(layout, id, before[id], payload, k);
        SetTwice(before, id, Dressed(before[id], payload[..k]), Dressed(before[id], payload[..k + 1]));
        ApplyPart(world, id, payload[k]);
      }
      assert payload[..|payload|] == payload;
      return Ok(());
    }

    static method ApplyPart(world: World, id: EntityId, part: Part)
      requires world.Valid() && Sound([part]) && id in world.View()
      modifies world.Repr()
      ensures world.Valid() && (forall o :: o in world.Repr() && o !in old(world.Repr()) ==> fresh(o))
      ensures world.View() == old(world.View())[id := Step(old(world.View())[id], part)]
      ensures Forget(world.entityIds.state) == old(Forget(world.entityIds.state))
      ensures world.Seating() == Shifted(old(world.Seating()), id, old(world.View())[id], part)
      ensures world.staging == old(world.staging)
      ensures old(world.Calm()) && part.Put? ==> world.Calm()
    {
      hide Families.Family, Filings.Filed, Coherent, Store.Agree, Store.View, Slots.WellFormed, AsMap, NoUnit;
      hide Filings.Calm, Forget, SameAllocator, Extends;
      assert part == [part][0];
      ghost var before, layout := world.entityIds.state, world.Seating();
      match part
      case Put(bundle) =>
        var _ := world.SetBundle(id, bundle);
        ForgetSame(before, world.entityIds.state);
        ExtendedKeys(old(world.archetypes), world.archetypes, {world.View()[id].Keys} - world.staging.Keys);
        WidenedLayout(layout, world.Seating(), id, old(world.View())[id].Keys, world.View()[id].Keys);
      case Take(c) =>
        // a missing component is not an error here
        Without(world.View(), id, c);
        var r := world.RemoveComponent(id, c);
        ForgetSame(before, world.entityIds.state);
        ExtendedKeys(old(world.archetypes), world.archetypes, if r.Ok? then {world.View()[id].Keys} else {});
    }
  }

  /** The command returns `r` and leaves `after`, as `Applied` says. */
  ghost predicate Does(before: Outside, c: Command, r: Result<(), WorldError>, after: Outside) {
    before.Valid() && Possible(before, c.action) && Applied(before, c) == Outcome(r, after)
  }

  lemma DoesEach(w: Outside, c: Command)
    requires w.Valid() && Possible(w, c.action)
    ensures Applied(w, c) ==
            match c.action
            case Fetch(id) => AppliedFetch(w, id, c.payload)
            case Init(id) => AppliedInit(w, id, c.payload)
            case InsertId(id) => AppliedInsertId(w, id, c.payload)
            case Insert => AppliedInsert(w, c.payload)
            case Delete(id) => AppliedDelete(w, id)
            case Merge(src, dst) => AppliedMerge(w, src, dst)
  {
  }

  lemma ForgetCount(world: World)
    requires world.Valid()
    ensures world.entityIds.count + |world.entityIds.state.free| == |Forget(world.entityIds.state).slots|
    ensures Forget(world.entityIds.state).free == world.entityIds.state.free
  {
  }

  lemma IndexWellFormed(world: World)
    requires world.Valid()
    ensures world.entityIds.state.WellFormed()
  {
  }

  lemma Without(m: map<EntityId, Components>, id: EntityId, c: TypeId)
    requires id in m
    ensures c !in m[id] ==> m[id := m[id] - {c}] == m
  {
    if c !in m[id] {
      assert m[id] - {c} == m[id];
    }
  }

  lemma AllocatedHere<T>(s: Store<T>)
    requires s.Agree()
    ensures s.index.free != [] ==>
              && s.WithIndex(s.index.Allocate()).Agree() && s.WithIndex(s.index.Allocate()).View() == s.View()
              && s.index.Allocate().IsReserved(s.index.NextId()) && s.index.NextId() !in s.View()
              && Allocates(s.index, s.index.NextId(), s.index.Allocate())
  {
    GrowNothing(s.index);
    if s.index.free != [] {
      AllocatedView(s, |s.index.slots|);
    }
  }

  // ---------------------------------------------------------------- a buffer of commands

  ghost predicate AllSound(cs: seq<EntityCommands>) {
    forall k :: 0 <= k < |cs| ==> Sound(cs[k].payload)
  }

  ghost predicate Listed(cs: seq<EntityCommands>, values: seq<Command>)
    reads cs
  {
    |values| == |cs| && forall k :: 0 <= k < |cs| ==> cs[k].Value() == values[k]
  }

  /** Playing `before` leads to `now`, with `rest` still to play. */
  ghost predicate Midway(before: Outside, values: seq<Command>, now: Outside, rest: seq<Command>) {
    && before.Valid() && CanPlay(before, values) && now.Valid() && CanPlay(now, rest)
    && Played(before, values) == Played(now, rest)
  }

  lemma MidwayStarts(w: Outside, values: seq<Command>)
    requires w.Valid() && CanPlay(w, values)
    ensures Midway(w, values, w, values[0..])
  {
    assert values[0..] == values;
  }

  lemma MidwayStep(before: Outside, values: seq<Command>, now: Outside, k: nat, r: Result<(), WorldError>,
                   after: Outside)
    requires k < |values| && Midway(before, values, now, values[k..]) && after.Valid()
    ensures Does(now, values[k], r, after) && r.Ok? ==> Midway(before, values, after, values[k + 1..])
    ensures Does(now, values[k], r, after) && r.Err? ==> Played(before, values) == Outcome(r, after)
  {
    hide Applied, Possible, CanPlay, Played, Outside.Valid;
    assert values[k..][0] == values[k] && values[k..][1..] == values[k + 1..];
    PlayedStep(now, values[k..], r, after);
  }

  lemma MidwayNext(before: Outside, values: seq<Command>, now: Outside, k: nat)
    requires k < |values| && Midway(before, values, now, values[k..])
    ensures Possible(now, values[k].action)
  {
    hide Possible, Outside.Valid;
    assert values[k..][0] == values[k];
  }

  lemma MidwayEnds(before: Outside, values: seq<Command>, now: Outside)
    requires Midway(before, values, now, values[|values|..])
    ensures Played(before, values) == Outcome(Ok(()), now)
  {
  }

  /** What `apply_commands` demands of a world and a buffer. */
  ghost predicate Playable(world: World, cs: seq<EntityCommands>, values: seq<Command>)
    reads world, world.entityIds, world.entityIds.entries, world.region.Keys, cs
  {
    && world.Valid() && AllSound(cs) && Listed(cs, values) && (forall k :: 0 <= k < |cs| ==> cs[k] !in world.Repr())
    && OutsideOf(world).Valid() && CanPlay(OutsideOf(world), values)
  }

  ghost predicate AllGentle(values: seq<Command>) {
    forall k :: 0 <= k < |values| ==> Gentle(values[k])
  }

  lemma GentleMeans(values: seq<Command>)
    ensures AllGentle(values) <==>
            && (forall k :: 0 <= k < |values| ==> !values[k].action.Merge?)
            && forall k, j :: 0 <= k < |values| && 0 <= j < |values[k].payload| ==> values[k].payload[j].Put?
  {
  }

  method PlayOne(world: World, c: EntityCommands) returns (r: Result<(), WorldError>)
    requires world.Valid() && Sound(c.payload) && Possible(OutsideOf(world), c.action)
    modifies world.Repr()
    ensures world.Valid() && (forall o :: o in world.Repr() && o !in old(world.Repr()) ==> fresh(o))
    ensures OutsideOf(world).Valid() && Does(old(OutsideOf(world)), old(c.Value()), r, OutsideOf(world))
    ensures world.staging == old(world.staging)
    ensures old(world.Calm() && Gentle(c.Value())) ==> world.Calm()
  {
    hide Families.Family, Filings.Filed, Coherent, Store.Agree, Store.View, Filings.Calm, OutsideOf, Outside.Valid;
    hide Does, Sound, Gentle, FindsReserved, HasRoom, Swaps;
    r := c.Apply(world);
    OutsideValid(world);
  }

  /** The loop over the commands, which stops at the first error. */
  method PlayAll(world: World, cs: seq<EntityCommands>, ghost values: seq<Command>) returns (r: Result<(), WorldError>)
    requires Playable(world, cs, values)
    modifies world.Repr()
    ensures world.Valid() && (forall o :: o in world.Repr() && o !in old(world.Repr()) ==> fresh(o))
    ensures Played(old(OutsideOf(world)), values) == Outcome(r, OutsideOf(world))
    ensures world.staging == old(world.staging)
    ensures old(world.Calm()) && AllGentle(values) ==> world.Calm()
  {
    hide Families.Family, Filings.Filed, Coherent, Store.Agree, Store.View, Filings.Calm, OutsideOf, Outside.Valid;
    hide CanPlay, Played, Possible, Applied, Does, Sound, Midway, Gentle, World.Valid, World.Structure;
    ghost var start := OutsideOf(world);
    MidwayStarts(start, values);
    for k := 0 to |cs|
      invariant world.Valid() && (forall o :: o in world.Repr() && o !in old(world.Repr()) ==> fresh(o))
      invariant Listed(cs, values) && forall i :: 0 <= i < |cs| ==> cs[i] !in world.Repr()
      invariant Midway(start, values, OutsideOf(world), values[k..])
      invariant world.staging == old(world.staging)
      invariant old(world.Calm()) && AllGentle(values) ==> world.Calm()
    {
      ghost var now := OutsideOf(world);
      MidwayNext(start, values, now, k);
      r := PlayOne(world, cs[k]);
      MidwayStep(start, values, now, k, r, OutsideOf(world));
      if r.Err? {
        return r;
      }
    }
    MidwayEnds(start, values, OutsideOf(world));
    return Ok(());
  }

  /**
    `apply_commands`: the commands one by one, up to the first error, and then the sweep. An error
    leaves what has been done so far, without the sweep. What the commands do, and whom the sweep
    loses, depends on nothing but the commands and the map, the allocator and the layout they
    start from: lost are those in live archetypes who by then have one of their type in staging.
    Nobody is, if the world was calm and the commands only add.
   */
  method ApplyCommands(world: World, cs: seq<EntityCommands>, ghost values: seq<Command>)
    returns (r: Result<(), WorldError>, ghost live: Archetypes<EntityTable>, ghost store: Store<EntityTable>)
    requires Playable(world, cs, values)
    modifies world.Repr()
    ensures world.Structure() && (forall o :: o in world.Repr() && o !in old(world.Repr()) ==> fresh(o))
    ensures r == Played(old(OutsideOf(world)), values).r
    ensures r.Err? ==> world.Valid() && OutsideOf(world) == Played(old(OutsideOf(world)), values).after
    ensures r.Err? ==> world.staging == old(world.staging)
    ensures r.Ok? ==> store.Agree()
    ensures r.Ok? ==> FromOutside(store, live, old(world.staging)) == Played(old(OutsideOf(world)), values).after
    ensures r.Ok? ==> world.IsSweepOf(store, live, old(world.staging)) && world.IsSwept()
    ensures r.Ok? ==> (world.Valid() <==> NoneShadowed(live, old(world.staging), store.tables))
    ensures r.Ok? ==> var w := Played(old(OutsideOf(world)), values).after;
                      && (world.Valid() <==> w.layout.Apart(w.view))
                      && (world.Valid() ==> OutsideOf(world) == w.Swept())
                      && world.Seating() == w.layout.Swept(w.view)
                      && forall id :: id in w.view ==> (world.Lost(id) <==> w.layout.Overtaken(w.view, id))
    ensures old(world.Calm()) && AllGentle(values) ==> world.Valid() && world.Calm()
    ensures old(world.Calm()) && (forall k :: 0 <= k < |values| ==> !values[k].action.Merge?)
            && (forall k, j :: 0 <= k < |values| && 0 <= j < |values[k].payload| ==> values[k].payload[j].Put?) ==>
              world.Valid() && world.Calm()
  {
    hide Families.Family, Filings.Filed, Coherent, Store.Agree, Store.View, Filings.Calm, CanPlay, Played, Sound;
    GentleMeans(values);
    hide NoneShadowed, Gentle, Listed, AllSound, Layout.Overtaken, Layout.Apart, Layout.Swept, LayoutOf;
    r := PlayAll(world, cs, values);
    live, store := world.archetypes, world.Content();
    assert OutsideOf(world) == Played(old(OutsideOf(world)), values).after;
    if r.Err? {
      return;
    }
    world.Sweep();
  }
}
