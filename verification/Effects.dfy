/**
  Entity commands (src/commands.rs) as values, and what they do to a world seen from outside: the
  map from entities to components, the allocator without its tables, and in which archetypes the
  entities are. On that state a buffer of commands is a function (src/lib.rs, `apply_commands`).
 */
module Effects {
  import opened Wrappers
  import opened TypeIds
  import opened Seqs
  import opened EntityIds
  import opened EntityIndexes
  import opened Tables
  import opened Stores
  import opened Merges
  import opened Filings
  import opened Layouts
  import opened Worlds

  datatype Action =
    | Fetch(id: EntityId)
    | Init(id: EntityId)
    | InsertId(id: EntityId)
    | Insert
    | Delete(id: EntityId)
    | Merge(src: EntityId, dst: EntityId)

  /** One entry of a payload: components to set, or one component to take off. */
  datatype Part = Put(bundle: Bundle) | Take(c: TypeId)

  datatype Command = Command(action: Action, payload: seq<Part>)

  ghost predicate Sound(payload: seq<Part>) {
    forall k :: 0 <= k < |payload| ==>
      match payload[k]
      case Put(bundle) => Combines(bundle, {})
      case Take(c) => c != UNIT
  }

  ghost function Step(c: Components, part: Part): Components {
    match part
    case Put(bundle) => c + NoUnit(AsMap(bundle))
    case Take(t) => c - {t}
  }

  /** The components of an entity once a payload has been applied to it. */
  ghost function Dressed(c: Components, payload: seq<Part>): Components {
    if payload == [] then c else Step(Dressed(c, payload[..|payload| - 1]), payload[|payload| - 1])
  }

  /** How one part of a payload moves an entity with the components `c`. A missing component is not an error. */
  ghost function Shifted(l: Layout, id: EntityId, c: Components, part: Part): Layout {
    match part
    case Put(_) => l.Widened(id, c.Keys, Step(c, part).Keys)
    case Take(t) => if t in c then l.Narrowed(id, Step(c, part).Keys) else l
  }

  /** The layout once a payload has been applied to an entity. */
  ghost function Relaid(l: Layout, id: EntityId, c: Components, payload: seq<Part>): Layout {
    if payload == [] then l
    else
      var before := payload[..|payload| - 1];
      Shifted(Relaid(l, id, c, before), id, Dressed(c, before), payload[|payload| - 1])
  }

  lemma DressedStep(l: Layout, id: EntityId, c: Components, payload: seq<Part>, k: nat)
    requires k < |payload|
    ensures Dressed(c, payload[..k + 1]) == Step(Dressed(c, payload[..k]), payload[k])
    ensures Relaid(l, id, c, payload[..k + 1]) ==
            Shifted(Relaid(l, id, c, payload[..k]), id, Dressed(c, payload[..k]), payload[k])
  {
    assert payload[..k + 1][..k] == payload[..k];
  }

  /** The parts of a payload apply in order: a bundle overrides, and what is taken off is gone. */
  lemma DressedMeans(c: Components, payload: seq<Part>, bundle: Bundle, t: TypeId)
    ensures Dressed(c, []) == c
    ensures Dressed(c, payload + [Put(bundle)]) == Dressed(c, payload) + NoUnit(AsMap(bundle))
    ensures Dressed(c, payload + [Take(t)]) == Dressed(c, payload) - {t}
  {
    assert (payload + [Put(bundle)])[..|payload|] == payload && (payload + [Take(t)])[..|payload|] == payload;
  }

  /** A payload leaves everybody in the archetype of their type. */
  lemma {:induction false} RelaidSeats(l: Layout, view: map<EntityId, Components>, id: EntityId, c: Components,
                                       payload: seq<Part>)
    requires l.Seats(view[id := c])
    ensures Relaid(l, id, c, payload).Seats(view[id := Dressed(c, payload)])
    decreases |payload|
  {
    hide Layout.Seats, Step;
    if payload != [] {
      var before, part := payload[..|payload| - 1], payload[|payload| - 1];
      RelaidSeats(l, view, id, c, before);
      var (mid, now) := (view[id := Dressed(c, before)], Step(Dressed(c, before), part));
      assert mid[id := now] == view[id := now];
      match part
      case Put(_) => WidenedSeats(Relaid(l, id, c, before), mid, id, now);
      case Take(t) => ShiftSeats(Relaid(l, id, c, before), mid, id, t);
    }
  }

  lemma ShiftSeats(l: Layout, view: map<EntityId, Components>, id: EntityId, t: TypeId)
    requires l.Seats(view) && id in view
    ensures Shifted(l, id, view[id], Take(t)).Seats(view[id := Step(view[id], Take(t))])
  {
    if t in view[id] {
      NarrowedSeats(l, view, id, Step(view[id], Take(t)));
    } else {
      assert view[id] - {t} == view[id];
    }
  }

  // ---------------------------------------------------------------- a world from outside

  datatype Outside = Outside(ids: Slots<()>, view: map<EntityId, Components>, layout: Layout) {
    ghost predicate Valid() {
      ids.WellFormed() && (forall id :: id in view <==> ids.IsLive(id)) && layout.Seats(view)
    }

    /** What the sweep makes of it when it loses nobody. */
    ghost function Swept(): Outside {
      Outside(ids, view, layout.Swept(view))
    }
  }

  /** A filed store from outside. */
  ghost function FromOutside<T>(s: Store<T>, live: Archetypes<T>, staged: Archetypes<T>): Outside
    requires s.Agree()
  {
    Outside(Forget(s.index), s.View(), LayoutOf(s.index, live, staged))
  }

  datatype Outcome = Outcome(r: Result<(), WorldError>, after: Outside)

  /** An initialisation finds its id reserved. */
  predicate FindsReserved(w: Outside, action: Action) {
    action.Init? ==> w.ids.IsReserved(action.id)
  }

  /** The allocator has room for what the command needs. */
  ghost predicate HasRoom(w: Outside, action: Action) {
    match action
    case Init(_) => |w.ids.slots| + 1 < INDEX_MASK + |w.ids.free|
    case InsertId(id) => id.generation <= GEN_MASK && (id.index < |w.ids.slots| || id.index + 1 < INDEX_MASK)
    case Insert => w.ids.CanAllocate()
    case _ => true
  }

  /** A merge for which the code swaps rows within one type. */
  predicate Swaps(w: Outside, action: Action) {
    && action.Merge? && action.src != action.dst
    && action.src in w.view && action.dst in w.view
    && w.view[action.src].Keys == w.view[action.dst].Keys
  }

  ghost predicate Possible(w: Outside, action: Action) {
    FindsReserved(w, action) && HasRoom(w, action) && !Swaps(w, action)
  }

  /**
    Which commands are possible: all that find the slots they need below the capacity limit, an
    initialisation if its id is reserved, and a merge unless it is of two entities of one type.
   */
  lemma PossibleMeans(w: Outside, action: Action)
    ensures Possible(w, action) <==>
            match action
            case Fetch(_) => true
            case Delete(_) => true
            case Init(id) =>
              && id.index < |w.ids.slots| && w.ids.slots[id.index] == Slot(id.generation, Reserved)
              && (w.ids.free == [] ==> |w.ids.slots| + 1 < INDEX_MASK)
              && |w.ids.slots| + 1 < INDEX_MASK + |w.ids.free|
            case Insert => w.ids.free != [] || (|w.ids.slots| < INDEX_MASK && GrowTarget(|w.ids.slots|) < INDEX_MASK)
            case InsertId(id) => id.generation <= 255 && (id.index < |w.ids.slots| || id.index + 1 < INDEX_MASK)
            case Merge(src, dst) =>
              src != dst && src in w.view && dst in w.view ==> w.view[src].Keys != w.view[dst].Keys
  {
  }

  /** An entity with the components `c` once a payload has been applied to it. */
  ghost function With(w: Outside, ids: Slots<()>, id: EntityId, c: Components, payload: seq<Part>): Outcome {
    Outcome(Ok(()), Outside(ids, w.view[id := Dressed(c, payload)], Relaid(w.layout, id, c, payload)))
  }

  ghost function Fails(w: Outside, e: WorldError): Outcome {
    Outcome(Err(e), w)
  }

  ghost function AppliedFetch(w: Outside, id: EntityId, payload: seq<Part>): Outcome {
    if id in w.view then With(w, w.ids, id, w.view[id], payload) else Fails(w, EntityNotFound)
  }

  ghost function AppliedInit(w: Outside, id: EntityId, payload: seq<Part>): Outcome
    requires w.ids.IsReserved(id)
  {
    With(w, Reserving(w.ids.Place(id, (), 0), 1), id, map[], payload)
  }

  ghost function AppliedInsert(w: Outside, payload: seq<Part>): Outcome
    requires w.Valid() && w.ids.CanAllocate()
  {
    RefilledHasFree(w.ids);
    var from := Refilled(w.ids);
    With(w, from.Allocate().Place(from.NextId(), (), 0), from.NextId(), map[], payload)
  }

  /**
    A given id: new if its slot is free, updated if it is live already, refused if the slot belongs
    to another generation, and not found if it is merely reserved.
   */
  ghost function AppliedInsertId(w: Outside, id: EntityId, payload: seq<Part>): Outcome
    requires w.Valid() && HasRoom(w, InsertId(id))
  {
    if id.index >= |w.ids.slots| || w.ids.slots[id.index].use.Free? then
      SpanningHas(w.ids, id.index);
      With(w, Seized(Spanning(w.ids, id.index), id).Place(id, (), 0), id, map[], payload)
    else if w.ids.slots[id.index].generation != id.generation then Fails(w, InsertInvalidId(id))
    else AppliedFetch(w, id, payload)
  }

  ghost function AppliedMerge(w: Outside, src: EntityId, dst: EntityId): Outcome
    requires w.Valid()
  {
    if src == dst then Outcome(Ok(()), w)
    else if src in w.view && dst in w.view then
      Outcome(Ok(()), Outside(w.ids.Release(src), MergedView(w.view, src, dst),
                              w.layout.Merged(src, w.view[src].Keys, dst, w.view[dst].Keys)))
    else Fails(w, EntityNotFound)
  }

  /** Deleting what is not there is not an error. */
  ghost function AppliedDelete(w: Outside, id: EntityId): Outcome
    requires w.Valid()
  {
    Outcome(Ok(()), if id in w.view then Outside(w.ids.Release(id), w.view - {id}, w.layout.Without(id)) else w)
  }

  /** What a command does. One that fails changes nothing. */
  ghost function Applied(w: Outside, c: Command): Outcome
    requires w.Valid() && Possible(w, c.action)
  {
    match c.action
    case Fetch(id) => AppliedFetch(w, id, c.payload)
    case Init(id) => AppliedInit(w, id, c.payload)
    case InsertId(id) => AppliedInsertId(w, id, c.payload)
    case Insert => AppliedInsert(w, c.payload)
    case Delete(id) => AppliedDelete(w, id)
    case Merge(src, dst) => AppliedMerge(w, src, dst)
  }

  /** What each kind of command does, in so many words. The new id of an insertion was nobody's. */
  lemma AppliedMeans(w: Outside, c: Command, r: Result<(), WorldError>, after: Outside)
    requires w.Valid() && Possible(w, c.action) && Applied(w, c) == Outcome(r, after)
    ensures r.Err? ==> after == w
    ensures match c.action
            case Fetch(id) =>
              if id in w.view then
                r.Ok? && after.view == w.view[id := Dressed(w.view[id], c.payload)] && after.ids == w.ids
              else r == Err(EntityNotFound)
            case Init(id) =>
              r.Ok? && id !in w.view && after.view == w.view[id := Dressed(map[], c.payload)] && after.ids.free != []
            case InsertId(id) =>
              if id.index >= |w.ids.slots| || w.ids.slots[id.index].use.Free? then
                r.Ok? && id !in w.view && after.view == w.view[id := Dressed(map[], c.payload)]
              else if w.ids.slots[id.index].generation != id.generation then r == Err(InsertInvalidId(id))
              else if w.ids.slots[id.index].use.Reserved? then r == Err(EntityNotFound)
              else r.Ok? && id in w.view && after.view == w.view[id := Dressed(w.view[id], c.payload)]
            case Insert => r.Ok? && exists id :: id !in w.view && after.view == w.view[id := Dressed(map[], c.payload)]
            case Delete(id) =>
              && r.Ok? && after.view == w.view - {id} && (id !in w.view ==> after.ids == w.ids)
              && (id in w.view ==>
                    && id.index < |w.ids.slots| && after.ids.free == [id.index] + w.ids.free
                    && after.ids.slots == w.ids.slots[id.index := Slot((id.generation + 1) % 256, Use<()>.Free)])
            case Merge(src, dst) =>
              if src == dst then r.Ok? && after == w
              else if src in w.view && dst in w.view then
                && r.Ok? && after.view == (w.view - {src})[dst := w.view[dst] + w.view[src]]
                && src.index < |w.ids.slots| && after.ids.free == [src.index] + w.ids.free
                && after.ids.slots == w.ids.slots[src.index := Slot((src.generation + 1) % 256, Use<()>.Free)]
              else r == Err(EntityNotFound)
  {
    hide Slots.WellFormed, Dressed, Relaid, Layout.Seats;
    match c.action
    case Insert =>
      InsertEnlivens(w.ids);
      NextIsFree(w.ids);
      var id := Refilled(w.ids).NextId();
      assert id !in w.view && after.view == w.view[id := Dressed(map[], c.payload)];
    case Delete(id) => if id !in w.view { AbsentStays(w.view, id); }
    case _ =>
  }

  lemma RefilledHasFree<T>(s: Slots<T>)
    requires s.WellFormed() && s.CanAllocate()
    ensures 1 <= |s.slots| < INDEX_MASK && Refilled(s).WellFormed() && Refilled(s).free != []
    ensures |s.slots| <= |Refilled(s).slots|
    ensures forall i :: 0 <= i < |s.slots| ==> Refilled(s).slots[i] == s.slots[i]
    ensures forall i :: |s.slots| <= i < |Refilled(s).slots| ==> Refilled(s).slots[i].use.Free?
  {
    if s.free == [] {
      GrowTargetGrows(|s.slots|);
      GrowWellFormed(s, GrowTarget(|s.slots|));
      GrowsFree(s, GrowTarget(|s.slots|));
    }
  }

  lemma SpanningHas<T>(s: Slots<T>, index: nat)
    requires s.WellFormed() && (index < |s.slots| || index + 1 < INDEX_MASK)
    requires index < |s.slots| ==> s.slots[index].use.Free?
    ensures Spanning(s, index).WellFormed() && index < |Spanning(s, index).slots| && index in Spanning(s, index).free
    ensures |s.slots| <= |Spanning(s, index).slots|
    ensures forall i :: 0 <= i < |s.slots| ==> Spanning(s, index).slots[i] == s.slots[i]
    ensures forall i :: |s.slots| <= i < |Spanning(s, index).slots| ==> Spanning(s, index).slots[i].use.Free?
  {
    if index >= |s.slots| {
      GrowWellFormed(s, index + 1);
      GrowsFree(s, index + 1);
      FreeIsListed(s.Grow(index + 1), index);
    } else {
      FreeIsListed(s, index);
    }
    hide Slots.WellFormed, Slots.Grow;
  }

  lemma FreeIsListed<T>(s: Slots<T>, index: nat)
    requires s.WellFormed() && index < |s.slots| && s.slots[index].use.Free?
    ensures index in s.free
  {
  }

  lemma GrowsFree<T>(s: Slots<T>, cap: nat)
    requires |s.slots| <= cap
    ensures |s.Grow(cap).slots| == cap
    ensures forall i :: 0 <= i < |s.slots| ==> s.Grow(cap).slots[i] == s.slots[i]
    ensures forall i :: |s.slots| <= i < cap ==> s.Grow(cap).slots[i].use.Free?
  {
  }

  // ---------------------------------------------------------------- every command keeps the state whole

  /** Only the slot of `id` changes, and it is live under `id` afterwards. */
  ghost predicate Enlivens(ids: Slots<()>, after: Slots<()>, id: EntityId) {
    && after.WellFormed() && after.IsLive(id) && |ids.slots| <= |after.slots|
    && (forall i :: 0 <= i < |ids.slots| && i != id.index ==> after.slots[i] == ids.slots[i])
    && (forall i :: |ids.slots| <= i < |after.slots| && i != id.index ==> after.slots[i].use.Free?)
    && (id.index < |ids.slots| && ids.slots[id.index].use.Live? ==> ids.slots[id.index].generation == id.generation)
  }

  lemma EnlivenedValid(w: Outside, after: Slots<()>, id: EntityId, c: Components, payload: seq<Part>)
    requires w.Valid() && Enlivens(w.ids, after, id)
    requires if id in w.view then c == w.view[id] else c == map[]
    ensures With(w, after, id, c, payload).after.Valid()
  {
    if id in w.view {
      assert w.view[id := c] == w.view;
    } else {
      NewSeats(w.layout, w.view, id);
    }
    RelaidSeats(w.layout, w.view, id, c, payload);
    hide Slots.WellFormed, Layout.Seats, Dressed, Relaid;
  }

  lemma ReleasedValid(w: Outside, id: EntityId, view: map<EntityId, Components>, layout: Layout)
    requires w.Valid() && id in w.view && view.Keys == w.view.Keys - {id} && layout.Seats(view)
    ensures Outside(w.ids.Release(id), view, layout).Valid()
  {
    ReleaseWellFormed(w.ids, id);
    hide Slots.WellFormed;
  }

  lemma PlaceEnlivens(ids: Slots<()>, mid: Slots<()>, id: EntityId)
    requires mid.WellFormed() && mid.IsReserved(id) && |ids.slots| <= |mid.slots|
    requires forall i :: 0 <= i < |ids.slots| && i != id.index ==> mid.slots[i] == ids.slots[i]
    requires forall i :: |ids.slots| <= i < |mid.slots| && i != id.index ==> mid.slots[i].use.Free?
    requires id.index < |ids.slots| ==> !ids.slots[id.index].use.Live?
    ensures Enlivens(ids, mid.Place(id, (), 0), id)
  {
  }

  lemma InitEnlivens(ids: Slots<()>, id: EntityId)
    requires ids.WellFormed() && ids.IsReserved(id) && |ids.slots| + 1 < INDEX_MASK + |ids.free|
    ensures Enlivens(ids, Reserving(ids.Place(id, (), 0), 1), id)
  {
    PlaceEnlivens(ids, ids, id);
    var placed := ids.Place(id, (), 0);
    if placed.free == [] { GrowWellFormed(placed, |placed.slots| + 1); }
  }

  lemma InsertEnlivens(ids: Slots<()>)
    requires ids.WellFormed() && ids.CanAllocate()
    ensures Refilled(ids).WellFormed() && Refilled(ids).free != []
    ensures Enlivens(ids, Refilled(ids).Allocate().Place(Refilled(ids).NextId(), (), 0), Refilled(ids).NextId())
  {
    RefilledHasFree(ids);
    AllocateWellFormed(Refilled(ids));
    PlaceEnlivens(ids, Refilled(ids).Allocate(), Refilled(ids).NextId());
  }

  lemma InsertIdEnlivens(ids: Slots<()>, id: EntityId)
    requires ids.WellFormed() && id.generation <= GEN_MASK && (id.index < |ids.slots| || id.index + 1 < INDEX_MASK)
    requires id.index < |ids.slots| ==> ids.slots[id.index].use.Free?
    ensures id.index < |Spanning(ids, id.index).slots| && id.index in Spanning(ids, id.index).free
    ensures Enlivens(ids, Seized(Spanning(ids, id.index), id).Place(id, (), 0), id)
  {
    hide Slots.WellFormed, Spanning, Seized;
    SpanningHas(ids, id.index);
    SeizedIsReserved(Spanning(ids, id.index), id);
    PlaceEnlivens(ids, Seized(Spanning(ids, id.index), id), id);
  }

  lemma SeizedIsReserved(s: Slots<()>, id: EntityId)
    requires s.WellFormed() && id.index < |s.slots| && id.index in s.free && id.generation <= GEN_MASK
    ensures var after := Seized(s, id);
            && after.WellFormed() && after.IsReserved(id) && |after.slots| == |s.slots|
            && forall i :: 0 <= i < |s.slots| && i != id.index ==> after.slots[i] == s.slots[i]
  {
    var at :| 0 <= at < |s.free| && s.free[at] == id.index;
    ClaimWellFormed(s, id, at);
    FreeApart(s, at);
    hide Slots.WellFormed, Distinct, Seized;
    SeizedIsClaim(s, id, at);
  }

  /** After any command the ids of the map are exactly the live ids. */
  lemma AppliedValid(w: Outside, c: Command)
    requires w.Valid() && Possible(w, c.action)
    ensures Applied(w, c).after.Valid()
  {
    hide Enlivens, Slots.WellFormed, Dressed, Relaid, Layout.Seats, With;
    match c.action
    case Fetch(id) => FetchedValid(w, id, c.payload);
    case Init(id) =>
      InitEnlivens(w.ids, id);
      EnlivenedValid(w, Reserving(w.ids.Place(id, (), 0), 1), id, map[], c.payload);
    case InsertId(id) =>
      if id.index >= |w.ids.slots| || w.ids.slots[id.index].use.Free? {
        InsertIdEnlivens(w.ids, id);
        EnlivenedValid(w, Seized(Spanning(w.ids, id.index), id).Place(id, (), 0), id, map[], c.payload);
      }
      FetchedValid(w, id, c.payload);
    case Insert =>
      InsertEnlivens(w.ids);
      EnlivenedValid(w, Refilled(w.ids).Allocate().Place(Refilled(w.ids).NextId(), (), 0), Refilled(w.ids).NextId(),
                     map[], c.payload);
    case Delete(id) =>
      if id in w.view {
        WithoutSeats(w.layout, w.view, id);
        ReleasedValid(w, id, w.view - {id}, w.layout.Without(id));
      }
    case Merge(src, dst) =>
      if src != dst && src in w.view && dst in w.view {
        MergedSeats(w.layout, w.view, src, dst);
        ReleasedValid(w, src, MergedView(w.view, src, dst),
                      w.layout.Merged(src, w.view[src].Keys, dst, w.view[dst].Keys));
      }
  }

  lemma FetchedValid(w: Outside, id: EntityId, payload: seq<Part>)
    requires w.Valid()
    ensures AppliedFetch(w, id, payload).after.Valid()
  {
    if id in w.view { EnlivenedValid(w, w.ids, id, w.view[id], payload); }
  }

  /** An id that one command has reserved is not touched by any other command. */
  lemma ReservedStays(w: Outside, c: Command, id: EntityId)
    requires w.Valid() && Possible(w, c.action) && w.ids.IsReserved(id)
    requires c.action.Init? ==> c.action.id.index != id.index
    ensures Applied(w, c).after.ids.IsReserved(id)
  {
    hide Slots.WellFormed, Dressed;
    match c.action
    case Fetch(_) =>
    case Init(own) => InitEnlivens(w.ids, own);
    case InsertId(own) =>
      if own.index >= |w.ids.slots| || w.ids.slots[own.index].use.Free? { InsertIdEnlivens(w.ids, own); }
    case Insert => InsertEnlivens(w.ids); NextIsFree(w.ids);
    case Delete(own) => if own in w.view { ReleaseElsewhere(w.ids, own, id); }
    case Merge(src, dst) => if src in w.view { ReleaseElsewhere(w.ids, src, id); }
  }

  lemma NextIsFree(ids: Slots<()>)
    requires ids.WellFormed() && ids.CanAllocate()
    ensures Refilled(ids).WellFormed() && Refilled(ids).free != []
    ensures Refilled(ids).NextId().index < |ids.slots| ==> ids.slots[Refilled(ids).NextId().index].use.Free?
  {
    RefilledHasFree(ids);
    assert Refilled(ids).slots[Refilled(ids).free[0]].use.Free?;
  }

  lemma ReleaseElsewhere(ids: Slots<()>, own: EntityId, id: EntityId)
    requires ids.IsLive(own) && ids.IsReserved(id)
    ensures ids.Release(own).IsReserved(id)
  {
  }

  // ---------------------------------------------------------------- a buffer of commands

  /** Each command of the buffer is possible when its turn comes. */
  ghost predicate CanPlay(w: Outside, cs: seq<Command>)
    requires w.Valid()
    decreases |cs|
  {
    cs == [] || (Possible(w, cs[0].action) && PlaysOn(w, cs))
  }

  ghost predicate PlaysOn(w: Outside, cs: seq<Command>)
    requires w.Valid() && cs != [] && Possible(w, cs[0].action)
    decreases |cs|, 0
  {
    AppliedValid(w, cs[0]);
    Applied(w, cs[0]).r.Ok? ==> CanPlay(Applied(w, cs[0]).after, cs[1..])
  }

  /** The loop of `apply_commands`: it stops at the first error. */
  ghost function Played(w: Outside, cs: seq<Command>): Outcome
    requires w.Valid() && CanPlay(w, cs)
    decreases |cs|
  {
    if cs == [] then Outcome(Ok(()), w)
    else
      AppliedValid(w, cs[0]);
      assert PlaysOn(w, cs);
      var o := Applied(w, cs[0]);
      if o.r.Err? then o else Played(o.after, cs[1..])
  }

  lemma PlayedStep(w: Outside, cs: seq<Command>, r: Result<(), WorldError>, after: Outside)
    requires w.Valid() && CanPlay(w, cs) && cs != [] && after.Valid()
    ensures Possible(w, cs[0].action)
    ensures Applied(w, cs[0]) == Outcome(r, after) && r.Err? ==> Played(w, cs) == Outcome(r, after)
    ensures Applied(w, cs[0]) == Outcome(r, after) && r.Ok? ==>
              CanPlay(after, cs[1..]) && Played(w, cs) == Played(after, cs[1..])
    ensures CanPlay(w, []) && Played(w, []) == Outcome(Ok(()), w)
  {
    hide Applied, Possible;
    assert PlaysOn(w, cs);
  }

  /** The initialisations of a buffer: their ids are reserved, and each belongs to one command. */
  ghost predicate InitsReserved(w: Outside, cs: seq<Command>) {
    && (forall k :: 0 <= k < |cs| ==> FindsReserved(w, cs[k].action))
    && (forall j, k :: 0 <= j < k < |cs| && cs[j].action.Init? && cs[k].action.Init? ==>
          cs[j].action.id.index != cs[k].action.id.index)
  }

  lemma InitsStayReserved(w: Outside, cs: seq<Command>)
    requires w.Valid() && InitsReserved(w, cs) && cs != [] && Possible(w, cs[0].action)
    ensures InitsReserved(Applied(w, cs[0]).after, cs[1..])
  {
    hide Applied, Possible;
    var after, rest := Applied(w, cs[0]).after, cs[1..];
    forall k | 0 <= k < |rest| ensures FindsReserved(after, rest[k].action) {
      assert rest[k] == cs[k + 1];
      if rest[k].action.Init? { ReservedStays(w, cs[0], rest[k].action.id); }
    }
  }

  /** As `CanPlay`, without asking that an initialisation finds its id reserved. */
  ghost predicate Roomy(w: Outside, cs: seq<Command>)
    requires w.Valid()
    decreases |cs|
  {
    cs == [] || (HasRoom(w, cs[0].action) && !Swaps(w, cs[0].action) && (Possible(w, cs[0].action) ==> RoomyOn(w, cs)))
  }

  ghost predicate RoomyOn(w: Outside, cs: seq<Command>)
    requires w.Valid() && cs != [] && Possible(w, cs[0].action)
    decreases |cs|, 0
  {
    AppliedValid(w, cs[0]);
    Applied(w, cs[0]).r.Ok? ==> Roomy(Applied(w, cs[0]).after, cs[1..])
  }

  /**
    Ids that are reserved when a buffer is handed over are still reserved when their own commands
    are applied, whatever the other commands insert, claim, delete or merge before that.
   */
  lemma {:induction false} ReservedUntilInit(w: Outside, cs: seq<Command>)
    requires w.Valid() && Roomy(w, cs)
    requires forall k :: 0 <= k < |cs| && cs[k].action.Init? ==> w.ids.IsReserved(cs[k].action.id)
    requires forall j, k :: 0 <= j < k < |cs| && cs[j].action.Init? && cs[k].action.Init? ==>
               cs[j].action.id.index != cs[k].action.id.index
    ensures CanPlay(w, cs)
    decreases |cs|
  {
    assert InitsReserved(w, cs);
    hide Applied, HasRoom, Swaps;
    if cs != [] {
      assert FindsReserved(w, cs[0].action);
      AppliedValid(w, cs[0]);
      InitsStayReserved(w, cs);
      if Applied(w, cs[0]).r.Ok? { ReservedUntilInit(Applied(w, cs[0]).after, cs[1..]); }
    }
  }

  /** Room and different types are no more than what playing a buffer needs. */
  lemma {:induction false} PlayableIsRoomy(w: Outside, cs: seq<Command>)
    requires w.Valid() && CanPlay(w, cs)
    ensures Roomy(w, cs)
    decreases |cs|
  {
    hide Applied;
    if cs != [] {
      assert PlaysOn(w, cs);
      AppliedValid(w, cs[0]);
      if Applied(w, cs[0]).r.Ok? { PlayableIsRoomy(Applied(w, cs[0]).after, cs[1..]); }
    }
  }

  /** The state of a buffer that is played up to some command is whole. */
  lemma {:induction false} PlayedValid(w: Outside, cs: seq<Command>)
    requires w.Valid() && CanPlay(w, cs)
    ensures Played(w, cs).after.Valid()
    decreases |cs|
  {
    hide Applied, Possible;
    if cs != [] {
      AppliedValid(w, cs[0]);
      if Applied(w, cs[0]).r.Ok? { PlayedValid(Applied(w, cs[0]).after, cs[1..]); }
    }
  }
}
