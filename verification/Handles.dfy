/**
  Handles over whole runs of the allocator (src/entity_index.rs), without `insert_id`: an 8-bit
  generation counts the times a slot was freed, so a stale handle is told apart from a new one
  until the count wraps around.
 */
module Handles {
  import opened EntityIds
  import opened EntityIndexes

  datatype Event<T> =
    | Grown(cap: nat)
    | Allocated
    | Placed(id: EntityId, table: T, row: nat)
    | Released(id: EntityId)

  ghost predicate Enabled<T>(s: Slots<T>, e: Event<T>) {
    match e
    case Grown(cap) => |s.slots| <= cap < INDEX_MASK
    case Allocated => s.free != []
    case Placed(id, _, _) => s.IsAllocated(id)
    case Released(id) => s.IsAllocated(id)
  }

  ghost function After<T>(s: Slots<T>, e: Event<T>): Slots<T>
    requires s.WellFormed() && Enabled(s, e)
  {
    match e
    case Grown(cap) => s.Grow(cap)
    case Allocated => s.Allocate()
    case Placed(id, t, row) => s.Place(id, t, row)
    case Released(id) => s.Release(id)
  }

  lemma AfterWellFormed<T>(s: Slots<T>, e: Event<T>)
    requires s.WellFormed() && Enabled(s, e)
    ensures After(s, e).WellFormed() && |s.slots| <= |After(s, e).slots|
  {
    match e
    case Grown(cap) => GrowWellFormed(s, cap);
    case Allocated => AllocateWellFormed(s);
    case Placed(id, t, row) =>
    case Released(id) => ReleaseWellFormed(s, id);
  }

  /** `states` is a run through `events`. */
  ghost predicate Run<T>(states: seq<Slots<T>>, events: seq<Event<T>>) {
    && |states| == |events| + 1
    && states[0].WellFormed()
    && forall k :: 0 <= k < |events| ==>
         states[k].WellFormed() && Enabled(states[k], events[k]) && states[k + 1] == After(states[k], events[k])
  }

  /** A run can go on with any operation that the allocator allows. */
  lemma RunsFurther<T>(states: seq<Slots<T>>, events: seq<Event<T>>, e: Event<T>)
    requires (events == [] && |states| == 1 && states[0].WellFormed()) || Run(states, events)
    requires match e
             case Grown(cap) => |states[|events|].slots| <= cap < INDEX_MASK
             case Allocated => states[|events|].free != []
             case Placed(id, _, _) => states[|events|].IsAllocated(id)
             case Released(id) => states[|events|].IsAllocated(id)
    ensures states[|events|].WellFormed()
    ensures var last := states[|events|];
            var next := match e
                        case Grown(cap) => last.Grow(cap)
                        case Allocated => last.Allocate()
                        case Placed(id, t, row) => last.Place(id, t, row)
                        case Released(id) => last.Release(id);
            Run(states + [next], events + [e])
  {
    var last := states[|events|];
    if events != [] { AfterWellFormed(states[|events| - 1], events[|events| - 1]); }
    var longer, all := states + [After(last, e)], events + [e];
    hide Slots.WellFormed, After;
    forall k | 0 <= k < |all|
      ensures longer[k].WellFormed() && Enabled(longer[k], all[k]) && longer[k + 1] == After(longer[k], all[k])
    {
      if k < |events| { assert all[k] == events[k]; }
    }
  }

  /** How often slot `i` was freed. */
  ghost function Frees<T>(events: seq<Event<T>>, i: nat): nat {
    if events == [] then 0
    else
      var n := |events| - 1;
      Frees(events[..n], i) + (if events[n].Released? && events[n].id.index == i then 1 else 0)
  }

  lemma WrapNext(n: nat)
    ensures (n % 256 + 1) % 256 == (n + 1) % 256
  {
    assert n == n / 256 * 256 + n % 256;
  }

  lemma Wrap(g: nat, n: nat)
    requires g < 256
    ensures (g + n) % 256 == g <==> n % 256 == 0
  {
    var q, r := n / 256, n % 256;
    assert n == q * 256 + r;
    assert (g + n) % 256 == (g + r) % 256;
  }

  /** Along a run the generation of a slot counts its frees, modulo 256. */
  lemma {:induction false} GenerationCounts<T>(states: seq<Slots<T>>, events: seq<Event<T>>, i: nat)
    requires Run(states, events) && i < |states[0].slots|
    ensures var last := states[|events|];
            && last.WellFormed() && i < |last.slots|
            && last.slots[i].generation == (states[0].slots[i].generation + Frees(events, i)) % (GEN_MASK + 1)
    ensures states[0].slots[i].generation <= GEN_MASK
    decreases |events|
  {
    hide After, Enabled;
    if events != [] {
      var n := |events| - 1;
      GenerationCounts(states[..n + 1], events[..n], i);
      AfterWellFormed(states[n], events[n]);
      GenerationStep(states[n], events[n], i);
      var was, frees := states[0].slots[i].generation, Frees(events[..n], i);
      WrapNext(was + frees);
    }
  }

  lemma GenerationStep<T>(s: Slots<T>, e: Event<T>, i: nat)
    requires s.WellFormed() && Enabled(s, e) && i < |s.slots|
    ensures i < |After(s, e).slots|
    ensures After(s, e).slots[i].generation ==
            if e.Released? && e.id.index == i then (s.slots[i].generation + 1) % (GEN_MASK + 1)
            else s.slots[i].generation
  {
  }

  /**
    A handle that was allocated is a valid handle later in the run exactly when its slot is live
    and has been freed a multiple of 256 times since.
   */
  lemma StaleHandles<T>(states: seq<Slots<T>>, events: seq<Event<T>>, id: EntityId)
    requires Run(states, events) && states[0].IsAllocated(id)
    ensures var last := states[|events|];
            && id.index < |last.slots|
            && (last.IsLive(id) <==> last.slots[id.index].use.Live? && Frees(events, id.index) % (GEN_MASK + 1) == 0)
  {
    hide Run, Frees, Slots.WellFormed;
    GenerationCounts(states, events, id.index);
    var g, n := id.generation, Frees(events, id.index);
    Wrap(g, n);
  }

  /** The slot that is freed last is handed out next, under the next generation. */
  lemma FreedIsNext<T>(s: Slots<T>, id: EntityId)
    requires s.WellFormed() && s.IsAllocated(id)
    ensures s.Release(id).free != [] && s.Release(id).NextId() == EntityId(id.index, (id.generation + 1) % 256)
  {
  }

  /** Allocation never hands out an id that is in use, nor one of the same index. */
  lemma AllocationIsFresh<T>(s: Slots<T>, other: EntityId)
    requires s.WellFormed() && s.free != [] && s.IsAllocated(other)
    ensures s.NextId().index != other.index && InRange(s.NextId())
    ensures s.Allocate().IsReserved(s.NextId()) && s.Allocate().IsAllocated(other)
  {
    assert s.slots[s.free[0]].use.Free?;
  }
}
