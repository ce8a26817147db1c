/**
  The slot allocator (src/entity_index.rs).

  `Slots` is the abstract state: one slot per entry, and the free slots in allocation order.
  `EntityIndex` is the entry array with the free list threaded through `rowIndex`; every method
  is tied to a function on `Slots`.
 */
module EntityIndexes {
  import opened Wrappers
  import opened Seqs
  import opened EntityIds

  /** End of the free list: `!0` as a `u32`. */
  const SENTINEL: nat := 0xFFFF_FFFF

  datatype Use<T> = Free | Reserved | Live(table: T, row: nat)

  datatype Slot<T> = Slot(generation: nat, use: Use<T>)

  datatype InsertError = Taken(id: EntityId) | AlreadyInserted(id: EntityId)

  datatype HandleTableError = OutOfCapacity | NotFound | Uninitialized

  // ---------------------------------------------------------------- abstract state

  datatype Slots<T> = Slots(slots: seq<Slot<T>>, free: seq<nat>) {

    /** The free list names exactly the free slots, once each. */
    ghost predicate WellFormed() {
      && 1 <= |slots| < INDEX_MASK
      && Distinct(free)
      && (forall k :: 0 <= k < |free| ==> free[k] < |slots| && slots[free[k]].use.Free?)
      && (forall i :: 0 <= i < |slots| && slots[i].use.Free? ==> i in free)
      && (forall i :: 0 <= i < |slots| ==> slots[i].generation <= GEN_MASK)
    }

    predicate IsLive(id: EntityId) {
      id.index < |slots| && slots[id.index].generation == id.generation && slots[id.index].use.Live?
    }

    predicate IsAllocated(id: EntityId) {
      id.index < |slots| && slots[id.index].generation == id.generation && !slots[id.index].use.Free?
    }

    predicate IsReserved(id: EntityId) {
      id.index < |slots| && slots[id.index].generation == id.generation && slots[id.index].use.Reserved?
    }

    /** The 24-bit capacity limit: the assertion in `grow` that allocation can run into. */
    ghost predicate CanAllocate() {
      free != [] || (|slots| < INDEX_MASK && GrowTarget(|slots|) < INDEX_MASK)
    }

    function Grow(cap: nat): (r: Slots<T>)
      requires |slots| <= cap
    {
      Slots(slots + seq(cap - |slots|, _ => Slot(0, Use<T>.Free)), Range(|slots|, cap) + free)
    }

    function NextId(): EntityId
      requires free != [] && free[0] < |slots|
    {
      EntityId(free[0], slots[free[0]].generation)
    }

    function Allocate(): Slots<T>
      requires free != [] && free[0] < |slots|
    {
      Slots(slots[free[0] := slots[free[0]].(use := Reserved)], free[1..])
    }

    /** `insert_id` on a free slot: unlink it wherever it is and adopt the given generation. */
    function Claim(id: EntityId, at: nat): Slots<T>
      requires id.index < |slots| && at < |free| && free[at] == id.index
    {
      Slots(slots[id.index := Slot(id.generation, Reserved)], RemoveAt(free, at))
    }

    function Release(id: EntityId): Slots<T>
      requires id.index < |slots|
    {
      Slots(slots[id.index := Slot((id.generation + 1) % (GEN_MASK + 1), Use<T>.Free)], [id.index] + free)
    }

    function Place(id: EntityId, table: T, row: nat): Slots<T>
      requires id.index < |slots|
    {
      Slots(slots[id.index := slots[id.index].(use := Live(table, row))], free)
    }
  }

  // ---------------------------------------------------------------- compositions of the operations

  /** What `allocate_with_resize` allocates from. */
  function Refilled<T>(s: Slots<T>): Slots<T>
    requires 1 <= |s.slots| < INDEX_MASK
  {
    if s.free == [] then
      GrowTargetGrows(|s.slots|);
      s.Grow(GrowTarget(|s.slots|))
    else s
  }

  /** What `insert_id` looks for the slot in. */
  function Spanning<T>(s: Slots<T>, index: nat): Slots<T> {
    if index < |s.slots| then s else s.Grow(index + 1)
  }

  /** The slot of `id` taken out of the free list, wherever in it. */
  ghost function Seized<T>(s: Slots<T>, id: EntityId): Slots<T>
    requires id.index < |s.slots| && id.index in s.free
  {
    var at :| 0 <= at < |s.free| && s.free[at] == id.index;
    s.Claim(id, at)
  }

  lemma SeizedIsClaim<T>(s: Slots<T>, id: EntityId, at: nat)
    requires Distinct(s.free) && id.index < |s.slots| && at < |s.free| && s.free[at] == id.index
    ensures Seized(s, id) == s.Claim(id, at)
  {
  }

  lemma SeizedSomewhere<T>(s: Slots<T>, id: EntityId, after: Slots<T>)
    requires Distinct(s.free) && id.index < |s.slots|
    requires exists at :: 0 <= at < |s.free| && s.free[at] == id.index && after == s.Claim(id, at)
    ensures id.index in s.free && after == Seized(s, id)
  {
    hide Distinct, Seized, Slots.Claim;
    var at :| 0 <= at < |s.free| && s.free[at] == id.index && after == s.Claim(id, at);
    SeizedIsClaim(s, id, at);
  }

  /** The new slots are free, in front of the others and in index order; nothing else changes. */
  lemma GrowMeans<T>(s: Slots<T>, cap: nat)
    requires |s.slots| <= cap
    ensures |s.Grow(cap).slots| == cap && s.Grow(cap).slots[..|s.slots|] == s.slots
    ensures forall i :: |s.slots| <= i < cap ==> s.Grow(cap).slots[i] == Slot(0, Use<T>.Free)
    ensures |s.Grow(cap).free| == cap - |s.slots| + |s.free|
    ensures forall k :: 0 <= k < cap - |s.slots| ==> s.Grow(cap).free[k] == |s.slots| + k
    ensures s.Grow(cap).free[cap - |s.slots|..] == s.free
  {
  }

  /** What `insert_id` leaves: room up to the slot of `id`, which is reserved under that id and off the free list. */
  lemma SeizedMeans<T>(s: Slots<T>, id: EntityId)
    requires Distinct(s.free) && id.index < |s.slots| && id.index in s.free
    ensures Seized(s, id).slots == s.slots[id.index := Slot(id.generation, Reserved)]
    ensures |Seized(s, id).free| == |s.free| - 1
    ensures forall i :: i in Seized(s, id).free <==> i in s.free && i != id.index
  {
    var at :| 0 <= at < |s.free| && s.free[at] == id.index;
    SeizedIsClaim(s, id, at);
    forall i | i in s.free && i != id.index ensures i in RemoveAt(s.free, at) { RemoveAtKeeps(s.free, at, i); }
  }

  /** What `reserve` leaves: at least `n` free slots. */
  function Reserving<T>(s: Slots<T>, n: nat): Slots<T> {
    if n > |s.free| then s.Grow(|s.slots| + n - |s.free|) else s
  }

  /** `after` is what `allocate_with_resize` leaves when it hands out `id`. */
  ghost predicate Allocates<T>(s: Slots<T>, id: EntityId, after: Slots<T>) {
    && 1 <= |s.slots| < INDEX_MASK
    && var from := Refilled(s);
    from.free != [] && from.free[0] < |from.slots| && id == from.NextId() && after == from.Allocate()
  }

  /** `after` is what `insert_id` leaves when it finds the slot of `id` free. */
  ghost predicate Claims<T>(s: Slots<T>, id: EntityId, after: Slots<T>) {
    id.index in Spanning(s, id.index).free && after == Seized(Spanning(s, id.index), id)
  }

  /** The allocator without the tables: which slots are free, reserved and live, and the free list. */
  function Forget<T>(s: Slots<T>): (r: Slots<()>)
    ensures |r.slots| == |s.slots|
  {
    Slots(seq(|s.slots|, i requires 0 <= i < |s.slots| => ForgetSlot(s.slots[i])), s.free)
  }

  function ForgetSlot<T>(slot: Slot<T>): Slot<()> {
    Slot(slot.generation, match slot.use case Free => Free case Reserved => Reserved case Live(_, _) => Live((), 0))
  }

  /** `id` was allocated and then given a row. */
  ghost predicate Inserts<T>(s: Slots<T>, id: EntityId, after: Slots<T>) {
    && 1 <= |s.slots| < INDEX_MASK
    && var from := Refilled(s);
    && from.free != [] && from.free[0] < |from.slots| && id == from.NextId()
    && Forget(after) == Forget(from.Allocate()).Place(id, (), 0)
  }

  /** `id` was claimed and then given a row. */
  ghost predicate InsertsClaimed<T>(s: Slots<T>, id: EntityId, after: Slots<T>) {
    id.index in Spanning(s, id.index).free
    && Forget(after) == Forget(Seized(Spanning(s, id.index), id)).Place(id, (), 0)
  }

  lemma ForgetPlace<T>(s: Slots<T>, id: EntityId, t: T, row: nat)
    requires id.index < |s.slots|
    ensures Forget(s.Place(id, t, row)) == Forget(s).Place(id, (), 0)
  {
    assert Forget(s.Place(id, t, row)).slots == Forget(s).Place(id, (), 0).slots;
  }

  lemma PlaceInserts<T>(s: Slots<T>, id: EntityId, mid: Slots<T>, after: Slots<T>)
    requires id.index < |mid.slots| && Forget(after) == Forget(mid).Place(id, (), 0)
    ensures Allocates(s, id, mid) ==> Inserts(s, id, after)
    ensures Claims(s, id, mid) ==> InsertsClaimed(s, id, after)
  {
  }

  // Every operation can be followed on the allocator without its tables.

  lemma ForgetUses<T>(s: Slots<T>)
    ensures s.WellFormed() ==> Forget(s).WellFormed()
    ensures s.CanAllocate() <==> Forget(s).CanAllocate()
    ensures forall id :: Forget(s).IsLive(id) == s.IsLive(id) && Forget(s).IsReserved(id) == s.IsReserved(id)
    ensures forall i :: 0 <= i < |s.slots| ==>
      Forget(s).slots[i].use.Free? == s.slots[i].use.Free? && Forget(s).slots[i].generation == s.slots[i].generation
  {
  }

  lemma ForgetSame<T>(a: Slots<T>, b: Slots<T>)
    requires SameAllocator(a, b)
    ensures Forget(a) == Forget(b)
  {
    assert Forget(a).slots == Forget(b).slots;
  }

  lemma ForgetRelease<T>(s: Slots<T>, id: EntityId)
    requires id.index < |s.slots|
    ensures Forget(s.Release(id)) == Forget(s).Release(id)
  {
    assert Forget(s.Release(id)).slots == Forget(s).Release(id).slots;
  }

  lemma ForgetGrow<T>(s: Slots<T>, cap: nat)
    requires |s.slots| <= cap
    ensures Forget(s.Grow(cap)) == Forget(s).Grow(cap)
  {
    assert Forget(s.Grow(cap)).slots == Forget(s).Grow(cap).slots;
  }

  lemma ForgetReserving<T>(s: Slots<T>, n: nat)
    ensures Forget(Reserving(s, n)) == Reserving(Forget(s), n)
  {
    if n > |s.free| { ForgetGrow(s, |s.slots| + n - |s.free|); }
  }

  lemma ForgetAllocate<T>(s: Slots<T>)
    requires s.free != [] && s.free[0] < |s.slots|
    ensures Forget(s.Allocate()) == Forget(s).Allocate() && Forget(s).NextId() == s.NextId()
  {
    assert Forget(s.Allocate()).slots == Forget(s).Allocate().slots;
  }

  lemma ForgetInserts<T>(s: Slots<T>, id: EntityId, after: Slots<T>)
    requires Inserts(s, id, after)
    ensures var from := Refilled(Forget(s));
            && from.free != [] && from.free[0] < |from.slots| && id == from.NextId()
            && Forget(after) == from.Allocate().Place(id, (), 0)
  {
    if s.free == [] {
      GrowTargetGrows(|s.slots|);
      ForgetGrow(s, GrowTarget(|s.slots|));
    }
    ForgetAllocate(Refilled(s));
  }

  lemma ForgetInsertsClaimed<T>(s: Slots<T>, id: EntityId, after: Slots<T>)
    requires s.WellFormed() && (id.index < |s.slots| || id.index + 1 < INDEX_MASK) && InsertsClaimed(s, id, after)
    ensures var from := Spanning(Forget(s), id.index);
            && id.index < |from.slots| && id.index in from.free
            && Forget(after) == Seized(from, id).Place(id, (), 0)
  {
    hide Forget, Seized, Slots.WellFormed, Slots.Place;
    ForgetSpanning(s, id.index);
    ForgetSeized(Spanning(s, id.index), id);
  }

  lemma ForgetSpanning<T>(s: Slots<T>, index: nat)
    requires s.WellFormed() && (index < |s.slots| || index + 1 < INDEX_MASK)
    ensures Spanning(s, index).WellFormed() && index < |Spanning(s, index).slots|
    ensures Forget(Spanning(s, index)) == Spanning(Forget(s), index)
  {
    hide Forget, Slots.WellFormed;
    if index >= |s.slots| {
      ForgetGrow(s, index + 1);
      GrowWellFormed(s, index + 1);
    }
  }

  lemma ForgetSeized<T>(s: Slots<T>, id: EntityId)
    requires s.WellFormed() && id.index < |s.slots| && id.index in s.free
    ensures Forget(s).free == s.free && Forget(Seized(s, id)) == Seized(Forget(s), id)
  {
    var at :| 0 <= at < |s.free| && s.free[at] == id.index;
    hide Slots.WellFormed, Distinct, Seized;
    SeizedIsClaim(s, id, at);
    SeizedIsClaim(Forget(s), id, at);
    assert Forget(s.Claim(id, at)).slots == Forget(s).Claim(id, at).slots;
  }

  lemma ReservingGrows<T>(s: Slots<T>, n: nat)
    requires |s.slots| + n < INDEX_MASK + |s.free|
    ensures exists cap :: |s.slots| <= cap && (cap < INDEX_MASK || cap == |s.slots|) && Reserving(s, n) == s.Grow(cap)
  {
    var cap := if n > |s.free| then |s.slots| + n - |s.free| else |s.slots|;
    assert s.Grow(|s.slots|) == s;
    assert Reserving(s, n) == s.Grow(cap);
  }

  /** The slots differ in their tables only, and the free slots are the same, in the same order. */
  ghost predicate SameAllocator<T>(a: Slots<T>, b: Slots<T>) {
    && a.free == b.free && |a.slots| == |b.slots|
    && forall i :: 0 <= i < |a.slots| ==>
         && a.slots[i].generation == b.slots[i].generation
         && (a.slots[i].use.Free? <==> b.slots[i].use.Free?)
         && (a.slots[i].use.Live? <==> b.slots[i].use.Live?)
  }

  /** The slots differ in their rows only. */
  ghost predicate SameTables<T>(a: Slots<T>, b: Slots<T>) {
    && SameAllocator(a, b)
    && forall i :: 0 <= i < |a.slots| && a.slots[i].use.Live? ==> a.slots[i].use.table == b.slots[i].use.table
  }

  lemma SameTransitive<T>(a: Slots<T>, b: Slots<T>, c: Slots<T>)
    requires SameTables(a, b) && SameTables(b, c)
    ensures SameTables(a, c)
  {
  }

  lemma SamePlace<T>(a: Slots<T>, b: Slots<T>, id: EntityId, t: T, m: nat, n: nat)
    requires SameTables(a, b) && a.IsLive(id)
    ensures SameTables(a.Place(id, t, m), b.Place(id, t, n))
  {
  }

  lemma SameRelease<T>(a: Slots<T>, b: Slots<T>, id: EntityId)
    requires SameTables(a, b) && id.index < |a.slots|
    ensures SameTables(a.Release(id), b.Release(id))
  {
  }

  // ---------------------------------------------------------------- who is in which tables

  /** The live ids whose entries name a table of `ts`. */
  ghost function Residents<T>(s: Slots<T>, ts: set<T>): (r: set<EntityId>)
    ensures forall id :: id in r <==> s.IsLive(id) && s.slots[id.index].use.table in ts
  {
    var r := set i | 0 <= i < |s.slots| && s.slots[i].use.Live? && s.slots[i].use.table in ts ::
               EntityId(i, s.slots[i].generation);
    assert forall id :: s.IsLive(id) && s.slots[id.index].use.table in ts ==>
             EntityId(id.index, s.slots[id.index].generation) in r;
    r
  }

  /** `ids` once `id` has been put in or taken out. */
  function Joining(ids: set<EntityId>, id: EntityId, joins: bool): set<EntityId> {
    if joins then ids + {id} else ids - {id}
  }

  lemma SameResidents<T>(a: Slots<T>, b: Slots<T>, ts: set<T>)
    requires SameTables(a, b)
    ensures SameAllocator(a, b) && Residents(b, ts) == Residents(a, ts)
  {
  }

  /** Moving a live entity is nothing to the allocator. */
  lemma MovedResidents<T>(a: Slots<T>, b: Slots<T>, id: EntityId, t: T, ts: set<T>)
    requires a.IsLive(id) && SameTables(a.Place(id, t, 0), b)
    ensures SameAllocator(a, b) && Residents(b, ts) == Joining(Residents(a, ts), id, t in ts)
  {
  }

  lemma PlacedResidents<T>(s: Slots<T>, id: EntityId, t: T, row: nat, ts: set<T>)
    requires s.IsReserved(id) && t !in ts
    ensures Residents(s.Place(id, t, row), ts) == Residents(s, ts)
  {
  }

  lemma ReleasedResidents<T>(a: Slots<T>, b: Slots<T>, id: EntityId, ts: set<T>)
    requires a.IsLive(id) && SameTables(a.Release(id), b)
    ensures SameAllocator(a.Release(id), b) && Residents(b, ts) == Residents(a, ts) - {id}
  {
  }

  /** One entity moves, and another is freed. */
  lemma HandedResidents<T>(a: Slots<T>, b: Slots<T>, gone: EntityId, id: EntityId, t: T, ts: set<T>)
    requires a.IsLive(id) && a.IsLive(gone) && id != gone && SameTables(a.Place(id, t, 0).Release(gone), b)
    ensures SameAllocator(a.Release(gone), b) && Residents(b, ts) == Joining(Residents(a, ts), id, t in ts) - {gone}
  {
  }

  lemma ReservingResidents<T>(s: Slots<T>, n: nat, ts: set<T>)
    ensures Residents(Reserving(s, n), ts) == Residents(s, ts)
  {
    GrownResidents(s, Reserving(s, n), ts);
  }

  /** Slots that are added or not live do not count. */
  lemma GrownResidents<T>(a: Slots<T>, b: Slots<T>, ts: set<T>)
    requires |a.slots| <= |b.slots|
    requires forall i :: 0 <= i < |a.slots| && (a.slots[i].use.Live? || b.slots[i].use.Live?) ==>
               b.slots[i] == a.slots[i]
    requires forall i :: |a.slots| <= i < |b.slots| ==> !b.slots[i].use.Live?
    ensures Residents(b, ts) == Residents(a, ts)
  {
  }

  lemma AllocatedResidents<T>(s: Slots<T>, id: EntityId, after: Slots<T>, ts: set<T>)
    requires s.WellFormed() && Allocates(s, id, after)
    ensures Residents(after, ts) == Residents(s, ts)
  {
    GrowTargetGrows(|s.slots|);
    GrownResidents(s, after, ts);
  }

  lemma ClaimedResidents<T>(s: Slots<T>, id: EntityId, after: Slots<T>, ts: set<T>)
    requires s.WellFormed() && Claims(s, id, after)
    ensures Residents(after, ts) == Residents(s, ts)
  {
    GrownResidents(s, after, ts);
  }

  /** Every allocated slot has a row. */
  ghost predicate Settled<T>(s: Slots<T>) {
    forall i :: 0 <= i < |s.slots| ==> !s.slots[i].use.Reserved?
  }

  ghost predicate SettledBut<T>(s: Slots<T>, i: nat) {
    forall j :: 0 <= j < |s.slots| && j != i ==> !s.slots[j].use.Reserved?
  }

  lemma ClaimSettles<T>(s: Slots<T>, cap: nat, id: EntityId, at: nat)
    requires |s.slots| <= cap && id.index < cap && at < |s.Grow(cap).free| && s.Grow(cap).free[at] == id.index
    ensures Settled(s) ==> SettledBut(s.Grow(cap).Claim(id, at), id.index)
  {
  }

  lemma PlaceSettles<T>(s: Slots<T>, id: EntityId, t: T, row: nat)
    requires id.index < |s.slots|
    ensures SettledBut(s, id.index) ==> Settled(s.Place(id, t, row))
  {
  }

  /** The error for a slot that is taken: by this very handle, or by another generation. */
  function InsertFailure<T>(s: Slots<T>, id: EntityId): InsertError
    requires id.index < |s.slots|
  {
    if s.slots[id.index].generation == id.generation then AlreadyInserted(id) else Taken(id)
  }

  /** `free.len() <= cap`: what makes the walk over the list finite. */
  lemma {:induction false} DistinctBelow(s: seq<nat>, n: nat)
    requires Distinct(s) && forall k :: 0 <= k < |s| ==> s[k] < n
    ensures |s| <= n
    decreases n
  {
    if s != [] {
      assert s[0] < n;
      if n - 1 in s {
        var k :| 0 <= k < |s| && s[k] == n - 1;
        DistinctBelow(RemoveAt(s, k), n - 1);
      } else {
        forall k | 0 <= k < |s| ensures s[k] < n - 1 { assert s[k] in s; }
        DistinctBelow(s, n - 1);
      }
    }
  }

  // ---------------------------------------------------------------- the operations keep it well formed

  lemma GrowWellFormed<T>(s: Slots<T>, cap: nat)
    requires s.WellFormed() && |s.slots| <= cap < INDEX_MASK
    ensures s.Grow(cap).WellFormed()
  {
    var g := s.Grow(cap);
    var fresher := Range(|s.slots|, cap);
    assert forall k :: 0 <= k < |s.free| ==> g.free[|fresher| + k] == s.free[k];
    forall i | 0 <= i < |g.slots| && g.slots[i].use.Free? ensures i in g.free {
      if i >= |s.slots| { assert g.free[i - |s.slots|] == i; }
    }
  }

  lemma AllocateWellFormed<T>(s: Slots<T>)
    requires s.WellFormed() && s.free != []
    ensures s.Allocate().WellFormed()
  {
    var a := s.Allocate();
    forall i | 0 <= i < |a.slots| && a.slots[i].use.Free? ensures i in a.free {
      var k :| 0 <= k < |s.free| && s.free[k] == i;
      assert a.free[k - 1] == i;
    }
  }

  /** What is left on the list is free, once each. */
  lemma ClaimedListed<T>(s: Slots<T>, id: EntityId, at: nat)
    requires s.WellFormed() && at < |s.free| && s.free[at] == id.index
    ensures Distinct(RemoveAt(s.free, at)) && id.index !in RemoveAt(s.free, at)
    ensures forall k :: 0 <= k < |s.free| - 1 ==>
              RemoveAt(s.free, at)[k] < |s.slots| && s.slots[RemoveAt(s.free, at)[k]].use.Free?
  {
  }

  lemma ClaimWellFormed<T>(s: Slots<T>, id: EntityId, at: nat)
    requires s.WellFormed() && at < |s.free| && s.free[at] == id.index && id.generation <= GEN_MASK
    ensures s.Claim(id, at).WellFormed()
  {
    var c := s.Claim(id, at);
    ClaimedListed(s, id, at);
    hide Distinct;
    forall i | 0 <= i < |c.slots| && c.slots[i].use.Free? ensures i in c.free {
      assert s.slots[i].use.Free?;
      RemoveAtKeeps(s.free, at, i);
    }
  }

  lemma ReleaseWellFormed<T>(s: Slots<T>, id: EntityId)
    requires s.WellFormed() && s.IsAllocated(id)
    ensures s.Release(id).WellFormed()
  {
    var r := s.Release(id);
    forall i | 0 <= i < |r.slots| && r.slots[i].use.Free? ensures i in r.free {
      if i == id.index {
        assert r.free[0] == i;
      } else {
        var k :| 0 <= k < |s.free| && s.free[k] == i;
        assert r.free[k + 1] == i;
      }
    }
  }

  /** An allocated slot leaves room: the free list does not fill the array. */
  lemma AllocatedMeansCounted<T>(s: Slots<T>, i: nat)
    requires s.WellFormed() && i < |s.slots| && !s.slots[i].use.Free?
    ensures |s.free| < |s.slots|
  {
    var all := s.free + [i];
    DistinctBelow(all, |s.slots|);
  }

  // ---------------------------------------------------------------- growth in `f32`

  /** The nearest `f32` to a natural below 2^26: 24 bits of mantissa, ties to even. */
  function RoundF32(x: nat): nat
    requires x < 0x400_0000
  {
    if x < 0x100_0000 then x
    else if x < 0x200_0000 then
      var q := x / 2;
      if x % 2 == 0 || q % 2 == 0 then q * 2 else q * 2 + 2
    else
      var q := x / 4;
      if x % 4 < 2 || (x % 4 == 2 && q % 2 == 0) then q * 4 else q * 4 + 4
  }

  /** `(cap as f32 * 3.0 / 2.0).ceil() as u32`. */
  function GrowTarget(cap: nat): nat
    requires cap < INDEX_MASK
  {
    (RoundF32(cap * 3) + 1) / 2
  }

  /** Growing by half really grows, despite the rounding, and is within one of the real target. */
  lemma GrowTargetGrows(cap: nat)
    requires 1 <= cap < INDEX_MASK
    ensures cap < GrowTarget(cap)
    ensures 3 * cap - 2 <= 2 * GrowTarget(cap) <= 3 * cap + 3
    ensures 3 * cap <= 0x100_0000 ==> GrowTarget(cap) == (3 * cap + 1) / 2
  {
  }

  // ---------------------------------------------------------------- the entry array

  /** `rowIndex` is the row of a live entity and the next link of a free slot. */
  datatype Entry<T> = Entry(generation: nat, arch: Option<T>, rowIndex: nat)

  /** The `k`-th link of a list threaded through the entries. */
  function Link(free: seq<nat>, k: nat): nat {
    if k < |free| then free[k] else SENTINEL
  }

  ghost predicate Threaded<T>(entries: seq<Entry<T>>, free: seq<nat>) {
    && (forall k :: 0 <= k < |free| ==> free[k] < |entries|)
    && (forall k {:trigger entries[free[k]]} :: 0 <= k < |free| ==> entries[free[k]].rowIndex == Link(free, k + 1))
  }

  ghost predicate Represents<T>(e: Entry<T>, s: Slot<T>) {
    && e.generation == s.generation
    && match s.use
       case Live(t, row) => e.arch == Some(t) && e.rowIndex == row
       case _ => e.arch.None?
  }

  /** What ties the concrete fields to the abstract state. */
  ghost predicate Coherent<T>(entries: seq<Entry<T>>, count: nat, freeList: nat, state: Slots<T>) {
    && state.WellFormed()
    && |entries| == |state.slots|
    && count + |state.free| == |entries|
    && freeList == Link(state.free, 0)
    && Threaded(entries, state.free)
    && (forall i :: 0 <= i < |entries| ==> Represents(entries[i], state.slots[i]))
  }

  /** The initial state: every slot free, allocated in index order. */
  function Fresh<T>(cap: nat): Slots<T> {
    Slots(seq(cap, _ => Slot(0, Use<T>.Free)), Range(0, cap))
  }

  lemma FreshWellFormed<T>(cap: nat)
    requires 1 <= cap < INDEX_MASK
    ensures Fresh<T>(cap).WellFormed()
  {
    var f := Fresh<T>(cap);
    forall i | 0 <= i < |f.slots| ensures i in f.free { assert f.free[i] == i; }
  }

  lemma FreshCoherent<T>(entries: seq<Entry<T>>)
    requires 1 <= |entries| < INDEX_MASK
    requires forall i :: 0 <= i < |entries| ==>
      entries[i] == Entry(0, None, if i == |entries| - 1 then SENTINEL else i + 1)
    ensures Coherent(entries, 0, 0, Fresh(|entries|))
  {
    FreshWellFormed<T>(|entries|);
  }

  lemma Sized<T>(entries: seq<Entry<T>>, count: nat, freeList: nat, state: Slots<T>)
    requires Coherent(entries, count, freeList, state)
    ensures 1 <= |entries| == |state.slots| < INDEX_MASK
  {
  }

  lemma CountOf<T>(entries: seq<Entry<T>>, count: nat, freeList: nat, state: Slots<T>)
    requires Coherent(entries, count, freeList, state)
    ensures count + |state.free| == |state.slots|
  {
  }

  lemma GrowThreaded<T>(e: seq<Entry<T>>, free: seq<nat>, e': seq<Entry<T>>)
    requires Threaded(e, free) && |e| < |e'|
    requires forall i :: 0 <= i < |e| ==> e'[i] == e[i]
    requires forall i :: |e| <= i < |e'| ==> e'[i].rowIndex == if i == |e'| - 1 then Link(free, 0) else i + 1
    ensures Threaded(e', Range(|e|, |e'|) + free)
  {
    var longer := Range(|e|, |e'|) + free;
    var added := |e'| - |e|;
    forall k | 0 <= k < |longer| ensures longer[k] < |e'| && e'[longer[k]].rowIndex == Link(longer, k + 1) {
      if k < added {
        assert longer[k] == |e| + k;
        assert k + 1 == added ==> Link(longer, k + 1) == Link(free, 0);
      } else {
        assert longer[k] == free[k - added];
        assert Link(longer, k + 1) == Link(free, k - added + 1);
      }
    }
  }

  lemma GrowCoherent<T>(e: seq<Entry<T>>, count: nat, head: nat, s: Slots<T>, e': seq<Entry<T>>)
    requires Coherent(e, count, head, s) && |e| < |e'| < INDEX_MASK
    requires forall i :: 0 <= i < |e'| ==>
      e'[i] == if i < |e| then e[i] else Entry(0, None, if i == |e'| - 1 then head else i + 1)
    ensures Coherent(e', count, |e|, s.Grow(|e'|))
  {
    GrowWellFormed(s, |e'|);
    GrowThreaded(e, s.free, e');
  }

  /** Unlinking the `k`-th element: its predecessor (or the head) takes over its link. */
  function Unlinked<T>(e: seq<Entry<T>>, free: seq<nat>, k: nat, id: EntityId): seq<Entry<T>>
    requires k < |free| && free[k] == id.index < |e| && (k > 0 ==> free[k - 1] < |e|)
  {
    (if k == 0 then e else e[free[k - 1] := e[free[k - 1]].(rowIndex := e[id.index].rowIndex)])
    [id.index := Entry(id.generation, None, SENTINEL)]
  }

  lemma UnlinkedThreaded<T>(e: seq<Entry<T>>, free: seq<nat>, k: nat, id: EntityId)
    requires Threaded(e, free) && Distinct(free) && k < |free| && free[k] == id.index
    ensures Threaded(Unlinked(e, free, k, id), RemoveAt(free, k))
  {
    var rest := RemoveAt(free, k);
    var e' := Unlinked(e, free, k, id);
    forall j | 0 <= j < |rest| ensures e'[rest[j]].rowIndex == Link(rest, j + 1) {
      var o := if j < k then j else j + 1;
      assert rest[j] == free[o] != free[k];
      if o + 1 == k {
        assert Link(rest, j + 1) == Link(free, k + 1);
      } else {
        assert k > 0 ==> free[o] != free[k - 1];
        assert Link(rest, j + 1) == Link(free, o + 1);
      }
    }
  }

  lemma ClaimCoherent<T>(e: seq<Entry<T>>, count: nat, head: nat, s: Slots<T>, id: EntityId, k: nat)
    requires Coherent(e, count, head, s) && k < |s.free| && s.free[k] == id.index && id.generation <= GEN_MASK
    ensures id.index < |e| && (k > 0 ==> s.free[k - 1] < |e| && s.free[k - 1] != id.index)
    ensures Coherent(Unlinked(e, s.free, k, id), count + 1, if k == 0 then e[id.index].rowIndex else head,
                     s.Claim(id, k))
  {
    ClaimWellFormed(s, id, k);
    FreeApart(s, k);
    UnlinkedThreaded(e, s.free, k, id);
    hide Slots.WellFormed, Distinct;
    UnlinkedRepresents(e, s, id, k);
    hide Threaded, Represents, Unlinked;
  }

  lemma FreeApart<T>(s: Slots<T>, k: nat)
    requires s.WellFormed() && k < |s.free|
    ensures Distinct(s.free) && s.free[k] < |s.slots|
    ensures k > 0 ==> s.free[k - 1] < |s.slots| && s.free[k - 1] != s.free[k] && s.slots[s.free[k - 1]].use.Free?
  {
  }

  lemma UnlinkedRepresents<T>(e: seq<Entry<T>>, s: Slots<T>, id: EntityId, k: nat)
    requires |e| == |s.slots| && k < |s.free| && s.free[k] == id.index < |e|
    requires k > 0 ==> s.free[k - 1] < |e| && s.slots[s.free[k - 1]].use.Free?
    requires forall i :: 0 <= i < |e| ==> Represents(e[i], s.slots[i])
    ensures var u := Unlinked(e, s.free, k, id);
            |u| == |e| && forall i :: 0 <= i < |u| ==> Represents(u[i], s.Claim(id, k).slots[i])
  {
  }

  /** Popping the head is unlinking the first element. */
  lemma AllocateCoherent<T>(e: seq<Entry<T>>, count: nat, head: nat, s: Slots<T>)
    requires Coherent(e, count, head, s) && s.free != []
    ensures Coherent(e[head := Entry(e[head].generation, None, SENTINEL)], count + 1, e[head].rowIndex, s.Allocate())
  {
    ClaimCoherent(e, count, head, s, s.NextId(), 0);
    assert RemoveAt(s.free, 0) == s.free[1..];
  }

  lemma PushThreaded<T>(e: seq<Entry<T>>, free: seq<nat>, i: nat, entry: Entry<T>)
    requires Threaded(e, free) && i < |e| && i !in free && entry.rowIndex == Link(free, 0)
    ensures Threaded(e[i := entry], [i] + free)
  {
    var longer := [i] + free;
    forall k | 0 < k < |longer| ensures longer[k] != i && e[longer[k]].rowIndex == Link(longer, k + 1) {
      assert longer[k] == free[k - 1];
      assert Link(longer, k + 1) == Link(free, k);
    }
  }

  lemma ReleaseCoherent<T>(e: seq<Entry<T>>, count: nat, head: nat, s: Slots<T>, id: EntityId)
    requires Coherent(e, count, head, s) && s.IsAllocated(id)
    ensures count > 0 && id.index < |e| && e[id.index].generation == id.generation
    ensures Coherent(e[id.index := Entry((id.generation + 1) % (GEN_MASK + 1), None, head)], count - 1, id.index,
                     s.Release(id))
  {
    AllocatedMeansCounted(s, id.index);
    ReleaseWellFormed(s, id);
    PushThreaded(e, s.free, id.index, Entry((id.generation + 1) % (GEN_MASK + 1), None, head));
    RepresentsFreed(e, s, id, head);
    hide Slots.WellFormed, Threaded, Represents;
  }

  lemma ReleaseMeans<T>(s: Slots<T>, id: EntityId)
    requires id.index < |s.slots|
    ensures s.Release(id).slots == s.slots[id.index := Slot((id.generation + 1) % 256, Use<T>.Free)]
    ensures s.Release(id).free == [id.index] + s.free
  {
  }

  lemma RepresentsFreed<T>(e: seq<Entry<T>>, s: Slots<T>, id: EntityId, head: nat)
    requires id.index < |e| == |s.slots| && e[id.index].generation == id.generation <= GEN_MASK
    requires forall i :: 0 <= i < |e| ==> Represents(e[i], s.slots[i])
    ensures var freed := e[id.index := Entry((id.generation + 1) % (GEN_MASK + 1), None, head)];
            forall i :: 0 <= i < |freed| ==> Represents(freed[i], s.Release(id).slots[i])
  {
  }

  lemma PlaceCoherent<T>(e: seq<Entry<T>>, count: nat, head: nat, s: Slots<T>, id: EntityId, table: T, row: nat)
    requires Coherent(e, count, head, s) && s.IsAllocated(id)
    ensures Coherent(e[id.index := Entry(id.generation, Some(table), row)], count, head, s.Place(id, table, row))
  {
  }

  class EntityIndex<T> {
    var entries: array<Entry<T>>
    var count: nat
    var freeList: nat
    ghost var state: Slots<T>

    ghost predicate Valid()
      reads this, entries
    {
      Coherent(entries[..], count, freeList, state)
    }

    constructor (initialCapacity: nat)
      requires initialCapacity < INDEX_MASK
      ensures Valid() && fresh(entries) && count == 0
      ensures entries.Length == if initialCapacity == 0 then 1 else initialCapacity
      ensures state == Fresh(if initialCapacity == 0 then 1 else initialCapacity)
    {
      var cap := if initialCapacity == 0 then 1 else initialCapacity;
      entries := new Entry<T>[cap](i requires 0 <= i => Entry(0, None, i + 1));
      freeList := 0;
      count := 0;
      state := Fresh(cap);
      new;
      entries[cap - 1] := entries[cap - 1].(rowIndex := SENTINEL);
      FreshCoherent(entries[..]);
    }

    /** A copy with an array of its own. */
    method Clone() returns (r: EntityIndex<T>)
      requires Valid()
      ensures fresh(r) && fresh(r.entries) && r.Valid() && r.state == state
    {
      hide Coherent, Fresh;
      var cap := entries.Length;
      Sized(entries[..], count, freeList, state);
      r := new EntityIndex(cap);
      var copy := r.entries;
      for i := 0 to cap
        invariant copy.Length == cap && copy[..i] == entries[..i]
        modifies copy
      {
        copy[i] := entries[i];
      }
      assert copy[..] == entries[..];
      r.freeList, r.count, r.state := freeList, count, state;
    }

    /** Pushes the slots `cap..newCap` in front of the free list; no entry changes its meaning. */
    method Grow(newCap: nat)
      requires Valid()
      requires entries.Length < newCap < INDEX_MASK
      modifies this
      ensures Valid() && fresh(entries)
      ensures state == old(state).Grow(newCap) && count == old(count)
    {
      var cap := entries.Length;
      var grown := new Entry<T>[newCap](i requires 0 <= i reads this, entries =>
        if i < entries.Length then entries[i] else Entry(0, None, i + 1));
      grown[newCap - 1] := grown[newCap - 1].(rowIndex := freeList);
      GrowCoherent(entries[..], count, freeList, state, grown[..]);
      entries, freeList, state := grown, cap, state.Grow(newCap);
    }

    method FreeListPop() returns (r: Option<nat>)
      requires Valid()
      modifies `freeList
      ensures state.free == [] ==> r == None && freeList == old(freeList)
      ensures state.free != [] ==> r == Some(old(freeList)) && freeList == entries[old(freeList)].rowIndex
    {
      if freeList == SENTINEL {
        return None;
      }
      r := Some(freeList);
      freeList := entries[freeList].rowIndex;
    }

    /** Fails exactly when every slot is taken; otherwise hands out the head of the free list. */
    method Allocate() returns (r: Result<EntityId, HandleTableError>)
      requires Valid()
      modifies this, entries
      ensures Valid() && entries == old(entries)
      ensures r.Ok? <==> old(state).free != []
      ensures r.Err? ==> r.error == OutOfCapacity && state == old(state) && count == entries.Length
      ensures r.Ok? ==> r.value == old(state).NextId() && state == old(state).Allocate()
      ensures r.Ok? ==> var index, was := old(state).free[0], old(state);
                        && r.value == EntityId(index, was.slots[index].generation) && state.free == was.free[1..]
                        && state.slots == was.slots[index := Slot(was.slots[index].generation, Reserved)]
    {
      ghost var before := entries[..];
      var popped := FreeListPop();
      match popped
      case None =>
        // an empty free list means that every slot is in use
        r := Err(OutOfCapacity);
      case Some(index) =>
        AllocateCoherent(before, count, index, state);
        state := state.Allocate();
        var id := InitAllocatedId(index);
        r := Ok(id);
    }

    method InitAllocatedId(index: nat) returns (id: EntityId)
      requires index < entries.Length
      modifies `count, entries
      ensures count == old(count) + 1
      ensures entries[..] == old(entries[..])[index := Entry(old(entries[index].generation), None, SENTINEL)]
      ensures id == EntityId(index, old(entries[index].generation))
    {
      count := count + 1;
      entries[index] := Entry(entries[index].generation, None, SENTINEL);
      id := EntityId(index, entries[index].generation);
    }

    /** The `unwrap` never fails: the list is refilled before it is popped. */
    method AllocateWithResize() returns (id: EntityId)
      requires Valid() && state.CanAllocate()
      modifies this, entries
      ensures Valid() && (entries == old(entries) || fresh(entries))
      ensures Allocates(old(state), id, state)
    {
      if freeList == SENTINEL && count == entries.Length {
        GrowTargetGrows(entries.Length);
        Grow(GrowTarget(entries.Length));
      }
      var r := Allocate();
      id := r.value;
    }

    /** Succeeds exactly on a free slot (growing up to it), anywhere in the list. */
    method InsertId(id: EntityId) returns (r: Result<(), InsertError>)
      requires Valid()
      requires id.generation <= GEN_MASK
      requires id.index < entries.Length || id.index + 1 < INDEX_MASK
      modifies this, entries
      ensures Valid() && (entries == old(entries) || fresh(entries))
      ensures var grown := Spanning(old(state), id.index);
              && id.index < |grown.slots|
              && (r.Ok? <==> grown.slots[id.index].use.Free?)
              && (r.Ok? ==> id.index in grown.free && state == Seized(grown, id))
              && (r.Err? ==> state == old(state) && r.error == InsertFailure(old(state), id))
      ensures r.Ok? <==> id.index >= |old(state).slots| || old(state).slots[id.index].use.Free?
      ensures r.Err? ==>
                r.error == if old(state).slots[id.index].generation == id.generation then AlreadyInserted(id)
                           else Taken(id)
    {
      var needle := id.index;
      if needle < entries.Length && entries[needle].arch.Some? {
        if entries[needle].generation == id.generation {
          return Err(AlreadyInserted(id));
        } else {
          return Err(Taken(id));
        }
      }
      if needle >= entries.Length {
        Grow(needle + 1);
      }
      ghost var grown := state;
      var found := Unlink(needle, id);
      if found {
        SeizedSomewhere(grown, id, state);
        return Ok(());
      }
      if entries[needle].generation == id.generation {
        return Err(AlreadyInserted(id));
      } else {
        return Err(Taken(id));
      }
    }

    /** The walk over the free list inside `insert_id`. */
    method Unlink(needle: nat, id: EntityId) returns (found: bool)
      requires Valid() && needle == id.index < entries.Length && id.generation <= GEN_MASK
      modifies this, entries
      ensures Valid() && entries == old(entries)
      ensures found <==> old(state).slots[needle].use.Free?
      ensures found ==>
                exists at :: 0 <= at < |old(state).free| && old(state).free[at] == needle
                             && state == old(state).Claim(id, at)
      ensures !found ==> state == old(state)
    {
      // `link` is the entry whose `rowIndex` is being looked at; `None` is the list head
      var link: Option<nat> := None;
      var next := freeList;
      ghost var k := 0;
      while next != SENTINEL
        invariant 0 <= k <= |state.free| && next == Link(state.free, k)
        invariant link == if k == 0 then None else Some(state.free[k - 1])
        invariant forall j :: 0 <= j < k ==> state.free[j] != needle
        decreases |state.free| - k
      {
        if next == needle {
          Splice(link, id, k);
          return true;
        }
        link := Some(next);
        next := entries[next].rowIndex;
        k := k + 1;
      }
      return false;
    }

    /** Takes the `k`-th free slot off the list; `link` is its predecessor. */
    method Splice(link: Option<nat>, id: EntityId, ghost k: nat)
      requires Valid() && id.generation <= GEN_MASK
      requires k < |state.free| && state.free[k] == id.index
      requires link == if k == 0 then None else Some(state.free[k - 1])
      modifies this, entries
      ensures Valid() && entries == old(entries)
      ensures state == old(state).Claim(id, k)
    {
      hide Coherent, Slots.WellFormed, Slots.Claim;
      ClaimCoherent(entries[..], count, freeList, state, id, k);
      Sized(entries[..], count, freeList, state);
      ghost var after := Unlinked(entries[..], state.free, k, id);
      var needle := id.index;
      var rest := entries[needle].rowIndex;
      match link {
        case None => freeList := rest;
        case Some(prev) => entries[prev] := entries[prev].(rowIndex := rest);
      }
      var _ := InitAllocatedId(needle);
      entries[needle] := entries[needle].(generation := id.generation);
      assert entries[..] == after;
      state := state.Claim(id, k);
    }

    method Reserve(additional: nat)
      requires Valid()
      requires count + additional < INDEX_MASK
      modifies this
      ensures Valid() && (entries == old(entries) || fresh(entries))
      ensures state == Reserving(old(state), additional) && count == old(count)
      ensures |state.free| >= additional
    {
      if count + additional > entries.Length {
        Grow(count + additional);
      }
    }

    method Update(id: EntityId, table: T, row: nat)
      requires Valid() && state.IsAllocated(id)
      modifies `state, entries
      ensures Valid() && state == old(state).Place(id, table, row)
    {
      PlaceCoherent(entries[..], count, freeList, state, id, table, row);
      entries[id.index] := entries[id.index].(arch := Some(table), rowIndex := row);
      state := state.Place(id, table, row);
    }

    method UpdateRowIndex(id: EntityId, row: nat)
      requires Valid() && state.IsLive(id)
      modifies `state, entries
      ensures Valid() && state == old(state).Place(id, old(state).slots[id.index].use.table, row)
    {
      PlaceCoherent(entries[..], count, freeList, state, id, state.slots[id.index].use.table, row);
      entries[id.index] := entries[id.index].(rowIndex := row);
      state := state.Place(id, state.slots[id.index].use.table, row);
    }

    method Free(id: EntityId)
      requires Valid() && state.IsAllocated(id)
      modifies this, entries
      ensures Valid() && entries == old(entries)
      ensures state == old(state).Release(id)
      ensures state.slots == old(state).slots[id.index := Slot((id.generation + 1) % 256, Use<T>.Free)]
      ensures state.free == [id.index] + old(state).free
    {
      ReleaseMeans(state, id);
      hide Coherent, Slots.WellFormed, Slots.Release;
      ReleaseCoherent(entries[..], count, freeList, state, id);
      entries[id.index] := Entry((entries[id.index].generation + 1) % (GEN_MASK + 1), None, freeList);
      count, freeList, state := count - 1, id.index, state.Release(id);
    }

    predicate IsValid(id: EntityId)
      requires Valid()
      reads this, entries
      ensures IsValid(id) == state.IsLive(id)
    {
      id.index < entries.Length && entries[id.index].generation == id.generation && entries[id.index].arch.Some?
    }

    function Read(id: EntityId): (r: Result<(T, nat), HandleTableError>)
      requires Valid()
      reads this, entries
      ensures r == if state.IsLive(id) then Ok((state.slots[id.index].use.table, state.slots[id.index].use.row))
                   else Err(NotFound)
    {
      if IsValid(id) then Ok((entries[id.index].arch.value, entries[id.index].rowIndex)) else Err(NotFound)
    }
  }
}
