# Verified model of cecs

cecs is an archetype-based entity component system. This project models its two central
mechanisms in Dafny and proves what they are for.

**The archetype store.** The abstract meaning of a world is a map from entity ids to components.
The implementation keeps one column-major table per set of component types, deletes by
swap-remove, finds an entity through a slot array whose free slots form an intrusive linked list,
and repairs the slot of whatever entity a structural operation displaces. The classes
`EntityIndex`, `Column`, `EntityTable` and `World` follow the source's objects field by field; each
carries a ghost abstraction, and every method is tied to a function on it. `Stores`, `Merges`,
`Filings` and `Clones` prove, on that abstraction, that each operation is exactly the intended
update of the map and leaves every other entity alone.

**Stage execution.** Systems are sorted topologically (`Systems`), conflicts and explicit orderings
become the edges of a job graph (`Schedules`), and a pool of workers runs the graph with counters,
queues, wait lists and stealing (`Pools`, a state machine whose steps are the atomic actions of the
threads; `Executors` is one worker's turn as a program over it). `Stages` proves that every run of
the pool ends in the state of the serial run.

**On top.** `Effects` and `Commands` (deferred entity commands, one by one and as whole buffers: on
the map, the allocator and the layout of the archetypes a buffer is a function, and so is whom the
sweep after it loses), `Layouts` (which entities are in staging archetypes, and what follows from
it), `Handles` (generations over whole runs), `Queries` (iteration against fetching, batching),
`Persistence` (save and load), `MapReduce` and `Reductions` (one schedule as a program, all of them
as a state machine), and `Scenarios` (runs from a new world to the states in which an operation
does not keep its promise).

| file | models |
|---|---|
| Wrappers.dfy, TypeIds.dfy, Seqs.dfy | options and results, type identities, sequences and swap-remove |
| EntityIds.dfy | src/entity_id.rs |
| EntityIndexes.dfy, Handles.dfy | src/entity_index.rs |
| Tables.dfy | src/table.rs, src/bundle.rs |
| Stores.dfy, Merges.dfy, Filings.dfy, Layouts.dfy, Clones.dfy | the store of src/lib.rs as a value |
| Families.dfy, Worlds.dfy | `World` of src/lib.rs on the heap |
| Effects.dfy, Commands.dfy | src/commands.rs, and `apply_commands` of src/lib.rs |
| Scenarios.dfy | runs of `World` |
| Queries.dfy, Accesses.dfy | src/query.rs |
| Persistence.dfy | src/serde.rs |
| Systems.dfy, Schedules.dfy | src/systems.rs, src/scheduler.rs |
| Pools.dfy, Executors.dfy, MapReduce.dfy, Reductions.dfy | src/job_system.rs |
| Stages.dfy | `execute_stage` of src/lib.rs |

## Assumptions

- Type hashes combine by exclusive or. A key is modelled as a finite set of non-unit types under
  symmetric difference: distinct sets of types are taken to have distinct hashes.
- A bundle lists each type that the entity lacks an odd number of times, as every bundle of distinct
  types does: the hashes of a type that is listed twice cancel, the bundle then looks for an
  archetype without that type, and if there is one `set_component` panics on it (src/table.rs:171).
  The unit type `()` is never removed from an entity: its hash is zero.
- Counts that the source keeps in a `u32` are unbounded here; the 24-bit limit of indices and the
  8-bit generations are modelled. The growth of the index, computed in `f32` in the source, is
  modelled with its rounding (`GrowTarget`).
- Where the source panics or asserts, the method has a precondition or returns an error. In a
  debug build `from_stage` also asserts that the first system names no predecessor at all, even one
  of another stage (src/scheduler.rs:37); the model has no such restriction.
- Atomic operations are sequentially consistent, and each is one step.

## Results that differ from what the source's own text promises

- `merge_entities` of two entities of one type (src/lib.rs:751-760) swaps the components and the
  row indices but not the entity list, so the swaps cancel. `Merges.SwapMergeAgrees` gives the
  exact outcome: the store stays whole only if the two are in different tables with the same key
  and in the same row, and then `rhs` receives nothing. `Merges.SwapMergeIsMerge` says when that is
  the promised merge, `Merges.CalmSwapBreaks` that it never is in a calm world, and
  `Scenarios.MergeBreaks` gets there from a new world with two entities.
- `remove_component` and `merge_entities` look for their target among the live archetypes only
  (src/lib.rs:430, src/lib.rs:806-809), while `set_bundle` also fills staging archetypes
  (src/lib.rs:320-325). When the target is staged with rows, the next sweep drops a table that
  holds entities. `World.Sweep` says exactly when a sweep is harmless and whom it loses otherwise:
  those in live archetypes who have an entity of their type in staging. `Commands.ApplyCommands`
  says the same of a whole buffer, from the commands and the state before the call alone.
  `Scenarios.SweepLosesEntity` is a run from a new world to a sweep that loses an entity, and
  `Scenarios.BufferLosesEntity` one to a single `apply_commands`, of two insertions that both
  succeed, that loses one of the two. `World.RemoveComponent` and `World.MergeEntities` say exactly
  when they leave the world in a condition (`Calm`) that a sweep tolerates. All other operations
  keep that condition.
- While a staging archetype has rows, a clone is not a whole world (`World.Clone`), neither is what
  `vacuum` leaves (`World.Vacuum`): both lose exactly the entities in staging. And a query does not
  see the entities of that archetype although `fetch` does (`Queries.StagedIsMissed`). `Queries.StagedExample` is a store for which all of this
  is so, and `Scenarios.StageEntity` a run that leads there. A caller gets there through
  `apply_commands`: it returns at the first command that fails (src/lib.rs:235) and skips the sweep,
  after earlier commands of the buffer have put entities into staging archetypes.

## Model

| member | source | states |
|---|---|---|
| `EntityIds.PackRoundTrip` | src/entity_id.rs:18-43 | packing and the two getters are inverse to each other, on all handles in range and on all words |
| `EntityIds.PackOrder` | src/entity_id.rs:18-43 | the order of packed words is the lexicographic order of (index, generation) |
| `EntityIndexes.GrowTargetGrows` | src/entity_index.rs:157-164 | despite the rounding of `f32`, the new capacity is larger than the old one and within a slot and a half of three halves of it; up to 2^24 it is three halves, rounded up |
| `EntityIndexes.DistinctBelow` | src/entity_index.rs:166-204 | a free list without repetitions is no longer than the array: the walk over it ends |
| `EntityIndexes.GrowWellFormed` | src/entity_index.rs:102-141 | growing keeps the free list equal to the set of free slots, each once |
| `EntityIndexes.AllocateWellFormed` | src/entity_index.rs:206-231 | so does allocating |
| `EntityIndexes.ClaimWellFormed` | src/entity_index.rs:166-204 | so does taking a slot out of the middle of the list |
| `EntityIndexes.ReleaseWellFormed` | src/entity_index.rs:282-295 | so does freeing |
| `EntityIndexes.AllocatedMeansCounted` | src/entity_index.rs:282-295 | an allocated slot leaves the free list shorter than the array, so the count that `free` decrements is positive |
| `EntityIndexes.GrowCoherent` | src/entity_index.rs:102-141 | the new slots, linked in front of the old head, thread the grown free list through the entries |
| `EntityIndexes.GrowMeans` | src/entity_index.rs:102-141 | the new slots are free, in front of the free list and in index order; every other slot and the rest of the list are as before |
| `EntityIndexes.SeizedMeans` | src/entity_index.rs:181-196 | the claimed slot is reserved under the given id and off the free list, and nothing else changes |
| `EntityIndexes.ClaimCoherent` | src/entity_index.rs:181-196 | relinking the predecessor of the found slot threads the list without that slot |
| `EntityIndexes.ReleaseCoherent` | src/entity_index.rs:87-91 | pushing the freed slot threads the list with it in front |
| `EntityIndexes.EntityIndex.constructor` | src/entity_index.rs:57-85 | at least one slot, all free, allocated in index order |
| `EntityIndexes.EntityIndex.Clone` | src/entity_index.rs:41-49 | a new array with the same slots and the same free list |
| `EntityIndexes.EntityIndex.Grow` | src/entity_index.rs:102-141 | adds free slots in front of the list, changes no existing slot, keeps the count |
| `EntityIndexes.EntityIndex.Allocate` | src/entity_index.rs:206-231 | hands out the head of the free list with its generation; fails exactly when every slot is taken |
| `EntityIndexes.EntityIndex.AllocateWithResize` | src/entity_index.rs:157-164 | never fails below the capacity limit: an empty list is refilled first |
| `EntityIndexes.EntityIndex.InsertId` | src/entity_index.rs:166-204 | succeeds exactly when the slot is free (growing up to it), adopts the generation, and otherwise tells an equal handle from a different generation; `AlreadyInserted` exactly if the slot has the generation of the id, and `Taken` otherwise |
| `EntityIndexes.EntityIndex.Unlink` | src/entity_index.rs:181-196 | the walk finds the slot exactly when it is free, wherever it is in the list, and ends |
| `EntityIndexes.EntityIndex.Reserve` | src/entity_index.rs:233-239 | afterwards that many free slots are left |
| `EntityIndexes.EntityIndex.Update` | src/entity_index.rs:243-253 | makes an allocated slot live at the given table and row, and changes no other |
| `EntityIndexes.EntityIndex.UpdateRowIndex` | src/entity_index.rs:257-265 | changes the row of one live slot only |
| `EntityIndexes.EntityIndex.Free` | src/entity_index.rs:282-295 | next generation modulo 256, slot in front of the free list; spelled out for the slot and the list |
| `EntityIndexes.EntityIndex.IsValid` | src/entity_index.rs:297-304 | valid means live under this very generation |
| `EntityIndexes.EntityIndex.Read` | src/entity_index.rs:273-280 | table and row of a live id, an error for any other |
| `Handles.GenerationCounts` | src/entity_index.rs:221-231 | over any run without `insert_id`, a slot's generation is its first one plus the number of its frees, modulo 256 |
| `Handles.StaleHandles` | src/entity_index.rs:297-304 | over any such run, a handle that was allocated is valid later if and only if its slot is live and was freed a multiple of 256 times since |
| `Handles.AllocationIsFresh` | src/entity_index.rs:206-231 | a handle that is handed out shares its index with no allocated handle |
| `Handles.FreedIsNext` | src/entity_index.rs:87-91 | the slot that is freed last is handed out next, under the next generation |
| `Handles.RunsFurther` | src/entity_index.rs:102-141 | any run of the allocator goes on with any growth below the limit, allocation from a list that is not empty, placement or release of an allocated id |
| `Tables.Column.Push` | src/table.rs:407-430 | appends one value; reallocation loses and reorders nothing |
| `Tables.Column.SwapRemove` | src/table.rs:431-447 | returns the value and fills the hole with the last one |
| `Tables.Column.Clone` | src/table.rs:353-364 | the same values in a buffer of its own |
| `Seqs.SwapRemoveContents` | src/table.rs:431-447 | swap-removal loses exactly one occurrence of one element |
| `Tables.EntityTable.Remove` | src/table.rs:93-101 | the row leaves every column and the entity list together, and the entity that took its place is reported, if any |
| `Tables.EntityTable.InsertEntity` | src/table.rs:103-110 | a new last row for the entity; the columns are untouched |
| `Tables.EntityTable.MoveEntity` | src/table.rs:114-138 | the row arrives in the shared columns of the other table, unshared ones are dropped, and the displaced entity is reported |
| `Tables.EntityTable.MoveEntityInto` | src/table.rs:142-164 | the row overwrites the shared columns of the given row of the other table, which keeps its entities |
| `Tables.EntityTable.SetComponent` | src/table.rs:166-183 | overwrites a cell, or appends when the row is one past the end |
| `Tables.EntityTable.SwapComponents` | src/table.rs:228-233 | exchanges two rows of every column and leaves the entity list alone |
| `Tables.SwapCellsMeans` | src/table.rs:228-233 | two rows change places in every column, and no other cell and no entity moves |
| `Tables.EntityTable.Empty` | src/table.rs:66-76 | a complete table with the unit column only |
| `Tables.EntityTable.CloneEmpty` | src/table.rs:244-256 | a complete table with the same columns and no rows |
| `Tables.EntityTable.ExtendWithColumn` | src/table.rs:202-210 | one more column, without values; a complete table stays complete if and only if it had the column or has no rows |
| `Tables.EntityTable.ReduceWithColumn` | src/table.rs:235-242 | one column less, with its values; a complete table stays complete if and only if the column is not that of the unit type |
| `Tables.EntityTable.Merged` | src/table.rs:213-225 | an empty complete table with the columns of both |
| `Tables.EntityTable.Clone` | src/table.rs:27-38 | the same contents in columns of its own |
| `Tables.EntityTable.ComputeHash` | src/bundle.rs:13-21 | the key of the table that has this table's columns and those that the bundle lists an odd number of times |
| `Tables.DistinctCombines` | src/bundle.rs:13-21 | for a bundle of distinct types these are all its columns |
| `Tables.EntityTable.InsertBundle` | src/bundle.rs:28-31 | every component of the bundle is in the given row, the last one of each type, and no other cell changes |
| `Tables.LastWins` | src/bundle.rs:29-32 | a bundle sets each type that it lists to the value that it lists last |
| `Tables.ListedOnly` | src/bundle.rs:29-32 | a bundle sets no type that it does not list |
| `Tables.EntityTable.Extend` | src/bundle.rs:33-39 | an empty complete table with this table's columns and the bundle's, under the key that `ComputeHash` gives |
| `Stores.DetachView` | src/lib.rs:295-318 | taking a row out by swap-remove and repairing the displaced entry removes one entity from the map and nothing else |
| `Stores.AttachView` | src/lib.rs:283-293 | giving a reserved id a new last row adds exactly that entity with the components of the row |
| `Stores.RewriteView` | src/lib.rs:378-389 | a change confined to one row changes exactly the entity of that row |
| `Stores.DeleteView` | src/lib.rs:295-318 | the steps of `delete_entity` together remove the entity from the map and keep index and tables in agreement |
| `Stores.MoveView` | src/lib.rs:342-376 | moving a row, repairing the displaced entry and updating the mover's changes only the mover's components |
| `Stores.SetInPlaceView` | src/lib.rs:328-390 | in the current archetype the bundle overrides the components of the entity, and nothing else changes |
| `Stores.SetMovedView` | src/lib.rs:342-390 | the same through a move to the archetype with the missing columns |
| `Stores.RemovedView` | src/lib.rs:412-458 | the move to the archetype without the column removes one component and nothing else |
| `Stores.InitView` | src/lib.rs:283-293 | a reserved id that enters the void archetype is an entity without components |
| `Stores.AllocatedView` | src/lib.rs:271-281 | growing and allocating changes nothing visible, and the id was not in use |
| `Stores.ClaimedView` | src/lib.rs:858-869 | neither does taking a given free slot |
| `Stores.ForgetTables` | src/lib.rs:244-264 | dropping tables keeps index and tables in agreement if and only if none of them has rows, and then the map is the same |
| `Merges.SubsetMerge` | src/lib.rs:771-782 | when `lhs` has no type that `rhs` lacks: `rhs` gets the components of `lhs` on top of its own, `lhs` is gone, every other entity is as before |
| `Merges.SupersetMerge` | src/lib.rs:783-804 | the same when `rhs` has no type that `lhs` lacks |
| `Merges.GeneralMerge` | src/lib.rs:806-851 | the same when both move to a third archetype |
| `Merges.SwapMergeAgrees` | src/lib.rs:751-760 | the branch for equal types keeps index and tables in agreement if and only if the two are in the same row of different tables; then it only deletes `lhs` |
| `Merges.SwapMergeIsMerge` | src/lib.rs:751-760 | what comes of that branch is the promised merge if and only if, besides, the two had the same components to begin with |
| `Merges.CalmSwapBreaks` | src/lib.rs:751-760 | in a calm world that branch always breaks the agreement |
| `Merges.SwapMergeExample` | src/lib.rs:751-760 | the content of a world, two entities with one component each, for which that branch breaks the agreement |
| `Filings.SweepFiles` | src/lib.rs:244-264 | after the sweep each table is filed under its key in one of the maps, staging has no rows, and only the void archetype may be empty |
| `Filings.SweepAgrees` | src/lib.rs:244-264 | the sweep keeps the agreement, and the map, if and only if no key has rows in both maps |
| `Filings.SweepLosesExample` | src/lib.rs:244-264 | a world for which the sweep drops a table with a row |
| `Filings.FrontChanges` | src/lib.rs:320-325 | changes to tables that a lookup finds leave what is staged behind live archetypes as it was |
| `Filings.NewHides` | src/lib.rs:460-486 | a new live archetype hides staged rows if and only if its key is staged with rows |
| `Layouts.Seated` | src/lib.rs:328-390 | the table of a live entity is filed under the set of its component types, in staging if the entity counts as being in staging, live otherwise |
| `Layouts.MergedSeats` | src/lib.rs:762-852 | after a merge that is followed on the keys alone, every entity is in an archetype of its type; likewise `Layouts.WidenedSeats` and `Layouts.NarrowedSeats` for the other moves |
| `Layouts.ApartIsUnshadowed` | src/lib.rs:239-269 | some key has rows in both maps if and only if two entities of one type are one in staging and one not |
| `Layouts.SweptLayout` | src/lib.rs:239-269 | after the sweep exactly the types in use and the void one are live, nobody is in staging, and the staging keys are a stated function of the layout before |
| `Layouts.OvertakenIsDropped` | src/lib.rs:239-269 | the sweep drops the table of an entity if and only if it is in a live archetype and one of its type is in staging |
| `Layouts.AsideIsLost` | src/lib.rs:881-883 | without its staging archetypes a world loses exactly the entities that are in them |
| `Clones.RepointStep` | src/lib.rs:79-86 | one `update` of the clone's loop redirects one entry to the copy of its table, same row |
| `Clones.CopyAgrees` | src/lib.rs:71-111 | the redirected index agrees with the copied tables if and only if every table that was not copied is empty; then it stands for the same map in the same allocator state |
| `Clones.CopyLoses` | src/lib.rs:71-111 | in the copy, the entries of exactly those entities that are in staging archetypes name no table of the copy |
| `Families.MoveRow` | src/table.rs:114-138 | moving a row between two tables leaves all other tables as they are |
| `Families.DrainRow` | src/lib.rs:817-842 | draining a row leaves all other tables as they are, and where the other parent has a value it is overwritten, elsewhere appended |
| `Worlds.World.constructor` | src/lib.rs:170-194 | an empty map, one archetype, every slot free |
| `Worlds.World.InitId` | src/lib.rs:283-293 | the reserved id becomes an entity without components; nothing else changes |
| `Worlds.World.InsertEntity` | src/lib.rs:271-281 | a new entity under the id that the allocator hands out, which was not in use; nobody moves in or out of staging |
| `Worlds.World.InsertId` | src/lib.rs:858-869 | succeeds exactly on a free slot, takes that slot off the free list, adds exactly that entity, and otherwise changes nothing |
| `Worlds.World.ReserveEntities` | src/lib.rs:196-198 | room for that many allocations, with no visible change |
| `Worlds.World.DeleteEntity` | src/lib.rs:295-318 | the map loses exactly that entity, whose slot gets the next generation and goes to the front of the free list; an error, and no change, exactly when it is not live; nobody moves in or out of staging |
| `Worlds.World.SetBundle` | src/lib.rs:328-390 | the bundle overrides the components of the entity and adds the missing ones; every other entity, the allocator and the staging condition are as before; an archetype is added only if the new type has none, live or staged; if its type changes, it is in staging afterwards exactly if the new type was staged and not live, and nobody else moves in or out of staging |
| `Worlds.World.RemoveComponent` | src/lib.rs:412-458 | the component is gone and nothing else; the entity is in the live archetype of its new type; the two errors; and exactly when the staging condition survives; it is not in staging afterwards, and nobody else moves in or out |
| `Worlds.World.MergeEntities` | src/lib.rs:735-852 | the merged map for different types, with the slot of `lhs` freed and no other; what the code does instead for equal types; the errors; and exactly when the staging condition survives; and who is in staging afterwards |
| `Worlds.World.UnionHash` | src/lib.rs:762-772 | the key of the archetype with the columns of both |
| `Worlds.World.Sweep` | src/lib.rs:239-269 | staging is empty of rows afterwards; the keys of both maps; lost are exactly the entities in live archetypes that have one of their type in staging, and the world is whole, with the same map, if and only if there are none; in particular when it was calm; the condition also in terms of the row counts of the tables before |
| `Worlds.World.Vacuum` | src/lib.rs:881-883 | loses exactly the entities in staging archetypes, and is whole if and only if nothing is staged |
| `Worlds.World.Clone` | src/lib.rs:71-111 | a world that shares no object with this one, with the same allocator state; it loses exactly the entities in staging archetypes, and has the same map if and only if nothing is staged |
| `Worlds.World.Redirect` | src/lib.rs:79-86 | the loop redirects the entries of exactly the entities in live archetypes |
| `Effects.AppliedValid` | src/commands.rs:262-307 | after any command the ids of the map are exactly the live ids, the free list names exactly the free slots, and every entity is in an archetype of its type |
| `Effects.AppliedMeans` | src/commands.rs:262-307 | for each kind of command the map afterwards, the freed slot, and the error, in terms of the map and the slots before; a command that fails changes nothing |
| `Effects.PossibleMeans` | src/commands.rs:262-307 | which commands are covered: all but those that would exceed the capacity limit, initialise an id that is not reserved, or merge two entities of one type |
| `Effects.DressedMeans` | src/commands.rs:303-306 | the parts of a payload apply in order, a bundle overriding and a removal dropping its type |
| `Effects.PlayedStep` | src/lib.rs:234-236 | a buffer is its first command, and then the rest unless that failed |
| `Effects.ReservedStays` | src/commands.rs:262-307 | an id that one command has reserved is still reserved after any other command |
| `Effects.ReservedUntilInit` | src/lib.rs:234-236 | in a whole buffer, each reserved id is still reserved when its own initialisation is applied |
| `Effects.PlayableIsRoomy` | src/lib.rs:234-236 | what the previous result asks of a buffer, beside its ids being reserved, is necessary |
| `Commands.SwapsIsSameType` | src/lib.rs:751 | two live entities are in archetypes of one type if and only if they have the same set of component types |
| `Commands.EntityCommands.Id` | src/commands.rs:244-260 | asking an insertion for its id reserves the next one and turns it into an initialisation; other commands name the id they have; no visible change |
| `Commands.EntityCommands.Apply` | src/commands.rs:262-307 | for each kind of command, over the map and the slots before: a deletion takes the entity off and frees its slot; a merge of two types moves the components of one over the other and frees it, and reports an entity that is missing; an initialisation, an insertion and a claimed id make a new entity with the payload; a live id is dressed; the errors, which change nothing; for a merge within one type the swap of `Merges.SwapMerge`; a command that only adds keeps the world calm |
| `Commands.EntityCommands.ApplyInsertId` | src/commands.rs:273-283 | new on a free slot, updated if already live, refused for another generation, not found if only reserved |
| `Commands.EntityCommands.Dress` | src/commands.rs:300-306 | the payload is applied in order to an entity that exists, and fails otherwise |
| `Commands.PlayAll` | src/lib.rs:234-236 | the loop over the buffer: the commands in order, up to the first error |
| `Commands.ApplyCommands` | src/lib.rs:222-269 | the buffer and then the sweep, as a function of the commands and of the map, the allocator and the layout before the call: the world is whole afterwards if and only if the played state has no entity in staging with the type of one that is not; lost are exactly the entities in live archetypes of such a type; the layout afterwards in either case; the tables that the sweep started from and what it made of them; an error skips the sweep; nothing is lost if the world was calm and the commands only add |
| `Scenarios.StageEntity` | src/lib.rs:320-325 | from a new world to an entity in a staging archetype |
| `Scenarios.CloneLosesEntity` | src/lib.rs:71-111 | a copy of that world has the id in its allocator and no table for it |
| `Scenarios.VacuumLosesEntity` | src/lib.rs:881-883 | what `vacuum` leaves of it has the id, no staging archetype and no table for the id |
| `Scenarios.ShadowEntity` | src/lib.rs:412-458 | from there, by `set_bundle` and `remove_component` on another entity, to two entities of one type, one in a staging and one in a live archetype |
| `Scenarios.SweepLosesEntity` | src/lib.rs:244-264 | the sweep of a whole world of two such entities keeps one and loses the other |
| `Scenarios.BufferLoses` | src/lib.rs:222-269 | for a world without entities that has a staging archetype for a type, a buffer of two insertions is played without error and ends with one entity of the type in staging and one not |
| `Scenarios.BufferLosesEntity` | src/lib.rs:222-269 | from a new world to an `apply_commands` with that buffer, which returns without error and loses the second entity |
| `Scenarios.MergeBreaks` | src/lib.rs:751-760 | from a new world, by merging the only two entities, both of one type, to a world in which index and tables disagree: the swap of `Merges.SwapMerge` |
| `Queries.TupleIterator.Next` | src/query.rs:1176-1184 | one item of each inner iterator while all have one, and stops otherwise |
| `Queries.YieldsAll` | src/query.rs:1166-1186 | iterators of one length are zipped without truncation, item by item |
| `Queries.TableIterIsFetch` | src/query.rs:1200-1261 | a table with the columns yields each row once, equal to `fetch` of that row; any other yields nothing and fetches nothing |
| `Queries.RangeIsSlice` | src/query.rs:1210-1215 | iterating over a range of rows is that range of the iteration |
| `Queries.BatchesPartition` | src/query.rs:504-513 | the batches partition the rows of a table, for every batch size |
| `Queries.BatchedIsSerial` | src/query.rs:439-450 | the jobs for one table together see what one iteration over it sees |
| `Queries.SpawnedInOrder` | src/query.rs:425-454 | the jobs of `par_for_each` over all live archetypes that pass the filter and have rows, one after the other, see what `iter` sees |
| `Queries.ParallelIsIter` | src/query.rs:425-454 | in whatever order the jobs run, they visit exactly the items of `iter`, each as often |
| `Queries.IterIsFetch` | src/query.rs:321-330 | the j-th item is what `fetch` gives for the j-th entity, and there are `count` of them |
| `Queries.SpannedOnce` | src/query.rs:321-330 | iteration spans exactly the live entities of matching live archetypes, each once |
| `Queries.IterationAgreesWithFetch` | src/query.rs:362-374 | with nothing staged, iteration yields exactly one item per entity that can be fetched, equal to what `fetch` and `contains` say |
| `Queries.FetchMeans` | src/query.rs:362-374 | what a query fetches for an entity is, fragment by fragment, its component, its component if it has one, its id, or whether it has the component; and it fetches something exactly if the entity passes the filter and has every required component |
| `Queries.StagedIsMissed` | src/query.rs:404-418 | an entity that the query contains is missed by iteration if and only if its table is a staging archetype |
| `Queries.StagedExample` | src/query.rs:404-418 | the content of a calm world with an entity that can be fetched and that no iteration or count sees, and that is lost with the staging archetypes |
| `Persistence.CountIsWritten` | src/serde.rs:400-419 | the announced length is the number of entries written |
| `Persistence.SavedSections` | src/serde.rs:242-275 | no section is empty, and each has the values of a type of the chain |
| `Persistence.EachTypeSaved` | src/serde.rs:242-275 | each type of the chain that has values gets a section |
| `Persistence.ValuesAreComponents` | src/serde.rs:242-275 | what is written for a type is exactly the components of that type, one per entity |
| `Persistence.LoadedChain` | src/serde.rs:345-356 | loading what a chain of persisters wrote adds exactly the types of the chain |
| `Persistence.RoundTrip` | src/serde.rs:328-367 | loading what was saved gives the entities with a persisted component, under the same ids, with exactly those components and values |
| `Persistence.SlotIsFree` | src/serde.rs:292-299 | the `unwrap` of `insert_id` cannot fail: an id of the document that is not live finds its slot free |
| `Persistence.SavedIsCoherent` | src/serde.rs:242-275 | what a world writes has one id per index, and fits an index |
| `Persistence.VisitMapValue` | src/serde.rs:369-389 | an entry is loaded by the persister of its type, wherever in the chain, and skipped if there is none |
| `Persistence.EntriesInOrder` | src/serde.rs:358-367 | the entries are loaded one after the other, and one of an unknown type changes nothing |
| `Persistence.InsertValue` | src/serde.rs:292-299 | one value of one entry is added to the entity of that very id |
| `Persistence.Load` | src/serde.rs:358-367 | the loop over the entries rebuilds the map of the document in a new world in which every allocated slot is live |
| `Persistence.Reload` | src/serde.rs:328-367 | the round trip on worlds: an entity is back exactly if it had a component of a persisted type, under the same id, with exactly those components and values |
| `Accesses.DisjointMeans` | src/query.rs:59-68 | two declarations are disjoint if and only if neither is exclusive and neither writes what the other touches; a symmetric relation |
| `Accesses.DisjointLists` | src/query.rs:59-68 | on the declared lists: no component and no resource that one may change is on a list of the other |
| `Accesses.CellsMean` | src/query.rs:59-68 | the cells of a declaration are the components and the resources of its lists |
| `Systems.OrderedIsAcyclic` | src/systems.rs:19-60 | an order with dependencies first leaves no cycle |
| `Systems.Sorter.Extend` | src/systems.rs:44-60 | places a system after its dependencies; fails only on a cycle; terminates |
| `Systems.SortedSystems` | src/systems.rs:19-42 | a permutation with in-stage dependencies first; fails exactly on duplicates and on cycles; an ordered input comes back unchanged |
| `Schedules.FromStage` | src/scheduler.rs:19-57 | each system lists, with multiplicity, the earlier systems it conflicts with and those it is explicitly ordered after |
| `Schedules.EdgesGoForward` | src/scheduler.rs:38-55 | in a sorted stage every edge goes from a smaller to a larger index |
| `Schedules.ConflictsAreJoined` | src/scheduler.rs:38-55 | in a sorted stage two systems are joined by an edge if and only if they conflict or one is explicitly ordered after the other |
| `Schedules.Jobs` | src/scheduler.rs:60-87 | one dependency per listed parent |
| `Schedules.StageGraph` | src/scheduler.rs:19-87 | the graph of a sorted stage, all edges forward: an earlier and a later system are joined exactly if the later one names the earlier one, one of them is exclusive, or one may change a component or a resource that is on a list of the other |
| `Pools.GetJobs` | src/job_system.rs:903-914 | each counter is one plus the number of incoming edges, and each job's children are its outgoing edges |
| `Pools.StepKeeps` | src/job_system.rs:380-454 | every atomic step of every thread keeps the counters conserved, each unfinished job in exactly one place, queued jobs ready, and nothing owed to a started job |
| `Pools.DecChildKeeps` | src/job_system.rs:598-611 | one decrement lowers one counter and one debt |
| `Pools.StealKeeps` | src/job_system.rs:413-420 | a stolen batch changes places and nothing else |
| `Pools.PromoteKeeps` | src/job_system.rs:434-451 | a promoted job moves from the wait list to the queue of its owner |
| `Pools.RunKeeps` | src/job_system.rs:215-226 | the invariant in every state of every run of a graph |
| `Pools.CountersAreNatural` | src/job_system.rs:613-623 | counters are never negative, zero exactly when done, and one before the start exactly when no parent is left |
| `Pools.ReadyStays` | src/job_system.rs:619-623 | a ready job stays ready until it runs |
| `Pools.ParentsFirst` | src/job_system.rs:598-611 | a job starts only when the bodies of all its parents have finished |
| `Pools.RootIsLast` | src/job_system.rs:228-249 | `wait` on the root returns only after every body has finished |
| `Pools.RunsOnce` | src/job_system.rs:380-400 | along any run a job is started exactly once if it is started at all |
| `Pools.Progress` | src/job_system.rs:380-454 | while a job of an acyclic graph is unfinished some step other than a steal is possible |
| `Pools.MeasureDecreases` | src/job_system.rs:380-454 | every step other than a steal brings the end closer, and steals change nothing |
| `Pools.RunsAreBounded` | src/job_system.rs:215-226 | the number of such steps in any run is bounded by the initial measure |
| `Pools.TraceFollowsEdges` | src/job_system.rs:598-611 | no body takes a step after the body of one of its children has: along an edge bodies do not overlap |
| `Pools.Prepare` | src/job_system.rs:215-226 | the state in which `run_graph` starts satisfies the initial condition of a run |
| `Executors.Executor.RunOnce` | src/job_system.rs:380-454 | a worker's turn adds steps of the pool to those already taken: the job at the head of the own queue is executed; failing that, a part of somebody's queue becomes the own one; failing that, exactly the ready jobs of the own wait list go to the own queue; it reports failure, and takes no step, exactly when there is nothing to pop, steal or promote |
| `Executors.Executor.Execute` | src/job_system.rs:598-611 | the popped job is done afterwards with its counter at zero, the counter of every other job has dropped as often as the job lists it as a child, and nothing else has changed |
| `Executors.Executor.StealFromOthers` | src/job_system.rs:400-430 | succeeds exactly when some worker has queued jobs; then a non-empty prefix of the queue of one of them is the own queue |
| `Executors.Executor.PromoteReady` | src/job_system.rs:431-453 | promotes exactly the ready jobs of the own wait list to the end of the own queue |
| `Stages.MemoriesCommute` | src/query.rs:59-68 | micro steps of two programs with disjoint declarations commute |
| `Stages.SerialExec` | src/lib.rs:641-657 | an interleaving that only reorders disjoint systems is equivalent to the serial order |
| `Stages.TraceIsReorderable` | src/scheduler.rs:38-55 | in every run of a stage's graph, systems that run out of order are disjoint |
| `Stages.StagePool` | src/lib.rs:641-649 | the graph built from a sorted stage has exactly the edges of its schedule, and its pool is an initial state of the runs below |
| `Stages.AnyPrograms` | src/lib.rs:641-649 | the results below are about any programs that stay within the declarations of a sorted stage |
| `Stages.ReturnsFurther` | src/systems.rs:271-283 | any run goes on as one in which bodies return, with any step but the end of a body that would still do something |
| `Stages.TickRunsProgram` | src/systems.rs:271-283 | after any run, a step of the body of any system on any worker is a step of its program on the state reached so far |
| `Stages.OthersRunNothing` | src/job_system.rs:380-454 | no other step of the pool changes the state of the world or of a system |
| `Stages.ExecAppends` | src/lib.rs:650-656 | the serial execution, step by step |
| `Stages.WriterIsHonest` | src/query.rs:59-68 | a program that reads and writes what it declares is within the assumption on systems |
| `Stages.DoneIsHalted` | src/job_system.rs:598-611 | a system whose body is done has returned and takes no further step |
| `Stages.ParallelIsSerial` | src/lib.rs:641-657 | every run of the pool on a sorted stage leaves components, resources and systems as the serial execution in sorted order does |
| `Stages.WaitFinishes` | src/job_system.rs:228-249 | when `wait` has returned every system has returned |
| `Stages.SerialIsUnique` | src/lib.rs:650-656 | the serial execution has one result |
| `Stages.ParallelMatchesSerial` | src/lib.rs:641-657 | a run of a stage that has been waited for ends in the same state as any serial execution that runs the systems to their end in sorted order |
| `Stages.RunsAgree` | src/lib.rs:641-657 | any two runs of a stage, with any workers and steals, end in the same state |
| `Stages.StageIsAcyclic` | src/scheduler.rs:38-55 | the graph of a sorted stage has no cycle |
| `Stages.StageProgresses` | src/job_system.rs:380-454 | while a job of a stage is unfinished some step other than a steal is possible |
| `Stages.StuckIsFinished` | src/job_system.rs:228-249 | a run of a stage stops only when every job is done and `wait` returns |
| `MapReduce.FoldSplits` | src/job_system.rs:109-127 | an associative reduction may be split anywhere, in order |
| `MapReduce.FoldMeans` | src/job_system.rs:129-136 | the left fold of one value, and of one value more |
| `MapReduce.ReduceRecursive` | src/job_system.rs:92-139 | for every depth the left fold of the results, each result taken exactly once, `init()` for no results only |
| `MapReduce.ReduceLoop` | src/job_system.rs:129-136 | the accumulating loop is the left fold |
| `MapReduce.Run` | src/job_system.rs:63-154 | the left fold of the mapped input in input order, for every number of threads |
| `Reductions.OwnsApart` | src/job_system.rs:109-127 | what one half of a split reduction does leaves the other half as it was |
| `Reductions.SteppedOwns` | src/job_system.rs:92-139 | a step of any part of a reduction finds the result that it takes, changes no cell of another part, and stays on the way to the fold of its range |
| `Reductions.RunKeeps` | src/job_system.rs:63-154 | in every state of every run the cells hold the mapped input, or belong to exactly one part of the reduction |
| `Reductions.AnyOrder` | src/job_system.rs:63-154 | in no interleaving of the mapping jobs and the parts of the reduction does an `unwrap` fail, and all that return give the left fold of the mapped input in input order, every result taken |
| `Reductions.Progress` | src/job_system.rs:63-154 | until the reduction has returned a mapping job can finish, the reduction can begin, or a part of it can take a step |
| `Reductions.EveryRunEnds` | src/job_system.rs:63-154 | every run that cannot go on has returned, after a number of steps that depends on the number of elements and the depth only |

## Left out

- Worlds.World.MergeEntities: for two entities of the same type whose rows are out of range of each other's table the source panics; that is a precondition here. In a calm world it always holds (`Merges.CalmSwapBreaks`).
- Worlds.World.SetBundle: a bundle that lists a missing type an even number of times is excluded; it looks for the wrong archetype, on which `set_component` panics (src/table.rs:171).
- Worlds.World.RemoveComponent: the unit type is excluded; its hash is zero, so the source would move the row into the table it comes from.
- Commands.EntityCommands.Apply: capacity limits, which the source asserts, are preconditions; resource commands and `reserve` commands are left out.
- Commands.ApplyCommands: buffers that merge two entities of one type are excluded, since nothing is promised of a world after that (`Scenarios.MergeBreaks`); so are parallel buffers and their sorting.
- Handles.StaleHandles: runs with `insert_id` are excluded, since it overwrites a slot's generation (src/entity_index.rs:191).
- Pools.Prepare: the pool starts with empty queues; jobs of other graphs, futures that ask to be run again, and nested waits are not modelled.
- Pools.StepKeeps: a steal moves any non-empty prefix of a queue; the deque itself, its retries, sleeping and waking are not modelled.
- Executors.Executor.RunOnce: nobody else moves during the turn; interleaved turns are the runs of `Pools`.
- Stages.ParallelIsSerial: systems are deterministic programs that stay within their declarations; `unsafe` accessors and interior mutability step outside them. The order of deferred commands differs between builds and is left out.
- MapReduce.ReduceRecursive: one schedule as a program, the right half before the left one; every interleaving of the halves is a run of `Reductions`.
- MapReduce.Run: one schedule as a program, the mapping jobs in input order; every order is a run of `Reductions`.
- Reductions.AnyOrder: any part of a reduction may take the next step; which worker does, and when, is not modelled, and a `map` or `reduce` that panics is left out.
- Persistence.Save: resources, versions and the encodings are left out; the order of the archetypes is a parameter.
- Queries.Iter: mutable variants, `ArchetypeHash` and `QuerySet` are left out; filters are arbitrary conditions on the columns of a table.
- Accesses.DisjointMeans: how a query collects its declarations (`extend`, `types_mut`, `types_const`, `ensure_query_valid`) is left out; the declared sets are given.
- Stages.StagePool: the conditions under which a stage is skipped (src/lib.rs:624-634) are left out.
- Tables.Column: raw allocation, layouts, type erasure and drop glue; a column is an array of values.
- The order of commands within the entity group: the inner sort has a unit key (src/commands.rs:191-196) and orders nothing.
- Resource storage, `WorldLock`, tracing, `checksum` and `write_entities`: they would only add easy members.
