# Cobblestone core, verified

A Dafny model of the state machines at the core of the Cobblestone Minecraft server, with proofs of
what they promise over unbounded runs. `dafny verify dfyconfig.toml` checks all of it.

| area | modules | main results |
|---|---|---|
| final lighting of a generated chunk | LightField, LightRelaxation, LightFinalizer, Nibbles | the light of a cell is the best any path delivers; every service order of the queue computes it; the 3x3 neighbourhood gives the centre chunk the light of every larger world |
| session views and pins | Views, Pins, Sessions, SessionSystem, SessionLaws, SessionObject, SessionHosts | pins are conserved over every run of any number of sessions; a view follows its player; for every radius cap the program takes, queued chunk packets are never followed by a failed commit |
| region files | RegionDisk, RegionCommit, RegionSafety, RegionHistory, RegionFileObject | after a crash at any point of any history the file opens with the last acknowledged chunks or an attempt since, and every chunk loads as it was saved |
| world store | ChunkRecords, ChunkLaws, ChangeLog, ChunkLife, WorldStoreObject | a revision identifies content also across eviction and reloading; evicting loses lifecycle flags exactly when the save in flight carries others; a cursor that is not stale can catch up from the bounded log |
| infinite generation | Generation | what one call makes of any store; from an empty store a chunk is fully populated exactly when its 3x3 is generated, and each centre is post-processed once |
| tick scheduler | DueQueues, TaskHistory, Scheduling | no task is lost, none starts early, twice as a one-shot, or after a cancellation that returned true, whatever callbacks do; the due loop terminates |
| eviction queue | EvictionQueue | the queue covers what is resident, and a chunk that stays free is unloaded in time |
| identities | ArenaSlots, Arenas, RegionDirectories | no handle is issued twice or resolves after removal; each region and epoch is spent once |
| batch framing | Batch | encoding and decoding are inverse under the same limits |

Code that computes values is modelled by functions. Code that works step by step is modelled by methods
and classes with the program's own fields and loops; each is proved against a function on values, and
the run-level lemmas are about that function. The `...Exactly` lemmas and the two `Laws` modules say what
these functions do without following their bodies: when a call succeeds, what every part of the result
holds, what stays, and which refusal comes first.

Where the code and its documentation differ, the model follows the code:

- The lighting comment speaks of an influence of 15 blocks. The exact reach is 14 steps
  (`LightField.LightIsLocal`, `LightField.FourteenStepsMatter`).
- The session state itself does not refuse a negative radius cap, and with one a joining session has its
  packets queued and then fails to commit (`SessionSystem.NegativeCapFailsAfterQueueing`). The program
  never builds such a state: `native/extension/src/session/bridge.rs:165` and
  `src/Config/ServerConfig.php:27` take only caps from 1 to 3, for all of which
  `SessionSystem.QueuedCompletionCommits` holds.
- Clearing a lifecycle flag while a save that carries it is in flight makes the chunk look clean, so it
  may be evicted and come back with the flag set (`ChunkLife.ClearedFlagComesBack`); likewise after that
  save landed and was reported as failed (`ChunkLife.LapsedFlagComesBack`). These are the only ways:
  `ChunkLife.EvictionLosesOnlyFlags` and `ChunkLife.EvictionKeepsFlags` give the exact conditions.
  Planes and revisions are never lost.

Assumptions:

- Each world store method is one atomic step, and the store's shards are one map.
- An absent chunk is created or generated only if storage does not hold it. The generator leaves this
  to its callers (`native/world/src/infinite.rs:152-153`), and
  `native/extension/src/world/infinite.rs:130-134` meets it.
- A region file's page either decodes to what was written or to nothing. A checksum is any function of
  the bytes. The record codec is any pair in which whatever encodes has at most the record limit's bytes
  and decodes to the same chunk.
- zlib (RFC 1950) is any compressor with a decompressor that undoes it.
- Other owners of pins give back only pins they took.
- A worldgen stage is any function of its inputs.

## Model

| member | source | states |
|---|---|---|
| `LightField.LightIsUnique` | native/world/src/population_light.rs:120-152 | the path definition of light determines one value per cell |
| `LightField.SettledFieldBounds` | native/world/src/population_light.rs:135-149 | a field in which no cell owes a neighbour light bounds what every path delivers |
| `LightField.LightIsOffered` | native/world/src/population_light.rs:135-149 | no cell is darker than a neighbour's light less what entering it costs |
| `LightField.LightHasSource` | native/world/src/population_light.rs:135-149 | light other than a cell's own seed came from a neighbour, exactly that much brighter |
| `LightField.PathCost` | native/world/src/population_light.rs:138-140 | every step of a path costs at least one |
| `LightField.LightIsLocal` | native/world/src/population_light.rs:11-16 | content further than 14 steps away cannot change a cell's light, in both directions |
| `LightField.FourteenStepsMatter` | native/world/src/population_light.rs:11-16 | 14 is exact: two worlds that agree out to 13 steps give different light |
| `LightRelaxation.Index` | native/world/src/population_light.rs:230-232 | cells of the neighbourhood index into the light array |
| `LightRelaxation.IndexIsInjective` | native/world/src/population_light.rs:230-232 | two cells never share an index |
| `LightRelaxation.Neighbors` | native/world/src/population_light.rs:154-184 | exactly the adjacent cells inside the neighbourhood |
| `LightRelaxation.OfferFrame` | native/world/src/population_light.rs:145-149 | an offer touches one cell and never dims it |
| `LightRelaxation.StepKeepsInv` | native/world/src/population_light.rs:129-151 | serving any queued cell keeps: light is deliverable, seeds are kept, only queued cells owe light |
| `LightRelaxation.StepProgress` | native/world/src/population_light.rs:129-151 | each step uses up total headroom below 15 or shortens the queue |
| `LightRelaxation.DoneIsLight` | native/world/src/population_light.rs:120-152 | with an empty queue every cell holds the maximum over all paths |
| `LightRelaxation.Run` | native/world/src/population_light.rs:120-152 | every service order terminates with the invariant and an empty queue |
| `LightRelaxation.OrderDoesNotMatter` | native/world/src/population_light.rs:120-152 | any two service orders end in the same light array |
| `LightFinalizer.LightBlock` | native/world/src/population_light.rs:238-248 | attenuation is at most 15 |
| `LightFinalizer.Emission` | native/world/src/population_light.rs:251-259 | emission is at most 15 |
| `LightFinalizer.Loss` | native/world/src/population_light.rs:138-139 | entering any block costs at least 1; SolidBlocksLight and LightSpreads say what it costs |
| `LightFinalizer.BlockProperties` | native/world/src/population_light.rs:234-259 | the target's tables of clear, dimming and emitting blocks; everything else is solid and dark |
| `LightFinalizer.ContentLayout` | native/world/src/population.rs:388-397 | nine planes with x fastest, then z; in a plane x fastest, then z, then y; the block id is the state over 16 |
| `LightFinalizer.WorldLookupIsLocal` | native/world/src/population.rs:117-142 | a lookup through wrapping world coordinates reads the neighbourhood's own cell, also across the end of the coordinate range |
| `LightFinalizer.CenterLightIsWorldLight` | native/world/src/population_light.rs:11-16 | sky and block light of the centre chunk on the 3x3 equal those on every larger box that agrees with it |
| `LightFinalizer.SolidBlocksLight` | native/world/src/population_light.rs:138-148 | a solid block holds its own emission and no sky light, whatever surrounds it |
| `LightFinalizer.OpenSkyIsBright` | native/world/src/population_light.rs:80-85 | under open sky the light is 15 |
| `LightFinalizer.LightSpreads` | native/world/src/population_light.rs:135-149 | neighbouring lights differ by at most the light block of the darker cell, or one |
| `LightFinalizer.BlockLightHasSource` | native/world/src/population_light.rs:135-149 | block light a cell does not emit came from a neighbour, less exactly that |
| `LightFinalizer.SkyLightHasSource` | native/world/src/population_light.rs:135-149 | sky light under a roof came from a neighbour, less exactly that |
| `LightFinalizer.NeighborhoodHeightMap` | native/world/src/population_light.rs:52-72 | every column's height is where open sky begins |
| `LightFinalizer.ColumnHeight` | native/world/src/population_light.rs:62-66 | the downward scan stops where open sky begins |
| `LightFinalizer.Propagate` | native/world/src/population_light.rs:120-152 | the in-place loop ends with the maximum over all paths in every cell |
| `LightFinalizer.OfferNeighbors` | native/world/src/population_light.rs:135-150 | one dequeued cell's inner loop is the offers to its neighbours in order |
| `LightFinalizer.OfferTo` | native/world/src/population_light.rs:136-149 | one offer in place brightens and queues the neighbour, or changes nothing |
| `LightFinalizer.PropagateSkyLight` | native/world/src/population_light.rs:74-91 | sky light is path light seeded with 15 under open sky |
| `LightFinalizer.SeedSky` | native/world/src/population_light.rs:75-87 | exactly the cells from each column's height up are lit and queued |
| `LightFinalizer.SeedColumn` | native/world/src/population_light.rs:80-85 | a column is lit from its height up, and every lit cell is queued |
| `LightFinalizer.PropagateBlockLight` | native/world/src/population_light.rs:93-118 | block light is path light seeded with the emitters |
| `LightFinalizer.SeedEmitter` | native/world/src/population_light.rs:104-111 | an emitter is seeded and queued, anything else left dark |
| `LightFinalizer.PackCenterLight` | native/world/src/population_light.rs:196-208 | reading any packed index gives the light of the centre cell behind it |
| `LightFinalizer.CenterHeightMap` | native/world/src/population_light.rs:186-194 | each centre column keeps its neighbourhood height |
| `LightFinalizer.FinalizeCenterLighting` | native/world/src/population_light.rs:38-50 | the packed planes hold the light of the centre's cells in every world box that agrees with the neighbourhood; heights are where open sky begins |
| `Nibbles.NibbleReadsBack` | native/world/src/lib.rs:371-387 | a written level reads back and leaves every other level alone |
| `Nibbles.LevelsMakeTheByte` | native/world/src/lib.rs:371-378 | the even level is the low half of its byte, the odd one the high half |
| `Nibbles.WriteNibble` | native/world/src/lib.rs:380-387 | the in-place write changes one half byte |
| `Views.RowsListThemAll` | native/session/src/view.rs:23-28 | rows list each coordinate of the rectangle once |
| `Views.SquareIsView` | native/session/src/view.rs:7-31 | a view lists exactly the contained positions, each once, saturated edges included; empty exactly for a negative radius |
| `Views.ViewIsDistance` | native/session/src/view.rs:7-12 | for all centres and radii a view is what lies within the radius along both axes; saturation makes no difference |
| `Views.ListingOrders` | native/session/src/view.rs:23-47 | views are listed with x advancing first and sent with z advancing first |
| `Views.SendOrderIsView` | native/session/src/view.rs:33-50 | the send order lists the same chunks as the view, each once |
| `Views.SortReorders` | native/session/src/view.rs:52-55 | prioritizing loses and adds nothing |
| `Views.SortOrders` | native/session/src/view.rs:52-55 | and orders by priority |
| `Views.SortIsStable` | native/session/src/view.rs:52-55 | positions of equal priority keep their order |
| `Views.TransitionIsExact` | native/session/src/view.rs:75-102 | old view minus leaving plus entering is the new view, without duplicates |
| `Views.ViewPositions` | native/session/src/view.rs:14-31 | the nested loops build the square |
| `Views.InitialSendPositions` | native/session/src/view.rs:33-50 | the nested loops build the send order |
| `Views.KeepOutside` | native/session/src/view.rs:85-92 | the filter keeps what the other view does not contain |
| `Views.ChunkViewTransition` | native/session/src/view.rs:75-102 | no transition between equal views, otherwise what enters and leaves |
| `Pins.UnpinListReleases` | native/session/src/view.rs:194-200 | unpinning a list without duplicates takes one pin off each of its pinned chunks |
| `Pins.PinsExactly` | native/world/src/residency.rs:139-157 | a pin succeeds exactly on a resident chunk with room, counts one there and nothing elsewhere, and an unpin undoes it |
| `Pins.EvictsExactly` | native/world/src/residency.rs:269-305 | exactly a resident, unpinned and clean chunk goes, and nothing else changes |
| `Pins.PinStore.PinChunk` | native/world/src/residency.rs:139-147 | fails for an absent chunk or an exhausted count, else adds one pin |
| `Pins.PinStore.UnpinChunk` | native/world/src/residency.rs:149-157 | fails without a pin, else takes one |
| `Pins.PinStore.TryEvictChunk` | native/world/src/residency.rs:269-305 | only an unpinned clean chunk goes |
| `Pins.PinStore.UnpinAll` | native/session/src/view.rs:194-200 | dropping a view unpins its list in order |
| `Pins.PinStore.UnpinSet` | native/session/src/view.rs:175-184 | dropping prepared chunks takes one pin off each, in whatever order |
| `SessionObject.SessionState.PlanViewTransition` | native/session/src/state.rs:653-689 | replaces pending work and releases its pins unless the same transition is under way |
| `SessionObject.SessionState.BeginInitial` | native/session/src/state.rs:334-362 | a valid radius request starts initial work over the capped square |
| `SessionObject.SessionState.HandleSpawned` | native/session/src/state.rs:372-398 | moves and radius requests replan from the active view |
| `SessionObject.SessionState.HandlePacket` | native/session/src/state.rs:308-400 | every phase's answer to every packet, with the new state and pins |
| `SessionObject.SessionState.TakeDeferred` | native/session/src/state.rs:402-408 | deferred packets come out in order, none while login is pending |
| `SessionObject.SessionState.AcceptLogin` | native/session/src/state.rs:410-423 | only a pending login is accepted |
| `SessionObject.SessionState.RollbackLogin` | native/session/src/state.rs:425-434 | undoes acceptance while nothing was built on it |
| `SessionObject.SessionState.MarkPrepared` | native/session/src/state.rs:446-462 | the mark of the session model: one temporary pin per expected chunk, one store only |
| `SessionObject.SessionState.PlanCompletion` | native/session/src/state.rs:464-553 | all refusals, in order, and what is sent: the radius if it is new, the chunks, and the metrics of an initial view; changes nothing |
| `SessionObject.SessionState.CommitInitial` | native/session/src/state.rs:562-598 | temporary pins become those of a view at the store's latest change, or are released on failure |
| `SessionObject.SessionState.CommitShift` | native/session/src/state.rs:599-626 | leaving pins are released, entering ones kept and the cursor with them, or all temporary pins released on failure |
| `SessionObject.SessionState.CommitPending` | native/session/src/state.rs:555-628 | pending work is taken whether or not it commits; an initial view reports its metrics |
| `SessionObject.SessionState.UpdateViewCursor` | native/session/src/state.rs:642-651 | moves the cursor of a view on the given store, and nothing else |
| `SessionObject.SessionState.TryAcceptLogin` | native/session/src/host.rs:220-251 | a refused queue rolls acceptance back |
| `SessionObject.SessionState.TryComplete` | native/session/src/host.rs:292-325 | commits only after the queue accepted; a full or closed queue changes nothing; success reports what was planned |
| `SessionObject.SessionState.Drop` | native/session/src/view.rs:175-200 | a session that goes away releases its view and its temporary pins |
| `SessionSystem.PlanKeeps` | native/session/src/state.rs:653-689 | in a spawned session planning succeeds, starts at the active view, and moves pins with ownership |
| `SessionSystem.HandlePacketKeeps` | native/session/src/state.rs:308-400 | every packet keeps the session invariant and moves pins with ownership |
| `SessionSystem.MarkPreparedMoves` | native/session/src/view.rs:117-145 | a pin is added exactly when the session comes to hold it |
| `SessionSystem.CommitInitialKeeps` | native/session/src/state.rs:562-598 | a complete initial view of a non-negative radius commits and hands over exactly its pins |
| `SessionSystem.CommitShiftKeeps` | native/session/src/state.rs:599-626 | a complete transition commits; every ignored unpin succeeds, since counts drop by exactly what left |
| `SessionSystem.CommitFollowsPlan` | native/session/src/host.rs:300-316 | after a successful plan the commit succeeds if and only if this is not an initial view of negative radius |
| `SessionSystem.AnnouncedRadiusIsView` | native/session/src/state.rs:493-552 | the radius the client is told of, or was told of before, is the committed view's; an initial plan counts exactly its chunks |
| `SessionSystem.DropReleases` | native/session/src/view.rs:175-200 | an ending session gives back exactly what it held |
| `SessionSystem.RefusedLoginChangesNothing` | native/session/src/host.rs:236-250 | login acceptance with a refusing queue leaves the session as it was |
| `SessionLaws.JoiningAccepts` | native/session/src/state.rs:308-371 | each joining phase accepts exactly its own packet, and a refused packet changes nothing |
| `SessionLaws.JoiningRefusals` | native/session/src/state.rs:308-371 | which refusal each phase gives |
| `SessionLaws.InitialWorkIsAskedFor` | native/session/src/state.rs:341-360 | the initial view is around the player, at the requested radius if the cap allows it and at the cap otherwise, in priority order |
| `SessionLaws.MoveIsFollowed` | native/session/src/state.rs:373-384 | a valid move heads for that chunk at the wanted radius; a malformed one changes nothing |
| `SessionLaws.RequestIsFollowed` | native/session/src/state.rs:385-395 | a valid radius request heads for the granted radius around the player; a malformed one changes nothing |
| `SessionLaws.OthersPassThrough` | native/session/src/state.rs:397 | every other packet of a spawned session is passed on |
| `SessionLaws.SamePlanKeepsWork` | native/session/src/state.rs:674-687 | planning the transition under way keeps what it has prepared |
| `SessionLaws.NewPlanIsOrdered` | native/session/src/state.rs:663-672 | a new transition is planned exactly if the view differs, and asks in priority order |
| `SessionLaws.LoginsExactly` | native/session/src/host.rs:220-251 | a login is accepted exactly if it is pending, its packets encode and the queue takes them |
| `SessionLaws.LoginRefusals` | native/session/src/state.rs:415-418 | which refusal acceptance gives |
| `SessionLaws.ArrivalsAreKept` | native/session/src/state.rs:325-333 | packets that arrive while login is pending are kept in order |
| `SessionLaws.ReplaysInOrder` | native/session/src/state.rs:402-408 | replaying handles the deferred packets first in first out, as if each arrived then |
| `SessionLaws.MarksExactly` | native/session/src/view.rs:117-145 | a mark succeeds exactly for an expected chunk of the right store that is held or can be pinned; it then holds the chunk, with one pin more exactly if it did not before |
| `SessionLaws.MarkRefusals` | native/session/src/state.rs:451-461 | which refusal a mark gives |
| `SessionLaws.PreparingCompletes` | native/session/src/state.rs:446-492 | progress: once every expected chunk can be pinned, marking them all makes the work ready to send |
| `SessionLaws.PlansExactly` | native/session/src/state.rs:464-491 | work may be sent exactly if all it expects is held, the stores agree, and the parcel is right; otherwise the first failing condition is named |
| `SessionLaws.PlanContents` | native/session/src/state.rs:493-552 | what is sent: radius, count and metrics of an initial view; a transition's radius exactly if it changes |
| `SessionLaws.ShiftCommitsExactly` | native/session/src/state.rs:599-616 | a transition of any session commits exactly if it starts at the view, on its store, all held |
| `SessionLaws.InitialCommitsExactly` | native/session/src/state.rs:570-580 | initial work of any session commits exactly if all of it is held, in some store |
| `SessionLaws.CommitRefusals` | native/session/src/state.rs:555-616 | which refusal a commit gives |
| `SessionLaws.FailedCommitReleases` | native/session/src/state.rs:556-616 | a failed commit of any session gives back every pin the work held |
| `SessionLaws.CommitsOnlyWhenQueued` | native/session/src/host.rs:300-323 | nothing is committed unless the queue took the packets, and success reports the plan |
| `SessionLaws.CursorMoves` | native/session/src/state.rs:642-651 | the cursor moves exactly for a view on that store |
| `SessionSystem.StepConserves` | native/session/src/state.rs:294-690 | every event of the system keeps conservation and every session's invariant |
| `SessionSystem.PinsAreConserved` | native/session/src/view.rs:104-200 | after any run each pin count is outside pins plus one per view and one per prepared set containing the chunk |
| `SessionSystem.HeldChunksStay` | native/world/src/residency.rs:269-305 | a viewed or prepared chunk is resident, pinned and refuses eviction after any run |
| `SessionSystem.ViewIsItsSquare` | native/session/src/state.rs:599-625 | after any run an active view pins exactly the square of its centre and radius |
| `SessionSystem.ViewFollowsPlayer` | native/session/src/state.rs:372-398 | after any run a spawned view is at the player's chunk with the radius asked for within the cap, or the pending transition's completion puts it there |
| `SessionSystem.QueuedCompletionCommits` | native/session/src/host.rs:292-325 | after any run with a cap that is not negative, so with every cap the program takes, a planned completion commits as planned, and backpressure leaves it retryable |
| `SessionSystem.NegativeCapFailsAfterQueueing` | native/session/src/state.rs:341-362 | the session state alone: built with a negative cap, which the program never does, a joining session has packets queued and then fails to commit |
| `SessionHosts.SessionHost.Handle` | native/session/src/host.rs:219-325 | every call on the host's objects is the system step of the same name, and leaves other sessions alone |
| `SessionHosts.Drive` | native/session/src/host.rs:219-325 | any run performed on the objects conserves pins and keeps every session's invariant |
| `RegionDisk.LocalIndex` | native/storage/src/region.rs:42-55 | a slot below 256, only for the region's own chunks |
| `RegionDisk.SlotsAreChunks` | native/storage/src/region.rs:42-55 | within a region a slot stands for one chunk |
| `RegionDisk.SlotLayout` | native/storage/src/region.rs:35-55 | a region has a slot for exactly its own 16x16 chunks, x fastest |
| `RegionDisk.PointsLast` | native/storage/src/region.rs:340-372 | what an index points at stays as long as the safe prefix of the file does |
| `RegionDisk.LiveBytesAreDistinctBytes` | native/storage/src/region.rs:211-217 | disjoint records occupy as many bytes as their lengths add up to |
| `RegionDisk.LiveFitsTheArea` | native/storage/src/region.rs:218-222 | live bytes never exceed the record area |
| `RegionCommit.AcceptedBatch` | native/storage/src/region.rs:320-338 | a batch that is not refused has a slot and a record for every item |
| `RegionCommit.AcceptedExactly` | native/storage/src/region.rs:320-338 | a batch is accepted if and only if every item is the region's own, encodes, and repeats no other |
| `RegionCommit.RefusedOverFirst` | native/storage/src/region.rs:320-338 | a refused batch gets the fault of its first foreign, repeated or unencodable item |
| `RegionCommit.PageDecodesExactly` | native/storage/src/region/format.rs:152-195 | a page decodes exactly if it is whole and every entry points past the fixed area at a record of legal length |
| `RegionCommit.OpensNewest` | native/storage/src/region.rs:164-170 | opening succeeds exactly when a page decodes, and takes the newest that does, the first on a tie |
| `RegionCommit.LoadsOnlySound` | native/storage/src/region.rs:233-296 | a chunk loads exactly from a record inside the file whose checksum, slot, revisions and position all agree |
| `RegionCommit.AppliedIsBatch` | native/storage/src/region.rs:349-369 | a batch replaces exactly its own slots, each by its item |
| `RegionCommit.SaveReports` | native/storage/src/region.rs:306-395 | what a save reports for every fault; a failed one keeps the handle, a refused one the file |
| `RegionCommit.WriteAllPoints` | native/storage/src/region.rs:347-370 | appended records and the drafted index mean the old chunks with the batch applied, in disjoint ranges |
| `RegionFileObject.RegionFile.FromOpenFile` | native/storage/src/region.rs:147-180 | refuses a foreign header; takes the newer page that decodes, the first on a tie, none if neither does |
| `RegionFileObject.RegionFile.CheckBatch` | native/storage/src/region.rs:320-338 | the loop is the refusal of the commit model, before any write |
| `RegionFileObject.RegionFile.AppendRecords` | native/storage/src/region.rs:347-370 | the loop appends all records, or a part of them when a write fails |
| `RegionFileObject.RegionFile.SaveChunks` | native/storage/src/region.rs:306-395 | records, barrier, inactive page, barrier, switch, with every failure point; reports generation, records and appended bytes |
| `RegionFileObject.RegionFile.WritePage` | native/storage/src/region.rs:379-387 | the switch happens only after the second barrier |
| `RegionFileObject.RegionFile.LoadChunk` | native/storage/src/region.rs:233-296 | nothing for an empty slot; a chunk only from inside the file, with its checksum, slot, revisions and position; every refusal |
| `RegionFileObject.RegionFile.ReadIndexedRecord` | native/storage/src/region.rs:248-296 | the checks on one record, in order |
| `RegionFileObject.RegionFile.ReadStats` | native/storage/src/region.rs:202-231 | fails exactly when live bytes exceed the area; otherwise file, live and dead bytes add up and indexed chunks are counted |
| `RegionFileObject.IndexedCountsSlots` | native/storage/src/region.rs:194-200 | the indexed chunks are the slots in use |
| `RegionFileObject.Drive` | native/storage/src/region.rs:147-395 | any history performed on the object stays inside the crash-safety invariant and holds what the history says |
| `RegionSafety.SyncSettles` | native/storage/src/region.rs:372 | after the first barrier the handle's own page is safe, also if a reopening had taken up an unsynced one |
| `RegionSafety.PageWriteKeeps` | native/storage/src/region.rs:379-383 | writing the inactive page, whole or torn, leaves the safe page alone |
| `RegionSafety.AckKeeps` | native/storage/src/region.rs:384-387 | the second barrier makes the new page the safe one |
| `RegionSafety.CrashKeeps` | native/storage/src/region.rs:306-395 | losing any unsynced writes keeps the invariant |
| `RegionSafety.OpenFinds` | native/storage/src/region.rs:164-170 | opening selects an acknowledged index or an attempt since, never an older one |
| `RegionSafety.LoadsExactly` | native/storage/src/region.rs:233-296 | every chunk of the selected index loads, decoded and at its position; every other position loads nothing |
| `RegionHistory.SaveKeeps` | native/storage/src/region.rs:306-395 | every save, complete or failed anywhere, keeps the invariant |
| `RegionHistory.Run` | native/storage/src/region.rs:93-395 | every history of saves, failures, closings, reopenings and crashes keeps the invariant |
| `RegionHistory.CrashSafe` | native/storage/src/region.rs:147-180 | after a crash at any point of any history the file opens and shows exactly acknowledged chunks or an attempt since, and each loads as it was saved |
| `RegionHistory.AcknowledgedSaveShows` | native/storage/src/region.rs:306-395 | in any history a save of distinct chunks of the region that all encode is acknowledged; then each of them shows, every other chunk is as before, and nothing is pending |
| `RegionHistory.SpaceAddsUp` | native/storage/src/region.rs:202-231 | in every history indexed records are disjoint inside the record area |
| `ChunkRecords.WrittenIsLastWrite` | native/world/src/patch.rs:97-106 | a patched plane holds the last write to each index, else its old value |
| `ChunkRecords.ExtraKeysDiffer` | native/world/src/lib.rs:324-329 | different blocks have different extra-data keys |
| `ChunkRecords.ExtraIsLastWrite` | native/world/src/patch.rs:107-114 | extra data is the last write per block, and a zero leaves no entry |
| `ChunkRecords.NibblesAreLastWrites` | native/world/src/patch.rs:115-120 | each light level is the last write to it |
| `ChunkRecords.ValidatedIsInRange` | native/world/src/patch.rs:16-33 | validation makes every later index and level safe |
| `ChunkRecords.PatchKeepsHeights` | native/world/src/patch.rs:121-125 | recomputing touched columns keeps all heights equal to a full recomputation |
| `ChunkRecords.TopIsHighest` | native/world/src/lib.rs:395-403 | a height is the highest layer that is not air, 0 for a column of air |
| `ChunkRecords.PatchMovesRevisions` | native/world/src/patch.rs:64-92 | a patch steps exactly the domains it writes to; a domain that did not step kept its planes |
| `ChunkLaws.PatchSucceedsExactly` | native/world/src/patch.rs:16-92 | a patch succeeds if and only if every write is in range and supported and both revisions fit |
| `ChunkLaws.BlockErrors` | native/world/src/patch.rs:16-19 | the first bad block write decides the error |
| `ChunkLaws.BiomeErrors` | native/world/src/patch.rs:20-26 | then the first bad biome write |
| `ChunkLaws.ExtraErrors` | native/world/src/patch.rs:27-29 | then an extra write out of range |
| `ChunkLaws.LightErrors` | native/world/src/patch.rs:30-33 | then the first bad light write, sky before block |
| `ChunkLaws.RevisionErrors` | native/world/src/patch.rs:51-92 | and then the first revision that does not fit |
| `ChunkLaws.PatchWritesPlanes` | native/world/src/patch.rs:94-128 | every cell of every plane holds the last write of that plane's own list, or what it held before; flags and marks stay |
| `ChunkLaws.PatchOnStore` | native/world/src/patch.rs:11-136 | a refused patch changes nothing; any other changes its own chunk and logs at most one change |
| `ChunkLaws.LogsExactly` | native/world/src/patch.rs:35-48 | a patch is logged if it writes anything, by its block writes exactly if these are all and at most 256 |
| `ChunkLaws.WritersKeepSupported` | native/world/src/patch.rs:16-26 | patches keep every resident state and biome one the target supports |
| `ChunkLaws.InstallsExactly` | native/world/src/residency.rs:61-121 | generator output is installed exactly if supported and no changed domain is exhausted; the record then holds it, each changed domain stepped, marks kept |
| `ChunkLaws.RefusedInstallKeeps` | native/world/src/residency.rs:104-115 | a refused installation changes nothing but possibly the terrain revision |
| `ChunkLaws.CommitsExactly` | native/world/src/revision.rs:12-64 | a revision commit succeeds exactly for the current revision and its successor |
| `ChunkLaws.MarksExactly` | native/world/src/residency.rs:224-267 | marks move exactly between the old marks and the record; a record marked with what it is now is clean |
| `ChunkLaws.PrunesExactly` | native/world/src/change_log.rs:104-113 | pruning drops exactly the retained changes up to the given number |
| `WorldStoreObject.CheckPatch` | native/world/src/patch.rs:16-33 | the loops report the first bad write, domain by domain |
| `WorldStoreObject.WriteBlocks` | native/world/src/patch.rs:97-103 | states are written in order and exactly the changed columns noted |
| `WorldStoreObject.WriteExtra` | native/world/src/patch.rs:107-114 | extra data is written in order |
| `WorldStoreObject.WriteLevels` | native/world/src/patch.rs:115-120 | light levels are written in order |
| `WorldStoreObject.ColumnHeight` | native/world/src/lib.rs:395-403 | the scan finds the highest non-air layer, or 0 |
| `WorldStoreObject.RecalculateTouched` | native/world/src/patch.rs:121-125 | only touched columns get a new height |
| `WorldStoreObject.WorldStore.ApplyPatch` | native/world/src/patch.rs:11-136 | one atomic patch of the store model, whose outcome PatchOnStore and PatchWritesPlanes spell out |
| `WorldStoreObject.WorldStore.CheckRevisions` | native/world/src/patch.rs:51-92 | conflicts, exhaustion and wrong steps, in order |
| `WorldStoreObject.WorldStore.RecordChange` | native/world/src/change_log.rs:115-131 | the next number is appended, the oldest dropped at capacity |
| `WorldStoreObject.WorldStore.PruneChangesThrough` | native/world/src/change_log.rs:104-113 | the loop drops exactly the leading changes up to the number |
| `WorldStoreObject.WorldStore.InstallGenerated` | native/world/src/residency.rs:61-121 | steps the revision of each domain that changed; a terrain step stays if the light step is refused |
| `WorldStoreObject.WorldStore.MarkPersisted` | native/world/src/residency.rs:224-267 | marks move forward only and never past the record |
| `WorldStoreObject.WorldStore.DirtySnapshotsExcluding` | native/world/src/residency.rs:180-210 | up to the limit, current snapshots of dirty chunks outside the exclusion; all of them if there is room |
| `ChangeLog.RecordRetains` | native/world/src/change_log.rs:115-131 | the log stays a suffix of everything recorded |
| `ChangeLog.PruneRetains` | native/world/src/change_log.rs:104-113 | pruning keeps it one |
| `ChangeLog.StaleMeansDropped` | native/world/src/change_log.rs:56-58 | a cursor is stale if and only if a change after it has been dropped |
| `ChangeLog.ReplayCatchesUp` | native/world/src/change_log.rs:88-102 | replay settles every cell that is not final yet |
| `ChangeLog.LogIsContiguous` | native/world/src/change_log.rs:88-131 | after any run, from any store, retained numbers are consecutive up to the latest, at most 8192 |
| `ChangeLog.ViewerCatchesUp` | native/world/src/change_log.rs:56-102 | after any run a viewer at a cursor that is not stale, with content read at or after it, reaches the current states |
| `ChunkLife.WriterAdvances` | native/world/src/revision.rs:12-64 | every revisioned writer moves revisions forward wherever planes change and leaves the marks alone |
| `ChunkLife.StepKeeps` | native/extension/src/world/storage/tick.rs:134-155 | storage never runs ahead of a save in flight, nor that ahead of the record, nor marks ahead of storage |
| `ChunkLife.RevisionIdentifiesContent` | native/world/src/residency.rs:96-119 | two snapshots of one run with equal terrain or light revision have equal terrain or light planes, across eviction and reloading |
| `ChunkLife.EvictionLosesOnlyFlags` | native/world/src/residency.rs:269-305 | evicting and reloading restores planes and revisions; it restores flags if and only if the save in flight carries them or, with none in flight, no save that landed and failed carried others |
| `ChunkLife.StepKeepsFlags` | native/extension/src/world/storage/tick.rs:35-70 | unless a landed save is unreported, storage holds the marked flags or those of the save that lapsed |
| `ChunkLife.EvictionKeepsFlags` | native/world/src/residency.rs:285-289 | while no save fails after landing, a clean chunk's flags survive eviction if and only if no save is in flight or the one in flight carries them |
| `ChunkLife.EvictionLosesNothing` | native/world/src/chunk.rs:121-125 | while no writer clears a flag, evicting and reloading restores everything |
| `ChunkLife.ClearedFlagComesBack` | native/world/src/residency.rs:127-137 | a flag cleared while a save carrying it is in flight comes back |
| `ChunkLife.LapsedFlagComesBack` | native/extension/src/world/storage/tick.rs:63-68 | so does one cleared after that save landed and was reported as failed |
| `Generation.AroundIsMutual` | native/world/src/infinite.rs:412-419 | being in each other's 3x3 is mutual, also across the coordinate wrap |
| `Generation.CentersAreNeighbors` | native/world/src/infinite.rs:237-256 | the nine tried centres are exactly the chunks whose 3x3 holds the generated one |
| `Generation.GeneratingOpensNeighbors` | native/world/src/infinite.rs:168-175 | generating one chunk of any store makes none full, and exactly the centres around it can become ready |
| `Generation.PopulatingCloses` | native/world/src/infinite.rs:260-372 | populating a ready centre makes that one chunk full and opens no other |
| `Generation.InfiniteGenerator.EnsureGenerated` | native/world/src/infinite.rs:189-230 | a chunk that is missing or resident without the flag ends up generated only, carved and dark; no other chunk changes |
| `Generation.InfiniteGenerator.InstallNine` | native/world/src/infinite.rs:331-371 | all nine get the stage's blocks, extra data and heights and keep their biomes; the centre alone gets the stage's light and becomes full |
| `Generation.InfiniteGenerator.TryPostProcessCenter` | native/world/src/infinite.rs:260-372 | in any store: a centre that is ready and not full is populated with what the stages make of its 3x3, otherwise nothing happens |
| `Generation.InfiniteGenerator.PostProcessArea` | native/world/src/infinite.rs:232-258 | in any store: of the ready centres exactly those around the chunk become full |
| `Generation.InfiniteGenerator.GenerateIntoStore` | native/world/src/infinite.rs:154-187 | in any store: exactly the target's 3x3 joins the generated chunks, exactly the centres that this completes or that are ready around the target become full, each once; a generated chunk keeps its flags and biomes, and its light unless it became full |
| `Generation.InfiniteGenerator.GenerateOne` | native/world/src/infinite.rs:169-175 | in any store: exactly the centres whose 3x3 this chunk completes become full |
| `Generation.EagerStays` | native/world/src/infinite.rs:154-187 | a call keeps "full exactly when the 3x3 is generated" |
| `Generation.GenerateTargets` | native/world/src/infinite.rs:154-187 | after any sequence of successful calls on an empty store: full if and only if the 3x3 is generated, generated if and only if near a target, each centre post-processed once |
| `Generation.GenerateSpawnView` | native/world/src/infinite.rs:458-476 | all 25 chunks of the spawn view end full |
| `DueQueues.RootIsFirst` | src/Task/Internal/DueQueue.php:10-18 | the root of a heap precedes every entry |
| `DueQueues.RiseStep` | src/Task/Internal/DueQueue.php:25-33 | one swap upward keeps the heap but for the risen entry |
| `DueQueues.SinkStep` | src/Task/Internal/DueQueue.php:58-75 | one swap downward keeps the heap but for the sunk entry |
| `DueQueues.DueQueue.Push` | src/Task/Internal/DueQueue.php:20-34 | a heap with exactly one entry more |
| `DueQueues.DueQueue.PeekDue` | src/Task/Internal/DueQueue.php:36-39 | the due tick of an entry none precedes |
| `DueQueues.DueQueue.Pop` | src/Task/Internal/DueQueue.php:42-78 | takes the entry of the earliest due tick, then least identity, and leaves a heap of exactly the others |
| `TaskHistory.HonestStart` | src/Task/Scheduler.php:137-142 | starting a live due task breaks no promise: not early, not a second one-shot run, not after a cancellation |
| `TaskHistory.HonestCancel` | src/Task/Scheduler.php:244-255 | cancelling ends the task and no other |
| `TaskHistory.HonestRepeat` | src/Task/Scheduler.php:156-158 | the next due tick of a repeating task is an interval past every start |
| `TaskHistory.DueAfterLastStart` | src/Task/Scheduler.php:156-158 | a live repeating task is due exactly one interval after its last start |
| `TaskHistory.HonestOneShot` | src/Task/Scheduler.php:151-154 | a one-shot that ran may be forgotten |
| `TaskHistory.HonestStop` | src/Task/Scheduler.php:110-119 | a shutdown accounts for every task |
| `Scheduling.Scheduler.ScheduleTask` | src/Task/Scheduler.php:49-65 | refuses a negative delay; otherwise a new task no sooner than the next tick |
| `Scheduling.Scheduler.RepeatTask` | src/Task/Scheduler.php:67-83 | refuses a non-positive interval; otherwise a new repeating task |
| `Scheduling.Scheduler.CompactIfNeeded` | src/Task/Scheduler.php:277-294 | rebuilds exactly at the thresholds, to one entry per live task; every live task stays queued at its due tick |
| `Scheduling.Scheduler.CancelTask` | src/Task/Scheduler.php:244-255 | true exactly for a live task, which is then gone for good; counts a stale entry unless it compacts |
| `Scheduling.Scheduler.ShutDown` | src/Task/Scheduler.php:110-119 | no task is left |
| `Scheduling.Scheduler.RunCallback` | src/Task/Scheduler.php:141-142 | a callback that schedules, repeats, cancels and shuts down makes no task due now and leaves its own task as it was or gone |
| `Scheduling.Scheduler.Settle` | src/Task/Scheduler.php:143-158 | afterwards the task is not due now: forgotten after throwing or as a one-shot, else requeued |
| `Scheduling.Scheduler.RunTask` | src/Task/Scheduler.php:141-158 | one run takes one task off those due now |
| `Scheduling.Scheduler.TakeDue` | src/Task/Scheduler.php:123-127 | takes the entry that precedes every live task if it is due; otherwise no live task is due |
| `Scheduling.Scheduler.Serve` | src/Task/Scheduler.php:129-158 | a stale entry changes no task and is counted off; any other leaves fewer tasks due now |
| `Scheduling.Scheduler.RunDueTasks` | src/Task/Scheduler.php:121-160 | terminates by live tasks due now, then queue length; unless a callback throws no live task is left due |
| `Scheduling.Scheduler.Tick` | src/Task/Scheduler.php:102-108 | the tick advances by one and what is due runs |
| `Scheduling.Drive` | src/Task/Scheduler.php:49-160 | any run of owner calls and ticks: no early, repeated one-shot or cancelled start, every task is queued when due or accounted for, and due on time |
| `EvictionQueue.RunCovers` | src/World/MainChunkSource.php:117-184 | every run keeps the queue without duplicates, matching its markers and covering every resident chunk, with chunk and cell keys equal |
| `EvictionQueue.ReachableCovers` | src/World/MainChunkSource.php:117-184 | so every state reached from the empty source is covered |
| `EvictionQueue.SweepReaches` | src/World/MainChunkSource.php:163-181 | one call reaches a position below its budget, or moves it up by the budget |
| `EvictionQueue.FreeChunkIsUnloaded` | src/World/MainChunkSource.php:157-184 | a chunk at position k that stays free is unloaded once budgets add up to more than k, whatever else happens |
| `EvictionQueue.KeptChunkStays` | src/World/MainChunkSource.php:173-178 | a chunk pinned or dirty whenever inspected stays resident and queued |
| `EvictionQueue.SweepAddsNothing` | src/World/MainChunkSource.php:157-184 | what a sweep leaves was there before, unchanged |
| `EvictionQueue.PutsExactly` | src/World/MainChunkSource.php:117-136 | a put is refused exactly for another store's chunk or a different object; otherwise the chunk is resident and queued |
| `EvictionQueue.UnloadsExactly` | src/World/MainChunkSource.php:138-155 | an unload takes exactly a resident chunk that is neither pinned nor dirty |
| `EvictionQueue.MainChunkSource.PutChunk` | src/World/MainChunkSource.php:117-136 | a chunk of another store or a different object for a resident position is refused; a new one is queued once |
| `EvictionQueue.MainChunkSource.UnloadChunk` | src/World/MainChunkSource.php:138-155 | a pinned or dirty chunk stays |
| `EvictionQueue.MainChunkSource.EvictCleanUnpinned` | src/World/MainChunkSource.php:157-184 | the loop is the sweep, and its count is how many chunks went |
| `ArenaSlots.ReuseKeepsIdentity` | native/runtime/src/arena.rs:49-57 | a reused slot's handle was never issued before |
| `ArenaSlots.GrowKeepsIdentity` | native/runtime/src/arena.rs:59-67 | a new slot's handle was never issued before |
| `ArenaSlots.RemoveKeepsIdentity` | native/runtime/src/arena.rs:104-126 | removing one handle changes what resolves for that handle only, for good |
| `Arenas.Arena.Insert` | native/runtime/src/arena.rs:49-68 | fails only when every index is taken; the handle is new and resolves to the value; the live count grows by one |
| `Arenas.Arena.Get` | native/runtime/src/arena.rs:71-77 | a removed handle never resolves |
| `Arenas.Arena.Remove` | native/runtime/src/arena.rs:104-126 | takes the live value; the slot moves to the next generation or is retired; the live count drops by one |
| `RegionDirectories.RegionDirectory.Assign` | native/runtime/src/region.rs:93-115 | a tombstone keeps its epoch, so reassigning revives no spent epoch |
| `RegionDirectories.RegionDirectory.Move` | native/runtime/src/region.rs:125-186 | succeeds exactly for the current owner and epoch, at most once per region and epoch over the directory's life; each refusal names its reason |
| `RegionDirectories.RegionDirectory.Transfer` | native/runtime/src/region.rs:125-155 | under the same condition the new owner holds the next epoch |
| `RegionDirectories.RegionDirectory.Unassign` | native/runtime/src/region.rs:157-186 | under the same condition a tombstone at the next epoch remains |
| `Batch.BatchRoundTrip` | native/wire/src/batch.rs:29-129 | whatever encodes under some limits decodes under them to the same packets in order |
| `Batch.EncodesExactly` | native/wire/src/batch.rs:82-129 | encoding succeeds exactly when every limit holds of what it would produce |
| `Batch.RefusedOverFirst` | native/wire/src/batch.rs:90-110 | a batch is refused over the first packet that is too large or makes the whole too large |
| `Batch.EncodeErrors` | native/wire/src/batch.rs:83-123 | which refusal encoding gives |
| `Batch.DecodesExactly` | native/wire/src/batch.rs:29-80 | decoding gives these packets exactly when the body is one stream that inflates to their frames within every limit |
| `Batch.BodyErrors` | native/wire/src/batch.rs:30-49 | which refusal a body gets before its frames |
| `Batch.ParseErrors` | native/wire/src/batch.rs:53-77 | too many packets are refused before the next frame, a frame for its own fault |
| `Batch.FrameErrors` | native/wire/src/batch.rs:61-76 | which refusal a frame gets |
| `Batch.U32IsBigEndian` | native/wire/src/binary.rs:49-51 | lengths are most significant byte first |
| `Batch.ParsedIsFrames` | native/wire/src/batch.rs:53-77 | what parses is exactly the frames of its packets, within count and size limits |
| `Batch.DecodedRespectsLimits` | native/wire/src/batch.rs:29-80 | anything decoded respects all four limits |
| `Batch.GameFrameRoundTrip` | native/wire/src/frame.rs:49-78 | game frames encode and decode inversely under one limit, both ways |
| `Batch.Reader.ReadExact` | native/wire/src/binary.rs:17-27 | takes a whole prefix of the rest, or nothing |
| `Batch.ReadPackets` | native/wire/src/batch.rs:50-77 | the loop parses every frame, with each refusal |
| `Batch.Decode` | native/wire/src/batch.rs:29-80 | the reader-driven decoder is the decoding function, with each refusal |
| `Batch.Encode` | native/wire/src/batch.rs:82-129 | the appending encoder is the encoding function, with each refusal |

## Left out

- Linearizability of the world store: methods are atomic steps, while the code takes the shard map and the shard in two steps.
- Writers that bypass revisions (scalar setters) and `import_chunk` over a resident chunk: revision, log and pin claims range over runs without them.
- Outside owners that unpin what they did not pin: such an unpin would take a session's pin.
- Player positions and streaming distance: floating point. A position is its chunk, a priority any integer key, and validation of packets is an input.
- View snapshots of sessions: they only add easy members.
- Bytes of index pages, region headers and records, zlib and CRC32C internals: contracts only; the verdict on a header is an input.
- Region initialization, compaction, and file lengths past 64 bits.
- A failed sync after which the operating system forgets dirty pages: a failed sync leaves its writes pending.
- A failed save that lands unseen and surfaces only after a reopening: in ChunkLife a failed save has landed by the time it fails, or never lands.
- RegionFileObject.RegionFile.SaveChunks: does not repeat the statistics in its result; ReadStats states them.
- WorldStoreObject.WorldStore.InstallGenerated: leaves out chest block entities, because the code does not compare them either.
- Which plane an invalid import is refused over: one error stands for all.
- Lifecycle flag bytes outside the mask: flags are a set of the three defined ones.
- Exhaustion of the change log's 64-bit numbers, which panics in the program: numbers are unbounded, and staleness is stated below that bound.
- Terrain and population stages, noise, structures and generation ticks: arbitrary functions.
- Generation.InfiniteGenerator.GenerateIntoStore: states nothing about lifecycle after a failed call, because a failure may leave a centre half written back.
- Scheduling.Scheduler.ShutDown: leaves out fibers and the sleep queue, which the model does not have.
- Scheduling.Scheduler.Tick: leaves out starting and waking fibers, for the same reason.
- Callbacks that call `tick`, and overflow of PHP integers; how many stale entries there really are, which `stale` only estimates.
- The arena's `drain`, which restarts the generations.
- Networking, threads, lock poisoning, configuration, commands, plugins, PHP wrappers.
