/** Crash safety over whole histories of one region file. */
module RegionHistory {
  import opened Coordinates
  import opened Options
  import opened RegionDisk
  import opened RegionCommit
  import opened RegionSafety

  datatype Event =
    | SaveChunks(batch: seq<Stored>, fault: Fault)
    | Close
    | Reopen
    | Crash(after: Disk)

  function EmptyIndex(generation: nat): (i: RegionIndex)
    ensures i.generation == generation && |i.entries| == SLOTS && forall s :: 0 <= s < SLOTS ==> i.entries[s].None?
  {
    RegionIndex(generation, seq(SLOTS, _ => None))
  }

  /** A region as `initialize_region` leaves it. */
  function Fresh(): World {
    World(Disk([], 0, [Page(EmptyIndex(1)), Page(EmptyIndex(0))], [[], []]), None, map[], 1, {})
  }

  // ----- whole histories

  /** The chunks an open handle shows. */
  ghost function Shown(codec: Codec, w: World): Chunks
    requires Inv(codec, w) && w.handle.Some?
  {
    HandlePoints(codec, w);
    Contents(codec, w.handle.value.index, w.disk.area, w.disk.synced)
  }

  lemma HandlePoints(codec: Codec, w: World)
    requires Inv(codec, w) && w.handle.Some?
    ensures w.handle.value.active < 2 && Points(codec, w.handle.value.index, w.disk.area, w.disk.synced)
    ensures Known(w, Contents(codec, w.handle.value.index, w.disk.area, w.disk.synced))
  {
  }

  /** An attempt whose page may have reached the disk although the call failed. */
  predicate MayHaveLanded(f: Fault) {
    f.PageSyncFails? || (f.PageWriteFails? && f.landed == Some(true))
  }

  /** The chunks a save of an acceptable batch is meant to leave. */
  ghost function Wanted(codec: Codec, w: World, batch: seq<Stored>): Chunks
    requires Inv(codec, w) && w.handle.Some? && Refusal(codec, batch, {}).None?
  {
    AcceptedBatch(codec, batch, {});
    Applied(codec, Shown(codec, w), batch)
  }

  ghost function SaveIn(codec: Codec, w: World, batch: seq<Stored>, fault: Fault): SaveResult
    requires Inv(codec, w) && w.handle.Some?
  {
    HandlePoints(codec, w);
    Save(codec, w.disk, w.handle.value, batch, fault)
  }

  ghost function AfterSave(codec: Codec, w: World, batch: seq<Stored>, fault: Fault): World
    requires Inv(codec, w) && w.handle.Some?
  {
    var r := SaveIn(codec, w, batch, fault);
    if batch == [] || Refusal(codec, batch, {}).Some? then w.(disk := r.disk, handle := Some(r.handle))
    else if r.outcome.Saved? then
      World(r.disk, Some(r.handle), Wanted(codec, w, batch), r.handle.index.generation, {})
    else
      w.(disk := r.disk, handle := Some(r.handle),
         since := if MayHaveLanded(fault) && w.handle.value.index.generation < U64_MAX
           then w.since + {Wanted(codec, w, batch)} else w.since)
  }

  lemma PartlyWrittenGrows(codec: Codec, d: Draft, batch: seq<Stored>, records: nat, bytes: nat)
    requires |d.index.entries| == SLOTS && forall k :: 0 <= k < |batch| ==> ItemOk(codec, batch[k])
    ensures d.area <= PartlyWritten(codec, d, batch, records, bytes)
  {
    if records >= |batch| {
      WriteAllGrows(codec, d, batch);
    } else {
      WriteAllGrows(codec, d, batch[..records]);
    }
  }

  ghost function Written(codec: Codec, w: World, batch: seq<Stored>): Draft
    requires Inv(codec, w) && w.handle.Some? && Refusal(codec, batch, {}).None?
  {
    HandlePoints(codec, w);
    AcceptedBatch(codec, batch, {});
    WriteAll(codec, Draft(w.handle.value.index, w.disk.area), batch)
  }

  /** The drafted index points at the appended records and means the wanted chunks. */
  lemma DraftIsWanted(codec: Codec, w: World, batch: seq<Stored>)
    requires Inv(codec, w) && w.handle.Some? && Refusal(codec, batch, {}).None?
    ensures var r := Written(codec, w, batch);
            && w.disk.area <= r.area && r.index.generation == w.handle.value.index.generation
            && Points(codec, r.index, r.area, |r.area|)
            && Contents(codec, r.index, r.area, |r.area|) == Wanted(codec, w, batch)
  {
    HandlePoints(codec, w);
    AcceptedBatch(codec, batch, {});
    var h, d := w.handle.value, w.disk;
    PointsLast(codec, h.index, d.area, d.synced, d.area, |d.area|);
    WriteAllPoints(codec, Draft(h.index, d.area), batch);
  }

  /** The records are in the file, not yet synced. */
  ghost function RecordedWorld(codec: Codec, w: World, batch: seq<Stored>): (r: World)
    requires Inv(codec, w) && w.handle.Some? && Refusal(codec, batch, {}).None?
    ensures Inv(codec, r)
  {
    DraftIsWanted(codec, w, batch);
    AppendKeeps(codec, w, BasePage(codec, w), Written(codec, w, batch).area);
    w.(disk := w.disk.(area := Written(codec, w, batch).area))
  }

  ghost function BasePage(codec: Codec, w: World): (b: nat)
    requires Inv(codec, w)
    ensures BaseAt(codec, w, b)
  {
    if BaseAt(codec, w, 0) then 0 else 1
  }

  /** The first barrier has passed: the handle's own page is the base. */
  ghost function SettledWorld(codec: Codec, w: World, batch: seq<Stored>): (r: World)
    requires Inv(codec, w) && w.handle.Some? && Refusal(codec, batch, {}).None?
    ensures AtPageStage(codec, r) && r.handle == w.handle && r.since == w.since
    ensures r.disk == RecordedWorld(codec, w, batch).disk.Synced()
  {
    var recorded := RecordedWorld(codec, w, batch);
    HandlePoints(codec, w);
    SyncSettles(codec, recorded, BasePage(codec, recorded), w.handle.value);
    recorded.(disk := recorded.disk.Synced())
  }

  ghost predicate AtPageStage(codec: Codec, w: World) {
    && w.handle.Some? && w.handle.value.active < 2 && BaseAt(codec, w, w.handle.value.active)
    && w.disk.safe[w.handle.value.active] == Page(w.handle.value.index)
    && w.disk.synced == |w.disk.area| && w.disk.unsynced == [[], []]
  }

  ghost function NextIndex(codec: Codec, w: World, batch: seq<Stored>): (i: RegionIndex)
    requires Inv(codec, w) && w.handle.Some? && Refusal(codec, batch, {}).None?
    ensures var d := SettledWorld(codec, w, batch).disk;
            && Points(codec, i, d.area, d.synced) && Contents(codec, i, d.area, d.synced) == Wanted(codec, w, batch)
            && i.generation == w.handle.value.index.generation + 1
  {
    var written := Written(codec, w, batch);
    DraftIsWanted(codec, w, batch);
    var next := written.index.(generation := w.handle.value.index.generation + 1);
    SameEntriesSameContents(codec, written.index, next, written.area, |written.area|);
    next
  }

  /** Failing to write the page, wholly or in part, leaves the base alone. */
  lemma FailedPageKeeps(codec: Codec, w: World, next: RegionIndex, landed: Option<bool>)
    requires RoundTrips(codec) && AtPageStage(codec, w) && Points(codec, next, w.disk.area, w.disk.synced)
    requires next.generation == w.handle.value.index.generation + 1
    ensures var m := Contents(codec, next, w.disk.area, w.disk.synced);
            Inv(codec, w.(disk := Landing(w.disk, 1 - w.handle.value.active, next, landed),
                        since := if landed == Some(true) then w.since + {m} else w.since))
  {
    var b := w.handle.value.active;
    match landed
    case None =>
    case Some(whole) =>
      if whole {
        PageWriteKeeps(codec, w, b, Page(next), w.since + {Contents(codec, next, w.disk.area, w.disk.synced)});
      } else {
        PageWriteKeeps(codec, w, b, Torn, w.since);
      }
  }

  lemma PartialSaveKeeps(codec: Codec, w: World, batch: seq<Stored>, fault: Fault)
    requires Inv(codec, w) && w.handle.Some? && batch != [] && Refusal(codec, batch, {}).None?
    requires fault.RecordWriteFails?
    ensures Inv(codec, AfterSave(codec, w, batch, fault))
  {
    HandlePoints(codec, w);
    AcceptedBatch(codec, batch, {});
    var draft := Draft(w.handle.value.index, w.disk.area);
    PartlyWrittenGrows(codec, draft, batch, fault.records, fault.bytes);
    AppendKeeps(codec, w, BasePage(codec, w), PartlyWritten(codec, draft, batch, fault.records, fault.bytes));
  }

  /** A save of an acceptable batch that gets past writing its records. */
  ghost predicate WritesRecords(codec: Codec, w: World, batch: seq<Stored>, fault: Fault) {
    && Inv(codec, w) && w.handle.Some? && batch != [] && Refusal(codec, batch, {}).None?
    && !fault.RecordWriteFails?
  }

  predicate ReachesPage(w: World, fault: Fault) {
    w.handle.Some? && !fault.RecordSyncFails? && w.handle.value.index.generation < U64_MAX
  }

  lemma EarlySaveShape(codec: Codec, w: World, batch: seq<Stored>, fault: Fault)
    requires WritesRecords(codec, w, batch, fault) && !ReachesPage(w, fault)
    ensures AfterSave(codec, w, batch, fault)
         == if fault.RecordSyncFails? then RecordedWorld(codec, w, batch) else SettledWorld(codec, w, batch)
  {
  }

  lemma FailedPageShape(codec: Codec, w: World, batch: seq<Stored>, fault: Fault)
    requires WritesRecords(codec, w, batch, fault) && ReachesPage(w, fault) && !fault.NoFault?
    ensures var settled, next := SettledWorld(codec, w, batch), NextIndex(codec, w, batch);
            var landed := if fault.PageSyncFails? then Some(true) else fault.landed;
            AfterSave(codec, w, batch, fault)
            == settled.(disk := Landing(settled.disk, 1 - w.handle.value.active, next, landed),
                        since := if landed == Some(true) then w.since + {Wanted(codec, w, batch)} else w.since)
  {
  }

  lemma WholeSaveShape(codec: Codec, w: World, batch: seq<Stored>)
    requires WritesRecords(codec, w, batch, NoFault) && ReachesPage(w, NoFault)
    ensures var settled, next, other := SettledWorld(codec, w, batch), NextIndex(codec, w, batch),
        1 - w.handle.value.active;
            AfterSave(codec, w, batch, NoFault)
            == World(settled.disk.PageWritten(other, Page(next)).Synced(), Some(Handle(other, next)),
                     Wanted(codec, w, batch), next.generation, {})
  {
  }

  lemma EarlySaveKeeps(codec: Codec, w: World, batch: seq<Stored>, fault: Fault)
    requires WritesRecords(codec, w, batch, fault) && !ReachesPage(w, fault)
    ensures Inv(codec, AfterSave(codec, w, batch, fault))
  {
    EarlySaveShape(codec, w, batch, fault);
  }

  lemma FailedSaveKeeps(codec: Codec, w: World, batch: seq<Stored>, fault: Fault)
    requires WritesRecords(codec, w, batch, fault) && ReachesPage(w, fault) && !fault.NoFault?
    ensures Inv(codec, AfterSave(codec, w, batch, fault))
  {
    FailedPageShape(codec, w, batch, fault);
    FailedPageKeeps(codec, SettledWorld(codec, w, batch), NextIndex(codec, w, batch),
                    if fault.PageSyncFails? then Some(true) else fault.landed);
  }

  lemma WholeSaveKeeps(codec: Codec, w: World, batch: seq<Stored>)
    requires WritesRecords(codec, w, batch, NoFault) && ReachesPage(w, NoFault)
    ensures Inv(codec, AfterSave(codec, w, batch, NoFault))
  {
    WholeSaveShape(codec, w, batch);
    AckKeeps(codec, SettledWorld(codec, w, batch), w.handle.value.active, NextIndex(codec, w, batch), Wanted(codec,
        w, batch));
  }

  lemma SaveWithRecordsKeeps(codec: Codec, w: World, batch: seq<Stored>, fault: Fault)
    requires WritesRecords(codec, w, batch, fault)
    ensures Inv(codec, AfterSave(codec, w, batch, fault))
  {
    if !ReachesPage(w, fault) {
      EarlySaveKeeps(codec, w, batch, fault);
    } else if fault.NoFault? {
      WholeSaveKeeps(codec, w, batch);
    } else {
      FailedSaveKeeps(codec, w, batch, fault);
    }
  }

  lemma SaveKeeps(codec: Codec, w: World, batch: seq<Stored>, fault: Fault)
    requires Inv(codec, w) && w.handle.Some?
    ensures Inv(codec, AfterSave(codec, w, batch, fault))
  {
    if batch == [] || Refusal(codec, batch, {}).Some? {
      assert AfterSave(codec, w, batch, fault) == w;
    } else if fault.RecordWriteFails? {
      PartialSaveKeeps(codec, w, batch, fault);
    } else {
      SaveWithRecordsKeeps(codec, w, batch, fault);
    }
  }

  lemma SameEntriesSameContents(codec: Codec, i: RegionIndex, j: RegionIndex, area: Bytes, n: nat)
    requires Points(codec, i, area, n) && i.entries == j.entries
    ensures Points(codec, j, area, n) && Contents(codec, j, area, n) == Contents(codec, i, area, n)
  {
  }

  ghost function Step(codec: Codec, w: World, e: Event): (w': World)
    requires Inv(codec, w)
    ensures Inv(codec, w')
  {
    match e
    case SaveChunks(batch, fault) =>
      if w.handle.None? then w
      else
        SaveKeeps(codec, w, batch, fault);
        AfterSave(codec, w, batch, fault)
    case Close => w.(handle := None)
    case Reopen =>
      OpenKeeps(codec, w);
      w.(handle := Open(w.disk))
    case Crash(after) =>
      if !w.disk.MayCrashTo(after) then w
      else
        CrashKeeps(codec, w, BasePage(codec, w), after);
        w.(disk := after, handle := None)
  }

  lemma OpenKeeps(codec: Codec, w: World)
    requires Inv(codec, w)
    ensures Inv(codec, w.(handle := Open(w.disk)))
  {
  }

  lemma FreshIsGood(codec: Codec)
    ensures BaseAt(codec, Fresh(), 0)
  {
  }

  ghost function Run(codec: Codec, events: seq<Event>): (w: World)
    requires RoundTrips(codec)
    ensures Inv(codec, w)
  {
    if events == [] then
      FreshIsGood(codec);
      Fresh()
    else Step(codec, Run(codec, events[..|events| - 1]), events[|events| - 1])
  }

  /** Whatever unsynced writes a crash takes, at any point of any history, the file opens again and
      shows exactly the chunks of the last acknowledged save or of an attempt made since, never an
      older generation; every chunk of it loads, decoded, as it was saved. */
  lemma CrashSafe(codec: Codec, events: seq<Event>, after: Disk, pos: Coord)
    requires RoundTrips(codec) && LocalIndex(codec.region, pos).Some?
    requires Run(codec, events).disk.MayCrashTo(after)
    ensures var w := Run(codec, events);
            && Open(after).Some?
            && var h := Open(after).value;
               && Points(codec, h.index, after.area, after.synced)
               && var m := Contents(codec, h.index, after.area, after.synced);
                  && (m == w.acked || m in w.since) && w.ackedGeneration <= h.index.generation
                  && var slot := LocalIndex(codec.region, pos).value;
                     && Load(codec, after, h, pos) == Loaded(if slot in m then Some(m[slot]) else None)
                     && (slot in m ==> m[slot].pos == pos)
  {
    var w := Run(codec, events);
    var b := BasePage(codec, w);
    CrashKeeps(codec, w, b, after);
    var w' := w.(disk := after, handle := None);
    OpenFinds(codec, w', b);
    LoadsExactly(codec, after, Open(after).value, pos);
  }

  /** A save of distinct chunks of the region, all of which encode, is acknowledged in any history. The
      handle then shows each of them, every other chunk as before, and nothing is pending. */
  lemma AcknowledgedSaveShows(codec: Codec, events: seq<Event>, batch: seq<Stored>)
    requires RoundTrips(codec)
    requires var w := Run(codec, events);
             w.handle.Some? && w.handle.value.index.generation < U64_MAX
    requires batch != [] && Acceptable(codec, batch)
    ensures var w := Run(codec, events);
            var w' := Run(codec, events + [SaveChunks(batch, NoFault)]);
            && w'.handle.Some? && w'.since == {} && w'.acked == Shown(codec, w')
            && HoldsBatch(codec, w'.acked, batch) && KeepsOthers(codec, Shown(codec, w), w'.acked, batch)
  {
    var w := Run(codec, events);
    var all := events + [SaveChunks(batch, NoFault)];
    assert all[..|all| - 1] == events;
    AcceptedExactly(codec, batch);
    WholeSaveShows(codec, w, batch);
    AppliedIsBatch(codec, Shown(codec, w), batch);
  }

  lemma WholeSaveShows(codec: Codec, w: World, batch: seq<Stored>)
    requires WritesRecords(codec, w, batch, NoFault) && ReachesPage(w, NoFault)
    ensures var w' := AfterSave(codec, w, batch, NoFault);
            && w'.handle.Some? && w'.since == {} && Inv(codec, w')
            && w'.acked == Wanted(codec, w, batch) == Shown(codec, w')
  {
    WholeSaveKeeps(codec, w, batch);
    WholeSaveShape(codec, w, batch);
    HandlePoints(codec, AfterSave(codec, w, batch, NoFault));
  }

  /** In every history the indexed records are pairwise apart inside the record area, so live bytes
      never exceed it and `stats` cannot report a corrupt index. */
  lemma SpaceAddsUp(codec: Codec, events: seq<Event>)
    requires RoundTrips(codec) && Run(codec, events).handle.Some?
    ensures var w := Run(codec, events);
            && Points(codec, w.handle.value.index, w.disk.area, w.disk.synced)
            && LiveBytes(w.handle.value.index.entries) <= |w.disk.area|
  {
    var w := Run(codec, events);
    HandlePoints(codec, w);
    LiveFitsTheArea(codec, w.handle.value.index, w.disk.area, w.disk.synced);
  }
}
