/** The open region file as the program keeps it, held to the functions of RegionCommit. I/O
    failures come in as a fault. */
module RegionFileObject {
  import opened Coordinates
  import opened Options
  import opened RegionDisk
  import opened RegionCommit
  import opened RegionSafety
  import opened RegionHistory

  datatype Stats = Stats(fileBytes: nat, recordBytes: nat, liveBytes: nat, deadBytes: nat, indexed: nat)

  function Indexed(entries: seq<Option<Entry>>): nat {
    if entries == [] then 0 else Indexed(entries[..|entries| - 1]) + if entries[|entries| - 1].Some? then 1 else 0
  }

  /** The slots in use. */
  function UsedSlots(entries: seq<Option<Entry>>): set<nat> {
    set s: nat | s < |entries| && entries[s].Some?
  }

  lemma {:induction false} IndexedCountsSlots(entries: seq<Option<Entry>>)
    ensures Indexed(entries) == |UsedSlots(entries)|
  {
    if entries != [] {
      var last := |entries| - 1;
      IndexedCountsSlots(entries[..last]);
      assert UsedSlots(entries) == UsedSlots(entries[..last]) + if entries[last].Some? then {last} else {};
    }
  }

  class RegionFile {
    const codec: Codec
    var disk: Disk
    var active: nat
    var index: RegionIndex

    ghost predicate Valid()
      reads this
    {
      disk.Valid() && active < 2 && |index.entries| == SLOTS
    }

    ghost function AsHandle(): Handle
      reads this
    {
      Handle(active, index)
    }

    constructor (codec: Codec, disk: Disk, h: Handle)
      requires disk.Valid() && h.active < 2 && |h.index.entries| == SLOTS
      ensures Valid() && this.codec == codec && this.disk == disk && AsHandle() == h
    {
      this.codec, this.disk, active, index := codec, disk, h.active, h.index;
    }

    /** Refuses a file whose header is not this region's; reads both index pages and takes the newer
        one that decodes. */
    static method FromOpenFile(codec: Codec, disk: Disk, headerOk: bool) returns (f: RegionFile?)
      requires disk.Valid()
      ensures f == null <==> !headerOk || Open(disk).None?
      ensures f != null ==>
        fresh(f) && f.Valid() && f.codec == codec && f.disk == disk && f.AsHandle() == Open(disk).value
    {
      if !headerOk {
        return null;
      }
      var a, b := disk.Cached(0), disk.Cached(1);
      if Decodes(a) && Decodes(b) && b.index.generation > a.index.generation {
        f := new RegionFile(codec, disk, Handle(1, b.index));
      } else if Decodes(a) {
        f := new RegionFile(codec, disk, Handle(0, a.index));
      } else if Decodes(b) {
        f := new RegionFile(codec, disk, Handle(1, b.index));
      } else {
        f := null;
      }
    }

    /** Refuses a batch with a foreign chunk, a repeated chunk or an unencodable record. */
    method CheckBatch(batch: seq<Stored>) returns (r: Option<Error>)
      ensures r == Refusal(codec, batch, {})
    {
      var seen: set<nat> := {};
      assert batch[0..] == batch;
      for k := 0 to |batch|
        invariant Refusal(codec, batch[k..], seen) == Refusal(codec, batch, {})
      {
        assert batch[k..][1..] == batch[k + 1..];
        var slot := LocalIndex(codec.region, batch[k].pos);
        if slot.None? {
          return Some(ChunkOutsideRegion);
        }
        if slot.value in seen {
          return Some(DuplicateChunkInCommit);
        }
        if codec.encode(batch[k]).None? {
          return Some(RecordTooLarge);
        }
        seen := seen + {slot.value};
      }
      r := None;
    }

    /** Appends the records one by one and drafts the next index. */
    method AppendRecords(batch: seq<Stored>, fault: Fault) returns (draft: RegionIndex, ok: bool)
      requires Valid() && forall k :: 0 <= k < |batch| ==> ItemOk(codec, batch[k])
      modifies this`disk
      ensures Valid() && ok == !fault.RecordWriteFails?
      ensures ok ==> Draft(draft, disk.area) == WriteAll(codec, Draft(index, old(disk.area)), batch)
      ensures !ok ==>
        disk.area == PartlyWritten(codec, Draft(index, old(disk.area)), batch, fault.records, fault.bytes)
      ensures disk == old(disk).(area := disk.area)
    {
      draft := index;
      ghost var start := Draft(index, disk.area);
      WriteAllGrows(codec, start, []);
      for k := 0 to |batch|
        invariant fault.RecordWriteFails? ==> k <= fault.records
        invariant batch[..k] <= batch && Draft(draft, disk.area) == WriteAll(codec, start, batch[..k])
        invariant old(disk.area) <= disk.area && disk == old(disk).(area := disk.area)
      {
        var item := batch[k];
        assert ItemOk(codec, item);
        assert batch[..k + 1][..k] == batch[..k];
        var record := RecordOf(codec, item);
        if fault.RecordWriteFails? && fault.records == k {
          disk := disk.Appended(record[..MinLength(fault.bytes, record)]);
          return draft, false;
        }
        var entry := Entry(RECORD_AREA + |disk.area|, |record|, codec.crc(record), item.terrain, item.light);
        disk := disk.Appended(record);
        draft := draft.(entries := draft.entries[LocalIndex(codec.region, item.pos).value := Some(entry)]);
      }
      assert batch[..|batch|] == batch;
      ok := !fault.RecordWriteFails?;
    }

    method SaveChunks(batch: seq<Stored>, fault: Fault) returns (r: Outcome)
      requires Valid()
      modifies this
      ensures SaveResult(disk, AsHandle(), r) == Save(codec, old(disk), old(AsHandle()), batch, fault)
    {
      if batch == [] {
        return Saved(index.generation, 0, 0);
      }
      var refusal := CheckBatch(batch);
      if refusal.Some? {
        return Failed(refusal.value);
      }
      AcceptedBatch(codec, batch, {});
      WriteAllGrows(codec, Draft(index, disk.area), batch);
      var start := |disk.area|;
      var next, written := AppendRecords(batch, fault);
      if !written {
        return Failed(WriteFailed);
      }
      if fault.RecordSyncFails? {
        return Failed(SyncFailed);
      }
      disk := disk.Synced();
      if index.generation >= U64_MAX {
        return Failed(IndexGenerationExhausted);
      }
      next := next.(generation := index.generation + 1);
      r := WritePage(next, fault, Saved(next.generation, |batch|, |disk.area| - start));
    }

    /** Writes the next index to the inactive page and switches to it once it is safe. */
    method WritePage(next: RegionIndex, fault: Fault, saved: Outcome) returns (r: Outcome)
      requires Valid() && |next.entries| == SLOTS
      modifies this
      ensures SaveResult(disk, AsHandle(), r) == CommitPage(old(disk), old(AsHandle()), next, fault, saved)
      ensures Valid()
    {
      var inactive := 1 - active;
      if fault.PageWriteFails? {
        if fault.landed.Some? {
          disk := disk.PageWritten(inactive, if fault.landed.value then Page(next) else Torn);
        }
        return Failed(WriteFailed);
      }
      disk := disk.PageWritten(inactive, Page(next));
      if fault.PageSyncFails? {
        return Failed(SyncFailed);
      }
      disk := disk.Synced();
      active := inactive;
      index := next;
      r := saved;
    }

    method LoadChunk(pos: Coord) returns (r: LoadResult)
      requires Valid()
      ensures r == Load(codec, disk, AsHandle(), pos)
    {
      var slot := LocalIndex(codec.region, pos);
      if slot.None? {
        return LoadFailed(ChunkOutsideRegion);
      }
      if index.entries[slot.value].None? {
        return Loaded(None);
      }
      r := ReadIndexedRecord(slot.value, index.entries[slot.value].value, pos);
    }

    /** Reads one record and holds it against its entry and the position asked for. */
    method ReadIndexedRecord(slot: nat, e: Entry, pos: Coord) returns (r: LoadResult)
      requires Valid() && LocalIndex(codec.region, pos) == Some(slot) && index.entries[slot] == Some(e)
      ensures r == Load(codec, disk, AsHandle(), pos)
    {
      if e.length > MAX_RECORD {
        return LoadFailed(RecordTooLarge);
      }
      if e.offset < RECORD_AREA || e.offset + e.length > RECORD_AREA + |disk.area| {
        return LoadFailed(CorruptRecord);
      }
      var record := disk.area[e.offset - RECORD_AREA..e.offset - RECORD_AREA + e.length];
      if codec.crc(record) != e.checksum || codec.decode(record).None? {
        return LoadFailed(CorruptRecord);
      }
      var c := codec.decode(record).value;
      var actual := LocalIndex(codec.region, c.pos);
      if actual.None? {
        return LoadFailed(ChunkOutsideRegion);
      }
      if actual.value != slot {
        return LoadFailed(CoordinateMismatch);
      }
      if c.terrain != e.terrain || c.light != e.light {
        return LoadFailed(RevisionMismatch);
      }
      return if c.pos != pos then LoadFailed(CoordinateMismatch) else Loaded(Some(c));
    }

    /** Fails exactly when the index claims more than the area holds; otherwise live and dead bytes
        add up to the area. */
    method ReadStats() returns (r: Option<Stats>)
      requires Valid()
      ensures r.None? <==> LiveBytes(index.entries) > |disk.area|
      ensures r.Some? ==>
        && r.value.fileBytes == RECORD_AREA + r.value.recordBytes && r.value.recordBytes == |disk.area|
        && r.value.recordBytes == r.value.liveBytes + r.value.deadBytes && r.value.liveBytes == LiveBytes(index.entries)
        && r.value.indexed == Indexed(index.entries)
    {
      var live, indexed := 0, 0;
      for s := 0 to SLOTS
        invariant live == LiveBytes(index.entries[..s]) && indexed == Indexed(index.entries[..s])
      {
        assert index.entries[..s + 1][..s] == index.entries[..s];
        if index.entries[s].Some? {
          live, indexed := live + index.entries[s].value.length, indexed + 1;
        }
      }
      assert index.entries[..SLOTS] == index.entries;
      if live > |disk.area| {
        return None;
      }
      r := Some(Stats(RECORD_AREA + |disk.area|, |disk.area|, live, |disk.area| - live, indexed));
    }
  }
  /** The object and the world it stands for: the same file, and a handle exactly while it is open. */
  ghost predicate StandsFor(codec: Codec, disk: Disk, f: RegionFile?, w: World)
    reads f
  {
    && disk == w.disk && disk.Valid() && (f == null <==> w.handle.None?)
    && (f != null ==> f.Valid() && f.codec == codec && f.disk == disk && w.handle == Some(f.AsHandle()))
  }

  method PerformEvent(codec: Codec, e: Event, disk: Disk, f: RegionFile?, ghost w: World)
    returns (disk': Disk, f': RegionFile?)
    requires Inv(codec, w) && StandsFor(codec, disk, f, w)
    modifies f
    ensures f' == f || f' == null || fresh(f')
    ensures StandsFor(codec, disk', f', RegionHistory.Step(codec, w, e))
  {
    disk', f' := disk, f;
    match e
    case SaveChunks(batch, fault) =>
      if f != null {
        HandlePoints(codec, w);
        var _ := f.SaveChunks(batch, fault);
        disk' := f.disk;
      }
    case Close =>
      f' := null;
    case Reopen =>
      OpenKeeps(codec, w);
      f' := RegionFile.FromOpenFile(codec, disk, true);
    case Crash(after) =>
      if disk.MayCrashTo(after) {
        disk', f' := after, null;
      }
  }

  /** Any history of one region file, performed on the object: it stays inside the crash-safety
      invariant, and what it holds is what the history says. */
  method Drive(codec: Codec, events: seq<Event>) returns (disk: Disk, f: RegionFile?)
    requires RoundTrips(codec)
    ensures f != null ==> fresh(f)
    ensures Inv(codec, RegionHistory.Run(codec, events)) && StandsFor(codec, disk, f, RegionHistory.Run(codec, events))
  {
    disk, f := Fresh().disk, null;
    assert events[..0] == [];
    for k := 0 to |events|
      invariant f != null ==> fresh(f)
      invariant StandsFor(codec, disk, f, RegionHistory.Run(codec, events[..k]))
    {
      assert events[..k + 1][..k] == events[..k];
      disk, f := PerformEvent(codec, events[k], disk, f, RegionHistory.Run(codec, events[..k]));
    }
    assert events[..|events|] == events;
  }
}
