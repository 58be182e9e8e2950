/** Opening a region file, loading a chunk from it, and saving a batch into it, with every point at
    which a save can fail. */
module RegionCommit {
  import opened Coordinates
  import opened Options
  import opened RegionDisk

  datatype Error =
    | InvalidIndexPages | ChunkOutsideRegion | DuplicateChunkInCommit | RecordTooLarge
    | IndexGenerationExhausted | CorruptRecord | CoordinateMismatch | RevisionMismatch | WriteFailed | SyncFailed

  datatype Outcome = Saved(generation: nat, records: nat, appended: nat) | Failed(error: Error)

  /** Where a save attempt stops. A record write may land in part, a page write not at all, torn or
      whole, although the call fails. */
  datatype Fault =
    | NoFault
    | RecordWriteFails(records: nat, bytes: nat)
    | RecordSyncFails
    | PageWriteFails(landed: Option<bool>)
    | PageSyncFails

  datatype Handle = Handle(active: nat, index: RegionIndex)

  // ----- opening

  predicate Decodes(p: Page) {
    p.Page? && |p.index.entries| == SLOTS
    && forall s :: 0 <= s < SLOTS && p.index.entries[s].Some? ==>
         RECORD_AREA <= p.index.entries[s].value.offset && 0 < p.index.entries[s].value.length <= MAX_RECORD
  }

  /** The page with the greater generation; the first on a tie. */
  function Select(a: Page, b: Page): Option<Handle> {
    if Decodes(a) && Decodes(b) && b.index.generation > a.index.generation then Some(Handle(1, b.index))
    else if Decodes(a) then Some(Handle(0, a.index))
    else if Decodes(b) then Some(Handle(1, b.index))
    else None
  }

  function Open(d: Disk): Option<Handle>
    requires |d.safe| == 2 && |d.unsynced| == 2
  {
    Select(d.Cached(0), d.Cached(1))
  }

  /** A page decodes exactly if it is whole and every entry points past the fixed area at a record of
      legal length. */
  lemma PageDecodesExactly(p: Page)
    ensures Decodes(p) <==>
              && p.Page? && |p.index.entries| == 256
              && forall e: Entry :: Some(e) in p.index.entries ==> e.offset >= 32832 && 1 <= e.length <= 4259840
  {
    if p.Page? && |p.index.entries| == 256 {
      forall s | 0 <= s < 256 && p.index.entries[s].Some?
        ensures Some(p.index.entries[s].value) in p.index.entries
      {
        assert p.index.entries[s] == Some(p.index.entries[s].value);
      }
    }
  }

  /** Opening succeeds exactly when a page decodes; it takes one that does and that no other outdates,
      the first page on a tie. */
  lemma OpensNewest(d: Disk)
    requires |d.safe| == 2 && |d.unsynced| == 2
    ensures Open(d).Some? <==> Decodes(d.Cached(0)) || Decodes(d.Cached(1))
    ensures Open(d).Some? ==>
              var h := Open(d).value;
              && h.active < 2 && Decodes(d.Cached(h.active)) && d.Cached(h.active) == Page(h.index)
              && var other := d.Cached(1 - h.active);
                 (Decodes(other) ==>
                    other.index.generation < h.index.generation
                    || (other.index.generation == h.index.generation && h.active == 0))
  {
  }

  // ----- reading

  datatype LoadResult = Loaded(chunk: Option<Stored>) | LoadFailed(error: Error)

  /** Nothing for an empty slot; an error for anything that does not read as its entry says. */
  function Load(codec: Codec, d: Disk, h: Handle, pos: Coord): LoadResult
    requires |h.index.entries| == SLOTS
  {
    match LocalIndex(codec.region, pos)
    case None => LoadFailed(ChunkOutsideRegion)
    case Some(slot) =>
      match h.index.entries[slot]
      case None => Loaded(None)
      case Some(e) =>
        if e.length > MAX_RECORD then LoadFailed(RecordTooLarge)
        else if e.offset < RECORD_AREA || e.offset + e.length > RECORD_AREA + |d.area| then LoadFailed(CorruptRecord)
        else Decoded(codec, d.area[e.offset - RECORD_AREA..e.offset - RECORD_AREA + e.length], e, slot, pos)
  }

  function Decoded(codec: Codec, record: Bytes, e: Entry, slot: nat, pos: Coord): LoadResult {
    if codec.crc(record) != e.checksum || codec.decode(record).None? then LoadFailed(CorruptRecord)
    else
      var c := codec.decode(record).value;
      if LocalIndex(codec.region, c.pos).None? then LoadFailed(ChunkOutsideRegion)
      else if LocalIndex(codec.region, c.pos) != Some(slot) then LoadFailed(CoordinateMismatch)
      else if c.terrain != e.terrain || c.light != e.light then LoadFailed(RevisionMismatch)
      else if c.pos != pos then LoadFailed(CoordinateMismatch)
      else Loaded(Some(c))
  }

  /** A chunk loads exactly from a record inside the file whose checksum, slot, revisions and position
      all agree, and nothing loads exactly from an empty slot. */
  lemma LoadsOnlySound(codec: Codec, d: Disk, h: Handle, pos: Coord, c: Stored)
    requires |h.index.entries| == SLOTS
    ensures Load(codec, d, h, pos) == Loaded(None) <==>
              LocalIndex(codec.region, pos).Some? && h.index.entries[LocalIndex(codec.region, pos).value].None?
    ensures Load(codec, d, h, pos) == Loaded(Some(c)) <==>
              && c.pos == pos && LocalIndex(codec.region, pos).Some?
              && var entry := h.index.entries[LocalIndex(codec.region, pos).value];
                 && entry.Some? && RECORD_AREA <= entry.value.offset && entry.value.length <= MAX_RECORD
                 && entry.value.offset + entry.value.length <= RECORD_AREA + |d.area|
                 && var record := d.area[entry.value.offset - RECORD_AREA..][..entry.value.length];
                    && codec.crc(record) == entry.value.checksum && codec.decode(record) == Some(c)
                    && c.terrain == entry.value.terrain && c.light == entry.value.light
  {
    var slot := LocalIndex(codec.region, pos);
    if slot.Some? && h.index.entries[slot.value].Some? {
      var e := h.index.entries[slot.value].value;
      if RECORD_AREA <= e.offset && e.offset + e.length <= RECORD_AREA + |d.area| {
        var at := e.offset - RECORD_AREA;
        assert d.area[at..][..e.length] == d.area[at..at + e.length];
      }
    }
  }

  // ----- saving

  /** The first reason to refuse a batch, before anything is written. */
  function Refusal(codec: Codec, batch: seq<Stored>, seen: set<nat>): Option<Error> {
    if batch == [] then None
    else
      var slot := LocalIndex(codec.region, batch[0].pos);
      if slot.None? then Some(ChunkOutsideRegion)
      else if slot.value in seen then Some(DuplicateChunkInCommit)
      else if codec.encode(batch[0]).None? then Some(RecordTooLarge)
      else Refusal(codec, batch[1..], seen + {slot.value})
  }

  predicate ItemOk(codec: Codec, item: Stored) {
    LocalIndex(codec.region, item.pos).Some? && codec.encode(item).Some?
  }

  function RecordOf(codec: Codec, item: Stored): Bytes
    requires ItemOk(codec, item)
  {
    codec.encode(item).value
  }

  /** What is wrong with item `k`: a foreign chunk, a slot an earlier item has, or no record. */
  ghost function ItemFault(codec: Codec, batch: seq<Stored>, k: nat): Option<Error>
    requires k < |batch|
  {
    var slot := LocalIndex(codec.region, batch[k].pos);
    if slot.None? then Some(ChunkOutsideRegion)
    else if exists j :: 0 <= j < k && LocalIndex(codec.region, batch[j].pos) == slot then Some(DuplicateChunkInCommit)
    else if codec.encode(batch[k]).None? then Some(RecordTooLarge)
    else None
  }

  /** Every item has a slot of its own and a record. */
  ghost predicate Acceptable(codec: Codec, batch: seq<Stored>) {
    && (forall k :: 0 <= k < |batch| ==> ItemOk(codec, batch[k]))
    && forall j, k :: 0 <= j < k < |batch| ==>
         LocalIndex(codec.region, batch[j].pos) != LocalIndex(codec.region, batch[k].pos)
  }

  lemma {:induction false} RefusalFrom(codec: Codec, batch: seq<Stored>, k: nat, seen: set<nat>) returns (first: nat)
    requires k <= |batch| && forall j :: 0 <= j < k ==> ItemFault(codec, batch, j).None?
    requires forall s :: s in seen <==> exists j :: 0 <= j < k && LocalIndex(codec.region, batch[j].pos) == Some(s)
    ensures first <= |batch| && forall j :: 0 <= j < first ==> ItemFault(codec, batch, j).None?
    ensures Refusal(codec, batch[k..], seen) == if first == |batch| then None else ItemFault(codec, batch, first)
    ensures first < |batch| ==> ItemFault(codec, batch, first).Some?
    decreases |batch| - k
  {
    first := k;
    if k < |batch| && ItemFault(codec, batch, k).None? {
      var slot := LocalIndex(codec.region, batch[k].pos).value;
      assert batch[k..][1..] == batch[k + 1..];
      first := RefusalFrom(codec, batch, k + 1, seen + {slot});
    }
  }

  /** A batch is refused over its first faulty item, with that item's fault. */
  lemma RefusedOverFirst(codec: Codec, batch: seq<Stored>) returns (first: nat)
    ensures first <= |batch| && forall j :: 0 <= j < first ==> ItemFault(codec, batch, j).None?
    ensures Refusal(codec, batch, {}) == if first == |batch| then None else ItemFault(codec, batch, first)
    ensures first < |batch| ==> ItemFault(codec, batch, first).Some?
  {
    assert batch[0..] == batch;
    first := RefusalFrom(codec, batch, 0, {});
  }

  /** A batch is accepted if and only if every item is the region's own, encodes, and repeats no other. */
  lemma AcceptedExactly(codec: Codec, batch: seq<Stored>)
    ensures Refusal(codec, batch, {}).None? <==> Acceptable(codec, batch)
  {
    var first := RefusedOverFirst(codec, batch);
    if first == |batch| {
      forall j, k | 0 <= j < k < |batch|
        ensures LocalIndex(codec.region, batch[j].pos) != LocalIndex(codec.region, batch[k].pos)
      {
        assert ItemFault(codec, batch, k).None?;
      }
      forall k | 0 <= k < |batch|
        ensures ItemOk(codec, batch[k])
      {
        assert ItemFault(codec, batch, k).None?;
      }
    }
  }

  lemma {:induction false} AcceptedBatch(codec: Codec, batch: seq<Stored>, seen: set<nat>)
    requires Refusal(codec, batch, seen).None?
    ensures forall k :: 0 <= k < |batch| ==> ItemOk(codec, batch[k])
  {
    if batch != [] {
      AcceptedBatch(codec, batch[1..], seen + {LocalIndex(codec.region, batch[0].pos).value});
      assert forall k :: 0 < k < |batch| ==> batch[k] == batch[1..][k - 1];
    }
  }

  datatype Draft = Draft(index: RegionIndex, area: Bytes)

  function WriteOne(codec: Codec, d: Draft, item: Stored): Draft
    requires |d.index.entries| == SLOTS && ItemOk(codec, item)
  {
    var record := RecordOf(codec, item);
    var entry := Entry(RECORD_AREA + |d.area|, |record|, codec.crc(record), item.terrain, item.light);
    Draft(d.index.(entries := d.index.entries[LocalIndex(codec.region, item.pos).value := Some(entry)]),
        d.area + record)
  }

  function WriteAll(codec: Codec, d: Draft, batch: seq<Stored>): (r: Draft)
    requires |d.index.entries| == SLOTS && forall k :: 0 <= k < |batch| ==> ItemOk(codec, batch[k])
    ensures |r.index.entries| == SLOTS && r.index.generation == d.index.generation
  {
    if batch == [] then d
    else WriteOne(codec, WriteAll(codec, d, batch[..|batch| - 1]), batch[|batch| - 1])
  }

  function MinLength(n: nat, record: Bytes): nat {
    if n <= |record| then n else |record|
  }

  /** What a failing record write leaves in the area: some whole records and a part of the next. */
  function PartlyWritten(codec: Codec, d: Draft, batch: seq<Stored>, records: nat, bytes: nat): Bytes
    requires |d.index.entries| == SLOTS && forall k :: 0 <= k < |batch| ==> ItemOk(codec, batch[k])
  {
    if records >= |batch| then WriteAll(codec, d, batch).area
    else WriteAll(codec, d, batch[..records]).area + RecordOf(codec, batch[records])[..MinLength(bytes,
        RecordOf(codec, batch[records]))]
  }

  datatype SaveResult = SaveResult(disk: Disk, handle: Handle, outcome: Outcome)

  function Landing(d: Disk, p: nat, next: RegionIndex, landed: Option<bool>): Disk
    requires p < |d.unsynced|
  {
    match landed
    case None => d
    case Some(whole) => d.PageWritten(p, if whole then Page(next) else Torn)
  }

  /** The inactive page, barrier, and the switch. */
  function CommitPage(d: Disk, h: Handle, next: RegionIndex, fault: Fault, saved: Outcome): SaveResult
    requires |d.safe| == 2 && |d.unsynced| == 2 && h.active < 2
  {
    if fault.PageWriteFails? then SaveResult(Landing(d, 1 - h.active, next, fault.landed), h, Failed(WriteFailed))
    else
      var paged := d.PageWritten(1 - h.active, Page(next));
      if fault.PageSyncFails? then SaveResult(paged, h, Failed(SyncFailed))
      else SaveResult(paged.Synced(), Handle(1 - h.active, next), saved)
  }

  /** Records, barrier, inactive page, barrier, then the switch. */
  function Save(codec: Codec, d: Disk, h: Handle, batch: seq<Stored>, fault: Fault): SaveResult
    requires |d.safe| == 2 && |d.unsynced| == 2 && h.active < 2 && |h.index.entries| == SLOTS
  {
    if batch == [] then SaveResult(d, h, Saved(h.index.generation, 0, 0))
    else if Refusal(codec, batch, {}).Some? then SaveResult(d, h, Failed(Refusal(codec, batch, {}).value))
    else
      AcceptedBatch(codec, batch, {});
      var draft := Draft(h.index, d.area);
      if fault.RecordWriteFails? then
        SaveResult(d.(area := PartlyWritten(codec, draft, batch, fault.records, fault.bytes)), h, Failed(WriteFailed))
      else
        var written := WriteAll(codec, draft, batch);
        WriteAllGrows(codec, draft, batch);
        var recorded := d.(area := written.area);
        if fault.RecordSyncFails? then SaveResult(recorded, h, Failed(SyncFailed))
        else if h.index.generation >= U64_MAX then SaveResult(recorded.Synced(), h, Failed(IndexGenerationExhausted))
        else
          var next := written.index.(generation := h.index.generation + 1);
          CommitPage(recorded.Synced(), h, next, fault, Saved(next.generation, |batch|, |written.area| - |d.area|))
  }

  // ----- what a batch means

  function Applied(codec: Codec, m: Chunks, batch: seq<Stored>): Chunks
    requires forall k :: 0 <= k < |batch| ==> ItemOk(codec, batch[k])
  {
    if batch == [] then m
    else
      var item := batch[|batch| - 1];
      assert ItemOk(codec, item);
      Applied(codec, m, batch[..|batch| - 1])[LocalIndex(codec.region, item.pos).value := item]
  }

  lemma PrefixAcceptable(codec: Codec, batch: seq<Stored>)
    requires Acceptable(codec, batch) && batch != []
    ensures Acceptable(codec, batch[..|batch| - 1])
  {
    assert forall k :: 0 <= k < |batch| - 1 ==> batch[..|batch| - 1][k] == batch[k];
  }

  lemma {:induction false} AppliedHolds(codec: Codec, m: Chunks, batch: seq<Stored>, k: nat)
    requires Acceptable(codec, batch) && k < |batch|
    ensures Holds(codec, Applied(codec, m, batch), batch[k])
  {
    var init, item := batch[..|batch| - 1], batch[|batch| - 1];
    assert ItemOk(codec, item);
    if k < |init| {
      PrefixAcceptable(codec, batch);
      AppliedHolds(codec, m, init, k);
      assert init[k] == batch[k] && LocalIndex(codec.region, batch[k].pos) != LocalIndex(codec.region, item.pos);
    }
  }

  lemma {:induction false} AppliedElsewhere(codec: Codec, m: Chunks, batch: seq<Stored>, s: nat)
    requires Acceptable(codec, batch) && !InBatch(codec, batch, s)
    ensures s in Applied(codec, m, batch) <==> s in m
    ensures s in m ==> Applied(codec, m, batch)[s] == m[s]
  {
    if batch != [] {
      var init, item := batch[..|batch| - 1], batch[|batch| - 1];
      PrefixAcceptable(codec, batch);
      assert forall k :: 0 <= k < |init| ==> init[k] == batch[k];
      assert ItemOk(codec, item) && LocalIndex(codec.region, item.pos) != Some(s);
      AppliedElsewhere(codec, m, init, s);
    }
  }

  /** A batch of distinct slots replaces exactly those slots, each by its item. */
  lemma AppliedIsBatch(codec: Codec, m: Chunks, batch: seq<Stored>)
    requires Acceptable(codec, batch)
    ensures HoldsBatch(codec, Applied(codec, m, batch), batch)
    ensures KeepsOthers(codec, m, Applied(codec, m, batch), batch)
  {
    var after := Applied(codec, m, batch);
    forall k | 0 <= k < |batch|
      ensures Holds(codec, after, batch[k])
    {
      AppliedHolds(codec, m, batch, k);
    }
    forall s | !InBatch(codec, batch, s)
      ensures (s in after <==> s in m) && (s in m ==> after[s] == m[s])
    {
      AppliedElsewhere(codec, m, batch, s);
    }
  }

  predicate Holds(codec: Codec, m: Chunks, item: Stored) {
    var slot := LocalIndex(codec.region, item.pos);
    slot.Some? && slot.value in m && m[slot.value] == item
  }

  ghost predicate HoldsBatch(codec: Codec, m: Chunks, batch: seq<Stored>) {
    forall k :: 0 <= k < |batch| ==> Holds(codec, m, batch[k])
  }

  ghost predicate InBatch(codec: Codec, batch: seq<Stored>, s: nat) {
    exists k :: 0 <= k < |batch| && LocalIndex(codec.region, batch[k].pos) == Some(s)
  }

  /** Every slot that is not the batch's is as it was. */
  ghost predicate KeepsOthers(codec: Codec, m: Chunks, after: Chunks, batch: seq<Stored>) {
    forall s :: !InBatch(codec, batch, s) ==> (s in after <==> s in m) && (s in m ==> after[s] == m[s])
  }

  /** What a save reports, for every fault, and what a failed one leaves alone. */
  lemma SaveReports(codec: Codec, d: Disk, h: Handle, batch: seq<Stored>, fault: Fault)
    requires |d.safe| == 2 && |d.unsynced| == 2 && h.active < 2 && |h.index.entries| == SLOTS
    ensures var r := Save(codec, d, h, batch, fault);
            && (r.outcome.Failed? ==> r.handle == h)
            && (batch == [] ==> r == SaveResult(d, h, Saved(h.index.generation, 0, 0)))
            && (batch != [] && !Acceptable(codec, batch) ==> r.disk == d && r.outcome.Failed?)
            && (batch != [] && Acceptable(codec, batch) ==>
                  && (fault.RecordWriteFails? ==> r.outcome == Failed(WriteFailed))
                  && (fault.RecordSyncFails? ==> r.outcome == Failed(SyncFailed))
                  && (!fault.RecordWriteFails? && !fault.RecordSyncFails? && h.index.generation >= U64_MAX ==>
                        r.outcome == Failed(IndexGenerationExhausted))
                  && (h.index.generation < U64_MAX ==>
                        && (fault.PageWriteFails? ==> r.outcome == Failed(WriteFailed))
                        && (fault.PageSyncFails? ==> r.outcome == Failed(SyncFailed))
                        && (fault.NoFault? ==>
                              && r.outcome == Saved(h.index.generation + 1, |batch|, |r.disk.area| - |d.area|)
                              && r.handle.active == 1 - h.active
                              && r.handle.index.generation == h.index.generation + 1)))
  {
    AcceptedExactly(codec, batch);
    if Refusal(codec, batch, {}).None? {
      AcceptedBatch(codec, batch, {});
    }
  }

  /** Filling one slot with an entry behind all others keeps the index pointing. */
  lemma NewEntryPoints(codec: Codec, i: RegionIndex, area: Bytes, n: nat, slot: nat, e: Entry)
    requires Points(codec, i, area, n) && slot < SLOTS
    requires EntryOk(e, |area|) && RECORD_AREA + n <= e.offset && Reads(codec, Slice(area, e), e, slot)
    ensures Points(codec, i.(entries := i.entries[slot := Some(e)]), area, |area|)
  {
  }

  lemma NewEntryContents(codec: Codec, i: RegionIndex, area: Bytes, n: nat, slot: nat, e: Entry)
    requires Points(codec, i, area, n) && slot < SLOTS && EntryOk(e, |area|) && Reads(codec, Slice(area, e), e, slot)
    requires Points(codec, i.(entries := i.entries[slot := Some(e)]), area, |area|)
    ensures Contents(codec, i.(entries := i.entries[slot := Some(e)]), area, |area|)
         == Contents(codec, i, area, n)[slot := codec.decode(Slice(area, e)).value]
  {
  }

  lemma WriteOnePoints(codec: Codec, d: Draft, item: Stored)
    requires RoundTrips(codec) && Points(codec, d.index, d.area, |d.area|) && ItemOk(codec, item)
    ensures var r := WriteOne(codec, d, item);
            && Points(codec, r.index, r.area, |r.area|)
            && Contents(codec, r.index, r.area, |r.area|)
               == Contents(codec, d.index, d.area, |d.area|)[LocalIndex(codec.region, item.pos).value := item]
            && d.area <= r.area
  {
    var record := RecordOf(codec, item);
    var area := d.area + record;
    var slot := LocalIndex(codec.region, item.pos).value;
    var e := Entry(RECORD_AREA + |d.area|, |record|, codec.crc(record), item.terrain, item.light);
    assert area[..|d.area|] == d.area[..|d.area|];
    PointsLast(codec, d.index, d.area, |d.area|, area, |d.area|);
    assert Slice(area, e) == record;
    NewEntryPoints(codec, d.index, area, |d.area|, slot, e);
    NewEntryContents(codec, d.index, area, |d.area|, slot, e);
  }

  lemma {:induction false} WriteAllPoints(codec: Codec, d: Draft, batch: seq<Stored>)
    requires RoundTrips(codec) && Points(codec, d.index, d.area, |d.area|)
    requires forall k :: 0 <= k < |batch| ==> ItemOk(codec, batch[k])
    ensures var r := WriteAll(codec, d, batch);
            && Points(codec, r.index, r.area, |r.area|)
            && Contents(codec, r.index, r.area, |r.area|) == Applied(codec, Contents(codec, d.index, d.area,
                |d.area|), batch)
            && d.area <= r.area
  {
    if batch != [] {
      var init := batch[..|batch| - 1];
      WriteAllPoints(codec, d, init);
      WriteOnePoints(codec, WriteAll(codec, d, init), batch[|batch| - 1]);
    }
  }

  lemma {:induction false} WriteAllGrows(codec: Codec, d: Draft, batch: seq<Stored>)
    requires |d.index.entries| == SLOTS && forall k :: 0 <= k < |batch| ==> ItemOk(codec, batch[k])
    ensures d.area <= WriteAll(codec, d, batch).area
  {
    if batch != [] {
      WriteAllGrows(codec, d, batch[..|batch| - 1]);
    }
  }
}
