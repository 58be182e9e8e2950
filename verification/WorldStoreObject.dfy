/** The world store as the program keeps it: records and change log updated in place, held to the
    functions of ChunkRecords and ChangeLog. Each method is one atomic step. */
module WorldStoreObject {
  import opened Coordinates
  import opened Options
  import opened Nibbles
  import opened ChunkRecords
  import opened ChangeLog

  /** One validation loop; the four loops of the patch differ in their verdict only. */
  method CheckWrites(writes: seq<Write>, verdict: Verdict) returns (bad: Option<Error>)
    ensures bad == FirstBad(writes, verdict)
  {
    assert writes[0..] == writes;
    for k := 0 to |writes|
      invariant FirstBad(writes[k..], verdict) == FirstBad(writes, verdict)
    {
      assert writes[k..][1..] == writes[k + 1..];
      if verdict(writes[k]).Some? {
        return verdict(writes[k]);
      }
    }
    bad := None;
  }

  method CheckPatch(rules: Rules, p: Patch) returns (bad: Option<Error>)
    ensures bad == Bad(rules, p)
  {
    bad := CheckWrites(p.blocks, BlockVerdict(rules));
    if bad.None? {
      bad := CheckWrites(p.biomes, BiomeVerdict(rules));
    }
    if bad.None? {
      bad := CheckWrites(p.extra, ExtraVerdict());
    }
    if bad.None? {
      bad := CheckWrites(p.sky + p.block, LightVerdict());
    }
  }

  /** Writes block states in order and notes the columns whose content really changed. */
  method WriteBlocks(plane: seq<nat>, writes: seq<Write>, touched: array<bool>) returns (states: seq<nat>)
    requires |plane| == BLOCKS && forall k :: 0 <= k < |writes| ==> writes[k].index < BLOCKS
    requires touched.Length == COLUMNS && forall c :: 0 <= c < COLUMNS ==> !touched[c]
    modifies touched
    ensures states == Written(plane, writes)
    ensures forall c :: 0 <= c < COLUMNS ==> (touched[c] <==> c in Touched(plane, writes))
  {
    states := plane;
    for k := 0 to |writes|
      invariant states == Written(plane, writes[..k])
      invariant forall c :: 0 <= c < COLUMNS ==> (touched[c] <==> c in Touched(plane, writes[..k]))
    {
      var w := writes[k];
      assert writes[..k + 1][..k] == writes[..k];
      if states[w.index] != w.value {
        states := states[w.index := w.value];
        touched[w.index % COLUMNS] := true;
      } else {
        assert states == states[w.index := w.value];
      }
    }
    assert writes[..|writes|] == writes;
  }

  method WritePlane(plane: seq<nat>, writes: seq<Write>) returns (r: seq<nat>)
    requires forall k :: 0 <= k < |writes| ==> writes[k].index < |plane|
    ensures r == Written(plane, writes)
  {
    r := plane;
    for k := 0 to |writes|
      invariant r == Written(plane, writes[..k])
    {
      assert writes[..k + 1][..k] == writes[..k];
      r := r[writes[k].index := writes[k].value];
    }
    assert writes[..|writes|] == writes;
  }

  method WriteExtra(extra: map<nat, nat>, writes: seq<Write>) returns (r: map<nat, nat>)
    ensures r == ExtraWritten(extra, writes)
  {
    r := extra;
    for k := 0 to |writes|
      invariant r == ExtraWritten(extra, writes[..k])
    {
      assert writes[..k + 1][..k] == writes[..k];
      var key := ExtraKey(writes[k].index);
      r := if writes[k].value == 0 then r - {key} else r[key := writes[k].value];
    }
    assert writes[..|writes|] == writes;
  }

  method WriteLevels(plane: seq<nat>, writes: seq<Write>) returns (r: seq<nat>)
    requires forall k :: 0 <= k < |writes| ==> writes[k].index / 2 < |plane|
    ensures r == NibblesWritten(plane, writes)
  {
    r := plane;
    for k := 0 to |writes|
      invariant r == NibblesWritten(plane, writes[..k])
    {
      assert writes[..k + 1][..k] == writes[..k];
      r := WithNibble(r, writes[k].index, writes[k].value);
    }
    assert writes[..|writes|] == writes;
  }

  /** Scans a column from the top. */
  method ColumnHeight(states: seq<nat>, column: nat) returns (h: nat)
    requires |states| == BLOCKS && column < COLUMNS
    ensures h == Top(states, column)
  {
    var y: nat := HEIGHT;
    while y > 0
      invariant y <= HEIGHT && Top(states, column) == TopBelow(states, column, y)
    {
      y := y - 1;
      if states[y * COLUMNS + column] != 0 {
        return y;
      }
    }
    h := 0;
  }

  method RecalculateTouched(heights: seq<nat>, states: seq<nat>, touched: array<bool>, ghost columns: set<nat>)
      returns (r: seq<nat>)
    requires |heights| == COLUMNS && |states| == BLOCKS && touched.Length == COLUMNS
    requires forall c :: 0 <= c < COLUMNS ==> (touched[c] <==> c in columns)
    ensures r == HeightsAfter(heights, states, columns)
  {
    r := heights;
    for c := 0 to COLUMNS
      invariant |r| == COLUMNS
      invariant forall k :: 0 <= k < COLUMNS ==> r[k] == if k < c && k in columns then Top(states, k) else heights[k]
    {
      if touched[c] {
        var h := ColumnHeight(states, c);
        r := r[c := h];
      }
    }
  }

  method PatchData(d: ChunkData, p: Patch) returns (r: ChunkData)
    requires Shaped(d) && InRange(p)
    ensures r == PatchedData(d, p)
  {
    var touched := new bool[COLUMNS](_ => false);
    var states := WriteBlocks(d.states, p.blocks, touched);
    var biomes := WritePlane(d.biomes, p.biomes);
    var extra := WriteExtra(d.extra, p.extra);
    var sky := WriteLevels(d.sky, p.sky);
    var block := WriteLevels(d.block, p.block);
    var heights := RecalculateTouched(d.heights, states, touched, Touched(d.states, p.blocks));
    r := ChunkData(states, sky, block, biomes, heights, extra);
  }

  class WorldStore {
    const rules: Rules
    var chunks: map<Coord, Record>
    var log: Log

    ghost predicate Valid()
      reads this
    {
      ValidStore(Store(chunks, log))
    }

    constructor (rules: Rules)
      ensures Valid() && this.rules == rules && chunks == map[] && log == EMPTY_LOG
    {
      this.rules, chunks, log := rules, map[], EMPTY_LOG;
    }

    method RecordChange(pos: Coord, kind: Kind)
      modifies this`log
      ensures log == Recorded(old(log), pos, kind)
    {
      var sequence := log.next;
      log := log.(next := log.next + 1);
      if |log.changes| == CAPACITY {
        log := log.(changes := log.changes[1..]);
      }
      log := log.(changes := log.changes + [Change(sequence, pos, kind)]);
    }

    method PruneChangesThrough(sequence: nat)
      modifies this`log
      ensures log == Pruned(old(log), sequence)
    {
      while log.changes != [] && log.changes[0].sequence <= sequence
        invariant Pruned(log, sequence) == Pruned(old(log), sequence)
        decreases |log.changes|
      {
        log := log.(changes := log.changes[1..]);
      }
    }

    /** Either everything is refused and nothing changes, or the whole patch is in. */
    method ApplyPatch(pos: Coord, p: Patch) returns (r: Result<()>)
      requires Valid()
      modifies this
      ensures Valid() && Store(chunks, log) == PatchStore(rules, old(Store(chunks, log)), pos, p)
      ensures r == match PatchOutcome(rules, old(Store(chunks, log)), pos, p) case Ok(_) => Ok(()) case Err(e) => Err(e)
    {
      var bad := CheckPatch(rules, p);
      if bad.Some? {
        return Err(bad.value);
      }
      if pos !in chunks {
        return Err(ChunkMissing);
      }
      var record := chunks[pos];
      var conflict := CheckRevisions(record, p);
      if conflict.Some? {
        return Err(conflict.value);
      }
      ValidatedIsInRange(rules, p);
      var data := PatchData(record.data, p);
      chunks := chunks[pos := record.(data := data, terrain := p.nextTerrain, light := p.nextLight)];
      if LoggedAs(p).Some? {
        RecordChange(pos, LoggedAs(p).value);
      }
      r := Ok(());
    }

    method CheckRevisions(record: Record, p: Patch) returns (e: Option<Error>)
      ensures e == Conflict(record, p)
    {
      if record.terrain != p.expectedTerrain {
        return Some(TerrainConflict);
      }
      if record.light != p.expectedLight {
        return Some(LightConflict);
      }
      var terrainNext := record.terrain;
      if ChangesTerrain(p) {
        if record.terrain >= ChunkRecords.U64_MAX {
          return Some(TerrainExhausted);
        }
        terrainNext := terrainNext + 1;
      }
      if p.nextTerrain != terrainNext {
        return Some(BadTerrainStep);
      }
      var lightNext := record.light;
      if ChangesLight(p) {
        if record.light >= ChunkRecords.U64_MAX {
          return Some(LightExhausted);
        }
        lightNext := lightNext + 1;
      }
      if p.nextLight != lightNext {
        return Some(BadLightStep);
      }
      e := None;
    }

    /** Installs generator output, stepping the revision of each domain that changed. */
    method InstallGenerated(pos: Coord, data: ChunkData, flags: set<Flag>) returns (r: Result<bool>)
      requires Valid()
      modifies this`chunks
      ensures Valid()
      ensures var was := if pos in old(chunks) then Some(old(chunks)[pos]) else None;
              match Installed(rules, was, data, flags)
              case Ok(n) => r.Ok? && chunks == old(chunks)[pos := n] && (r.value <==> was != Some(n))
              case Err(e) => r == Err(e) && chunks == match AfterRefusedInstall(rules, was, data)
                                                   case None => old(chunks)
                                                   case Some(n) => old(chunks)[pos := n]
    {
      if !ImportOk(rules, data) {
        if pos in chunks {
          assert chunks == chunks[pos := chunks[pos]];
        }
        return Err(InvalidImport);
      }
      if pos !in chunks {
        chunks := chunks[pos := Record(0, 0, None, None, None, flags, data)];
        return Ok(true);
      }
      var record := chunks[pos];
      assert chunks == chunks[pos := record];
      var terrainChanged, lightChanged := !SameTerrain(record.data, data), !SameLight(record.data, data);
      var lifecycleChanged := record.flags != flags;
      if terrainChanged {
        if record.terrain >= ChunkRecords.U64_MAX {
          return Err(TerrainExhausted);
        }
        record := record.(terrain := record.terrain + 1);
        chunks := chunks[pos := record];
      }
      if lightChanged {
        if record.light >= ChunkRecords.U64_MAX {
          return Err(LightExhausted);
        }
        record := record.(light := record.light + 1);
      }
      if terrainChanged || lightChanged {
        record := record.(data := data);
      }
      chunks := chunks[pos := record.(flags := flags)];
      r := Ok(terrainChanged || lightChanged || lifecycleChanged);
    }

    method MarkPersisted(pos: Coord, terrain: nat, light: nat, flags: set<Flag>) returns (r: Result<()>)
      requires Valid()
      modifies this`chunks
      ensures Valid()
      ensures pos !in old(chunks) ==> r == Err(ChunkMissing) && chunks == old(chunks)
      ensures pos in old(chunks) ==>
        match MarkedSaved(old(chunks)[pos], terrain, light, flags)
        case Ok(n) => r == Ok(()) && chunks == old(chunks)[pos := n]
        case Err(e) => r == Err(e) && chunks == old(chunks)
    {
      if pos !in chunks {
        return Err(ChunkMissing);
      }
      var record := chunks[pos];
      if terrain > record.terrain || light > record.light {
        return Err(SavedAhead);
      }
      if record.savedTerrain.Some? && terrain < record.savedTerrain.value {
        return Err(SavedRegressed);
      }
      if record.savedLight.Some? && light < record.savedLight.value {
        return Err(SavedRegressed);
      }
      chunks := chunks[pos := record.(savedTerrain := Some(terrain), savedLight := Some(light),
          savedFlags := Some(flags))];
      r := Ok(());
    }

    /** Snapshots of dirty chunks that have no save in flight, at most `limit` of them; all of them
        if there is room. */
    method DirtySnapshotsExcluding(limit: nat, excluded: set<Coord>) returns (snapshots: map<Coord, Snapshot>)
      requires Valid()
      ensures |snapshots| <= limit
      ensures forall p :: p in snapshots ==>
        p in chunks && p !in excluded && IsDirty(chunks[p]) && snapshots[p] == Snap(chunks[p])
      ensures |snapshots| < limit ==> forall p :: p in chunks && p !in excluded && IsDirty(chunks[p]) ==> p in snapshots
    {
      snapshots := map[];
      var left := chunks.Keys;
      while left != {} && |snapshots| < limit
        invariant left <= chunks.Keys && |snapshots| <= limit
        invariant forall p :: p in snapshots ==>
          p in chunks && p !in left && p !in excluded && IsDirty(chunks[p]) && snapshots[p] == Snap(chunks[p])
        invariant forall p :: p in chunks && p !in left && p !in excluded && IsDirty(chunks[p]) ==> p in snapshots
        decreases left
      {
        var p :| p in left;
        left := left - {p};
        if IsDirty(chunks[p]) && p !in excluded {
          snapshots := snapshots[p := Snap(chunks[p])];
        }
      }
    }
  }
}
