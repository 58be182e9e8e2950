/** What each writer of a chunk record does, said by its outcome: when it succeeds, what every plane
    holds afterwards, and what stays. */
module ChunkLaws {
  import opened Coordinates
  import opened Options
  import opened Nibbles
  import opened ChunkRecords
  import opened ChangeLog

  // ----- patches

  /** Every write names a cell of its plane and a value the target supports. */
  ghost predicate Sound(rules: Rules, p: Patch) {
    && (forall k :: 0 <= k < |p.blocks| ==> p.blocks[k].index < BLOCKS && rules.state(p.blocks[k].value))
    && (forall k :: 0 <= k < |p.biomes| ==> p.biomes[k].index < COLUMNS && rules.biome(p.biomes[k].value))
    && (forall k :: 0 <= k < |p.extra| ==> p.extra[k].index < BLOCKS)
    && (forall k :: 0 <= k < |p.sky| ==> p.sky[k].index < BLOCKS && p.sky[k].value <= 15)
    && (forall k :: 0 <= k < |p.block| ==> p.block[k].index < BLOCKS && p.block[k].value <= 15)
  }

  /** Each domain is where the patch expects it and steps by one exactly if the patch writes to it. */
  ghost predicate Fits(r: Record, p: Patch) {
    var terrain, light := p.blocks != [] || p.biomes != [] || p.extra != [], p.sky != [] || p.block != [];
    && p.expectedTerrain == r.terrain && p.nextTerrain == r.terrain + (if terrain then 1 else 0)
    && p.expectedLight == r.light && p.nextLight == r.light + (if light then 1 else 0)
    && (terrain ==> p.nextTerrain <= U64_MAX) && (light ==> p.nextLight <= U64_MAX)
  }

  lemma SoundExactly(rules: Rules, p: Patch)
    ensures Bad(rules, p).None? <==> Sound(rules, p)
  {
    NoneBad(p.blocks, BlockVerdict(rules));
    NoneBad(p.biomes, BiomeVerdict(rules));
    NoneBad(p.extra, ExtraVerdict());
    NoneBad(p.sky + p.block, LightVerdict());
    BothSound(p.sky, p.block);
  }

  lemma BothSound(sky: seq<Write>, block: seq<Write>)
    ensures (forall k :: 0 <= k < |sky + block| ==> LightVerdict()((sky + block)[k]).None?) <==>
              && (forall k :: 0 <= k < |sky| ==> sky[k].index < BLOCKS && sky[k].value <= 15)
              && (forall k :: 0 <= k < |block| ==> block[k].index < BLOCKS && block[k].value <= 15)
  {
    assert forall k :: 0 <= k < |sky| ==> (sky + block)[k] == sky[k];
    assert forall k :: 0 <= k < |block| ==> (sky + block)[|sky| + k] == block[k];
  }

  /** A patch succeeds if and only if every write is sound and both revisions fit. */
  lemma PatchSucceedsExactly(rules: Rules, r: Record, p: Patch)
    requires Shaped(r.data) && r.terrain <= U64_MAX && r.light <= U64_MAX
    ensures Patched(rules, r, p).Ok? <==> Sound(rules, p) && Fits(r, p)
  {
    SoundExactly(rules, p);
  }

  lemma FirstOf(writes: seq<Write>, verdict: Verdict, k: nat)
    requires k < |writes| && verdict(writes[k]).Some? && forall j :: 0 <= j < k ==> verdict(writes[j]).None?
    ensures FirstBad(writes, verdict) == verdict(writes[k])
  {
    var first := FirstBadIsFirst(writes, verdict);
    assert first == k;
  }

  /** The first bad block write decides the error. */
  lemma BlockErrors(rules: Rules, p: Patch, k: nat)
    requires k < |p.blocks| && forall j :: 0 <= j < k ==> p.blocks[j].index < BLOCKS && rules.state(p.blocks[j].value)
    ensures p.blocks[k].index >= BLOCKS ==> Bad(rules, p) == Some(InvalidBlockIndex)
    ensures p.blocks[k].index < BLOCKS && !rules.state(p.blocks[k].value) ==> Bad(rules, p) == Some(InvalidState)
  {
    if p.blocks[k].index >= BLOCKS || !rules.state(p.blocks[k].value) {
      FirstOf(p.blocks, BlockVerdict(rules), k);
    }
  }

  /** With sound block writes, the first bad biome write does. */
  lemma BiomeErrors(rules: Rules, p: Patch, k: nat)
    requires Sound(rules, p.(biomes := [], extra := [], sky := [], block := []))
    requires k < |p.biomes| && forall j :: 0 <= j < k ==> p.biomes[j].index < COLUMNS && rules.biome(p.biomes[j].value)
    ensures p.biomes[k].index >= COLUMNS ==> Bad(rules, p) == Some(InvalidColumnIndex)
    ensures p.biomes[k].index < COLUMNS && !rules.biome(p.biomes[k].value) ==> Bad(rules, p) == Some(InvalidBiome)
  {
    NoneBad(p.blocks, BlockVerdict(rules));
    if p.biomes[k].index >= COLUMNS || !rules.biome(p.biomes[k].value) {
      FirstOf(p.biomes, BiomeVerdict(rules), k);
    }
  }

  /** Then an extra write out of range. */
  lemma ExtraErrors(rules: Rules, p: Patch, k: nat)
    requires Sound(rules, p.(extra := [], sky := [], block := []))
    requires k < |p.extra| && p.extra[k].index >= BLOCKS
    ensures Bad(rules, p) == Some(InvalidBlockIndex)
  {
    NoneBad(p.blocks, BlockVerdict(rules));
    NoneBad(p.biomes, BiomeVerdict(rules));
    NoneBad(p.extra, ExtraVerdict());
    assert ExtraVerdict()(p.extra[k]).Some?;
    var first := FirstBadIsFirst(p.extra, ExtraVerdict());
  }

  /** And last the first bad light write, sky before block. */
  lemma LightErrors(rules: Rules, p: Patch, k: nat)
    requires Sound(rules, p.(sky := [], block := [])) && k < |p.sky + p.block|
    requires forall j :: 0 <= j < k ==> (p.sky + p.block)[j].index < BLOCKS && (p.sky + p.block)[j].value <= 15
    ensures var w := (p.sky + p.block)[k];
            && (w.index >= BLOCKS ==> Bad(rules, p) == Some(InvalidBlockIndex))
            && (w.index < BLOCKS && w.value > 15 ==> Bad(rules, p) == Some(InvalidLight))
  {
    NoneBad(p.blocks, BlockVerdict(rules));
    NoneBad(p.biomes, BiomeVerdict(rules));
    NoneBad(p.extra, ExtraVerdict());
    if (p.sky + p.block)[k].index >= BLOCKS || (p.sky + p.block)[k].value > 15 {
      FirstOf(p.sky + p.block, LightVerdict(), k);
    }
  }

  /** A sound patch that does not fit is refused over the first revision that does not. */
  lemma RevisionErrors(r: Record, p: Patch)
    requires r.terrain <= U64_MAX && r.light <= U64_MAX
    ensures Conflict(r, p).None? <==> Fits(r, p)
    ensures Conflict(r, p) == Some(TerrainConflict) <==> p.expectedTerrain != r.terrain
    ensures Conflict(r, p) == Some(LightConflict) <==> p.expectedTerrain == r.terrain && p.expectedLight != r.light
    ensures Conflict(r, p) == Some(TerrainExhausted) ==> r.terrain == U64_MAX && ChangesTerrain(p)
    ensures Conflict(r, p) == Some(LightExhausted) ==> r.light == U64_MAX && ChangesLight(p)
    ensures Conflict(r, p) == Some(BadTerrainStep) ==> p.nextTerrain != r.terrain + if ChangesTerrain(p) then 1 else 0
    ensures Conflict(r, p) == Some(BadLightStep) ==> p.nextLight != r.light + if ChangesLight(p) then 1 else 0
  {
  }

  function OrElse(written: Option<nat>, old_: nat): nat {
    if written.Some? then written.value else old_
  }

  /** Which list of writes reaches which plane: every cell holds the last write of its own list, or
      what it held before. */
  ghost predicate PlanesWritten(d: ChunkData, n: ChunkData, p: Patch)
    requires Shaped(d) && Shaped(n)
  {
    && (forall i :: 0 <= i < BLOCKS ==> n.states[i] == OrElse(LastWrite(p.blocks, i), d.states[i]))
    && (forall i :: 0 <= i < COLUMNS ==> n.biomes[i] == OrElse(LastWrite(p.biomes, i), d.biomes[i]))
    && (forall i :: 0 <= i < BLOCKS ==> ReadNibble(n.sky, i) == OrElse(LastWrite(p.sky, i), ReadNibble(d.sky, i)))
    && (forall i :: 0 <= i < BLOCKS ==> ReadNibble(n.block, i) == OrElse(LastWrite(p.block, i), ReadNibble(d.block, i)))
    && (forall i :: 0 <= i < BLOCKS ==> ExtraAt(n, i) == OrElse(LastWrite(p.extra, i), ExtraAt(d, i)))
  }

  /** The extra value of a block; no entry is zero. */
  function ExtraAt(d: ChunkData, i: nat): nat {
    if ExtraKey(i) in d.extra then d.extra[ExtraKey(i)] else 0
  }

  lemma TerrainPlanesWritten(d: ChunkData, p: Patch)
    requires Shaped(d) && InRange(p)
    ensures var n := PatchedData(d, p);
            && (forall i :: 0 <= i < BLOCKS ==> n.states[i] == OrElse(LastWrite(p.blocks, i), d.states[i]))
            && (forall i :: 0 <= i < COLUMNS ==> n.biomes[i] == OrElse(LastWrite(p.biomes, i), d.biomes[i]))
  {
    var n := PatchedData(d, p);
    forall i | 0 <= i < BLOCKS
      ensures n.states[i] == OrElse(LastWrite(p.blocks, i), d.states[i])
    {
      WrittenIsLastWrite(d.states, p.blocks, i);
    }
    forall i | 0 <= i < COLUMNS
      ensures n.biomes[i] == OrElse(LastWrite(p.biomes, i), d.biomes[i])
    {
      WrittenIsLastWrite(d.biomes, p.biomes, i);
    }
  }

  lemma LightPlanesWritten(d: ChunkData, p: Patch)
    requires Shaped(d) && InRange(p)
    ensures var n := PatchedData(d, p);
            forall i :: 0 <= i < BLOCKS ==>
              && ReadNibble(n.sky, i) == OrElse(LastWrite(p.sky, i), ReadNibble(d.sky, i))
              && ReadNibble(n.block, i) == OrElse(LastWrite(p.block, i), ReadNibble(d.block, i))
  {
    var n := PatchedData(d, p);
    forall i | 0 <= i < BLOCKS
      ensures ReadNibble(n.sky, i) == OrElse(LastWrite(p.sky, i), ReadNibble(d.sky, i))
      ensures ReadNibble(n.block, i) == OrElse(LastWrite(p.block, i), ReadNibble(d.block, i))
    {
      NibblesAreLastWrites(d.sky, p.sky, i);
      NibblesAreLastWrites(d.block, p.block, i);
    }
  }

  lemma ExtraWrittenAt(d: ChunkData, p: Patch, i: nat)
    requires Shaped(d) && InRange(p) && i < BLOCKS
    ensures ExtraAt(PatchedData(d, p), i) == OrElse(LastWrite(p.extra, i), ExtraAt(d, i))
  {
    ExtraIsLastWrite(d.extra, p.extra, i);
  }

  /** A successful patch writes every plane, and touches neither flags nor marks. */
  lemma PatchWritesPlanes(rules: Rules, r: Record, p: Patch)
    requires Shaped(r.data) && Patched(rules, r, p).Ok?
    ensures var n := Patched(rules, r, p).value;
            && Shaped(n.data) && PlanesWritten(r.data, n.data, p)
            && n.flags == r.flags && n.savedTerrain == r.savedTerrain
            && n.savedLight == r.savedLight && n.savedFlags == r.savedFlags
            && (HeightsRight(r.data) ==> HeightsRight(n.data))
  {
    ValidatedIsInRange(rules, p);
    TerrainPlanesWritten(r.data, p);
    LightPlanesWritten(r.data, p);
    forall i | 0 <= i < BLOCKS
      ensures ExtraAt(PatchedData(r.data, p), i) == OrElse(LastWrite(p.extra, i), ExtraAt(r.data, i))
    {
      ExtraWrittenAt(r.data, p, i);
    }
    if HeightsRight(r.data) {
      PatchKeepsHeights(r.data, p);
    }
  }

  /** On a store: a refused patch changes nothing; any other writes its own chunk's planes, leaves all
      other chunks alone, and logs at most one change. */
  lemma PatchOnStore(rules: Rules, s: Store, pos: Coord, p: Patch)
    requires ValidStore(s)
    ensures var n := PatchStore(rules, s, pos, p);
            if PatchOutcome(rules, s, pos, p).Err? then n == s
            else
              && n.chunks.Keys == s.chunks.Keys && pos in s.chunks && Shaped(n.chunks[pos].data)
              && PlanesWritten(s.chunks[pos].data, n.chunks[pos].data, p)
              && (forall q :: q in s.chunks && q != pos ==> n.chunks[q] == s.chunks[q])
              && n.log.next == s.log.next + if LoggedAs(p).Some? then 1 else 0
  {
    if PatchOutcome(rules, s, pos, p).Ok? {
      PatchWritesPlanes(rules, s.chunks[pos], p);
    }
  }

  /** A patch is logged exactly if it writes anything, and by its block writes exactly if these are all
      it writes and few enough. */
  lemma LogsExactly(p: Patch)
    ensures LoggedAs(p).None? <==> p.blocks + p.biomes + p.extra + p.sky + p.block == []
    ensures LoggedAs(p) == Some(Blocks(p.blocks)) <==>
              p.biomes + p.extra + p.sky + p.block == [] && 0 < |p.blocks| <= 256
    ensures LoggedAs(p).None? || LoggedAs(p) == Some(Blocks(p.blocks)) || LoggedAs(p) == Some(FullChunk)
  {
  }

  // ----- what is resident stays supported

  ghost predicate Supported(rules: Rules, d: ChunkData) {
    && Shaped(d)
    && (forall i :: 0 <= i < BLOCKS ==> rules.state(d.states[i]))
    && forall i :: 0 <= i < COLUMNS ==> rules.biome(d.biomes[i])
  }

  lemma {:induction false} LastWriteIsAWrite(writes: seq<Write>, i: nat) returns (k: nat)
    requires LastWrite(writes, i).Some?
    ensures k < |writes| && writes[k] == Write(i, LastWrite(writes, i).value)
  {
    k := |writes| - 1;
    if writes[k].index != i {
      k := LastWriteIsAWrite(writes[..k], i);
    }
  }

  /** Patches and generator output keep every state and biome one the target supports. */
  lemma WritersKeepSupported(rules: Rules, r: Record, p: Patch)
    requires Supported(rules, r.data) && Patched(rules, r, p).Ok?
    ensures Supported(rules, Patched(rules, r, p).value.data)
  {
    var n := Patched(rules, r, p).value.data;
    SoundExactly(rules, p);
    PatchWritesPlanes(rules, r, p);
    forall i | 0 <= i < BLOCKS
      ensures rules.state(n.states[i])
    {
      if LastWrite(p.blocks, i).Some? {
        var k := LastWriteIsAWrite(p.blocks, i);
      }
    }
    forall i | 0 <= i < COLUMNS
      ensures rules.biome(n.biomes[i])
    {
      if LastWrite(p.biomes, i).Some? {
        var k := LastWriteIsAWrite(p.biomes, i);
      }
    }
  }

  // ----- the other writers

  /** Generator output is installed exactly if it is supported and no changed domain is exhausted. The
      record then holds it, with the given flags, its marks kept, and each domain stepped that changed. */
  lemma InstallsExactly(rules: Rules, r: Option<Record>, data: ChunkData, flags: set<Flag>)
    requires r.Some? ==> r.value.terrain <= U64_MAX && r.value.light <= U64_MAX
    ensures Installed(rules, r, data, flags).Ok? <==>
              && Supported(rules, data)
              && (r.Some? && !SameTerrain(r.value.data, data) ==> r.value.terrain < U64_MAX)
              && (r.Some? && !SameLight(r.value.data, data) ==> r.value.light < U64_MAX)
    ensures Installed(rules, r, data, flags) == Err(InvalidImport) <==> !Supported(rules, data)
    ensures Installed(rules, r, data, flags) == Err(TerrainExhausted) <==>
              Supported(rules, data) && r.Some? && !SameTerrain(r.value.data, data) && r.value.terrain == U64_MAX
    ensures Installed(rules, r, data, flags).Err? ==>
              Installed(rules, r, data, flags).error in {InvalidImport, TerrainExhausted, LightExhausted}
    ensures Installed(rules, r, data, flags).Ok? ==>
              var n := Installed(rules, r, data, flags).value;
              && n.data == data && n.flags == flags
              && (r.None? ==> n.terrain == 0 && n.light == 0 && IsDirty(n))
              && (r.Some? ==>
                    && n.terrain == r.value.terrain + (if SameTerrain(r.value.data, data) then 0 else 1)
                    && n.light == r.value.light + (if SameLight(r.value.data, data) then 0 else 1)
                    && n.savedTerrain == r.value.savedTerrain && n.savedLight == r.value.savedLight
                    && n.savedFlags == r.value.savedFlags)
  {
  }

  /** A refused installation never changes planes, flags, light revision or marks; the terrain revision
      has moved if the terrain differed and was not exhausted. */
  lemma RefusedInstallKeeps(rules: Rules, r: Record, data: ChunkData)
    ensures var moved := Supported(rules, data) && !SameTerrain(r.data, data) && r.terrain < U64_MAX;
            AfterRefusedInstall(rules, Some(r), data) == Some(r.(terrain := r.terrain + if moved then 1 else 0))
  {
  }

  /** A revision commit succeeds exactly for the current revision and its successor. */
  lemma CommitsExactly(r: Record, expected: nat, next: nat)
    requires r.terrain <= U64_MAX && r.light <= U64_MAX
    ensures TerrainCommitted(r, expected, next).Ok? <==> expected == r.terrain && next == expected + 1 <= U64_MAX
    ensures TerrainCommitted(r, expected, next).Ok? ==> TerrainCommitted(r, expected, next).value == r.(terrain := next)
    ensures LightCommitted(r, expected, next).Ok? <==> expected == r.light && next == expected + 1 <= U64_MAX
    ensures LightCommitted(r, expected, next).Ok? ==> LightCommitted(r, expected, next).value == r.(light := next)
    ensures TerrainCommitted(r, expected, next) == Err(TerrainConflict) <==> expected != r.terrain
    ensures TerrainCommitted(r, expected, next) == Err(TerrainExhausted) <==> expected == r.terrain == U64_MAX
    ensures LightCommitted(r, expected, next) == Err(LightConflict) <==> expected != r.light
    ensures LightCommitted(r, expected, next) == Err(LightExhausted) <==> expected == r.light == U64_MAX
    ensures TerrainCommitted(r, expected, next) == Err(BadTerrainStep) <==>
              expected == r.terrain < U64_MAX && next != expected + 1
    ensures LightCommitted(r, expected, next) == Err(BadLightStep) <==>
              expected == r.light < U64_MAX && next != expected + 1
  {
  }

  /** Marks move exactly between the old marks and the record, and a record marked with what it is now
      is clean. */
  lemma MarksExactly(r: Record, terrain: nat, light: nat, flags: set<Flag>)
    ensures MarkedSaved(r, terrain, light, flags).Ok? <==>
              && terrain <= r.terrain && light <= r.light
              && (r.savedTerrain.Some? ==> r.savedTerrain.value <= terrain)
              && (r.savedLight.Some? ==> r.savedLight.value <= light)
    ensures MarkedSaved(r, terrain, light, flags).Ok? ==>
              var n := MarkedSaved(r, terrain, light, flags).value;
              && Snap(n) == Snap(r)
              && (IsDirty(n) <==> terrain != r.terrain || light != r.light || flags != r.flags)
    ensures MarkedSaved(r, terrain, light, flags) == Err(SavedAhead) <==> terrain > r.terrain || light > r.light
    ensures MarkedSaved(r, terrain, light, flags).Err? ==>
              MarkedSaved(r, terrain, light, flags) in {Err(SavedAhead), Err(SavedRegressed)}
  {
  }

  /** Pruning drops exactly the retained changes up to the given number. */
  lemma PrunesExactly(log: Log, history: seq<Change>, from: nat, sequence: nat)
    requires Retains(log, history, from)
    ensures Pruned(log, sequence).next == log.next
    ensures forall c :: c in Pruned(log, sequence).changes <==> c in log.changes && c.sequence > sequence
  {
    PrunedSuffix(log.changes, sequence);
  }

  lemma {:induction false} PrunedSuffix(changes: seq<Change>, sequence: nat)
    requires forall i, j :: 0 <= i < j < |changes| ==> changes[i].sequence < changes[j].sequence
    ensures forall c :: c in PrunedChanges(changes, sequence) <==> c in changes && c.sequence > sequence
  {
    if changes != [] {
      assert changes == [changes[0]] + changes[1..];
      if changes[0].sequence <= sequence {
        PrunedSuffix(changes[1..], sequence);
      } else {
        forall c | c in changes
          ensures c.sequence > sequence
        {
          var i :| 0 <= i < |changes| && changes[i] == c;
        }
      }
    }
  }
}
