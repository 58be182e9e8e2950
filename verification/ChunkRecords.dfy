/** A resident chunk record: its planes, its two revision domains, its persistence marks, and the
    writers that move revisions. */
module ChunkRecords {
  import opened Options
  import opened Nibbles

  const BLOCKS: nat := 32768
  const COLUMNS: nat := 256
  const HEIGHT: nat := 128
  const NIBBLE_PLANE: nat := 16384
  const U64_MAX: nat := 0xffff_ffff_ffff_ffff
  const MAX_LEVEL: nat := 15
  const MAX_POINT_CHANGES: nat := 256

  datatype Flag = Generated | Populated | LightPopulated

  const FULL: set<Flag> := {Generated, Populated, LightPopulated}

  datatype ChunkData = ChunkData(states: seq<nat>, sky: seq<nat>, block: seq<nat>, biomes: seq<nat>,
                                 heights: seq<nat>, extra: map<nat, nat>)

  datatype Record = Record(terrain: nat, light: nat, savedTerrain: Option<nat>, savedLight: Option<nat>,
                           savedFlags: Option<set<Flag>>, flags: set<Flag>, data: ChunkData)

  datatype Snapshot = Snapshot(terrain: nat, light: nat, flags: set<Flag>, data: ChunkData)

  datatype Write = Write(index: nat, value: nat)

  datatype Patch = Patch(expectedTerrain: nat, nextTerrain: nat, expectedLight: nat, nextLight: nat,
                         blocks: seq<Write>, biomes: seq<Write>, extra: seq<Write>, sky: seq<Write>, block: seq<Write>)

  datatype Error =
    | ChunkMissing | InvalidState | InvalidBlockIndex | InvalidColumnIndex | InvalidBiome | InvalidLight | InvalidImport
    | TerrainConflict | LightConflict | TerrainExhausted | LightExhausted | BadTerrainStep | BadLightStep
    | SavedAhead | SavedRegressed

  datatype Result<T> = Ok(value: T) | Err(error: Error)

  /** Which block states and biome words the target supports. */
  datatype Rules = Rules(state: nat -> bool, biome: nat -> bool)

  predicate Shaped(d: ChunkData) {
    && |d.states| == BLOCKS && |d.sky| == NIBBLE_PLANE && |d.block| == NIBBLE_PLANE
    && |d.biomes| == COLUMNS && |d.heights| == COLUMNS && IsBytes(d.sky) && IsBytes(d.block)
  }

  predicate ImportOk(rules: Rules, d: ChunkData) {
    && Shaped(d)
    && (forall i :: 0 <= i < BLOCKS ==> rules.state(d.states[i]))
    && forall i :: 0 <= i < COLUMNS ==> rules.biome(d.biomes[i])
  }

  predicate IsDirty(r: Record) {
    r.savedTerrain != Some(r.terrain) || r.savedLight != Some(r.light) || r.savedFlags != Some(r.flags)
  }

  function Snap(r: Record): Snapshot {
    Snapshot(r.terrain, r.light, r.flags, r.data)
  }

  /** A record read back from storage starts clean. */
  function FromSnapshot(s: Snapshot): Record {
    Record(s.terrain, s.light, Some(s.terrain), Some(s.light), Some(s.flags), s.flags, s.data)
  }

  predicate SameTerrain(a: ChunkData, b: ChunkData) {
    a.states == b.states && a.biomes == b.biomes && a.heights == b.heights && a.extra == b.extra
  }

  predicate SameLight(a: ChunkData, b: ChunkData) {
    a.sky == b.sky && a.block == b.block
  }

  // ----- column heights

  /** The highest non-air layer of a column below `y`, or 0. */
  function TopBelow(states: seq<nat>, column: nat, y: nat): nat
    requires |states| == BLOCKS && column < COLUMNS && y <= HEIGHT
  {
    if y == 0 then 0
    else if states[(y - 1) * COLUMNS + column] != 0 then y - 1
    else TopBelow(states, column, y - 1)
  }

  function Top(states: seq<nat>, column: nat): nat
    requires |states| == BLOCKS && column < COLUMNS
  {
    TopBelow(states, column, HEIGHT)
  }

  /** The height of a column is its highest layer that is not air, and 0 for a column of air. */
  lemma {:induction false} TopIsHighest(states: seq<nat>, column: nat, y: nat)
    requires |states| == BLOCKS && column < COLUMNS && y <= HEIGHT
    ensures var top := TopBelow(states, column, y);
            && (top < y || y == 0)
            && (forall above :: top < above < y ==> states[above * COLUMNS + column] == 0)
            && (top > 0 ==> states[top * COLUMNS + column] != 0)
  {
    if y > 0 && states[(y - 1) * COLUMNS + column] == 0 {
      TopIsHighest(states, column, y - 1);
    }
  }

  ghost predicate HeightsRight(d: ChunkData) {
    Shaped(d) && forall c :: 0 <= c < COLUMNS ==> d.heights[c] == Top(d.states, c)
  }

  lemma {:induction false} TopDependsOnColumn(a: seq<nat>, b: seq<nat>, column: nat, y: nat)
    requires |a| == |b| == BLOCKS && column < COLUMNS && y <= HEIGHT
    requires forall i :: 0 <= i < BLOCKS && i % COLUMNS == column ==> a[i] == b[i]
    ensures TopBelow(a, column, y) == TopBelow(b, column, y)
  {
    if y > 0 {
      assert ((y - 1) * COLUMNS + column) % COLUMNS == column;
      TopDependsOnColumn(a, b, column, y - 1);
    }
  }

  // ----- writes in order

  function Written(plane: seq<nat>, writes: seq<Write>): (r: seq<nat>)
    requires forall k :: 0 <= k < |writes| ==> writes[k].index < |plane|
    ensures |r| == |plane|
  {
    if writes == [] then plane
    else
      var last := writes[|writes| - 1];
      Written(plane, writes[..|writes| - 1])[last.index := last.value]
  }

  /** The value the last write to `i` leaves, if there is one. */
  function LastWrite(writes: seq<Write>, i: nat): Option<nat> {
    if writes == [] then None
    else if writes[|writes| - 1].index == i then Some(writes[|writes| - 1].value)
    else LastWrite(writes[..|writes| - 1], i)
  }

  lemma {:induction false} WrittenIsLastWrite(plane: seq<nat>, writes: seq<Write>, i: nat)
    requires (forall k :: 0 <= k < |writes| ==> writes[k].index < |plane|) && i < |plane|
    ensures Written(plane, writes)[i]
         == match LastWrite(writes, i) case None => plane[i] case Some(v) => v
  {
    if writes != [] {
      WrittenIsLastWrite(plane, writes[..|writes| - 1], i);
    }
  }

  /** Columns in which some write changed the state it found. */
  function Touched(states: seq<nat>, writes: seq<Write>): set<nat>
    requires forall k :: 0 <= k < |writes| ==> writes[k].index < |states|
  {
    if writes == [] then {}
    else
      var init, last := writes[..|writes| - 1], writes[|writes| - 1];
      Touched(states, init) + if Written(states, init)[last.index] != last.value then {last.index % COLUMNS} else {}
  }

  lemma {:induction false} UntouchedColumnsKeep(states: seq<nat>, writes: seq<Write>, i: nat)
    requires (forall k :: 0 <= k < |writes| ==> writes[k].index < |states|) && i < |states|
    requires i % COLUMNS !in Touched(states, writes)
    ensures Written(states, writes)[i] == states[i]
  {
    if writes != [] {
      UntouchedColumnsKeep(states, writes[..|writes| - 1], i);
    }
  }

  function HeightsAfter(heights: seq<nat>, states: seq<nat>, touched: set<nat>): seq<nat>
    requires |heights| == COLUMNS && |states| == BLOCKS
  {
    seq(COLUMNS, c requires 0 <= c < COLUMNS => if c in touched then Top(states, c) else heights[c])
  }

  function ExtraKey(index: nat): nat {
    index / 16 % 16 * 4096 + index % 16 * 256 + index / 256 % 128
  }

  /** A zero removes the entry. */
  function ExtraWritten(extra: map<nat, nat>, writes: seq<Write>): map<nat, nat> {
    if writes == [] then extra
    else
      var last := writes[|writes| - 1];
      var before := ExtraWritten(extra, writes[..|writes| - 1]);
      if last.value == 0 then before - {ExtraKey(last.index)} else before[ExtraKey(last.index) := last.value]
  }

  lemma ExtraKeyParts(i: nat)
    requires i < BLOCKS
    ensures ExtraKey(i) % 256 == i / 256 && ExtraKey(i) / 256 % 16 == i % 16 && ExtraKey(i) / 4096 == i / 16 % 16
    ensures i == i / 256 * 256 + i / 16 % 16 * 16 + i % 16
  {
    var x, y, z := i % 16, i / 256, i / 16 % 16;
    assert y % 128 == y && i / 16 == y * 16 + z;
    var k := z * 16 + x;
    assert ExtraKey(i) == k * 256 + y;
    assert ExtraKey(i) / 256 == k;
  }

  lemma ExtraKeysDiffer(i: nat, j: nat)
    requires i < BLOCKS && j < BLOCKS && ExtraKey(i) == ExtraKey(j)
    ensures i == j
  {
    ExtraKeyParts(i);
    ExtraKeyParts(j);
  }

  /** Each block's extra entry is what the last write to it says, and a zero leaves none. */
  lemma {:induction false} ExtraIsLastWrite(extra: map<nat, nat>, writes: seq<Write>, i: nat)
    requires i < BLOCKS && forall k :: 0 <= k < |writes| ==> writes[k].index < BLOCKS
    ensures var after := ExtraWritten(extra, writes);
            match LastWrite(writes, i)
            case None =>
              && (ExtraKey(i) in after <==> ExtraKey(i) in extra)
              && (ExtraKey(i) in extra ==> after[ExtraKey(i)] == extra[ExtraKey(i)])
            case Some(v) => if v == 0 then ExtraKey(i) !in after else ExtraKey(i) in after && after[ExtraKey(i)] == v
  {
    if writes != [] {
      var last := writes[|writes| - 1];
      ExtraIsLastWrite(extra, writes[..|writes| - 1], i);
      if ExtraKey(last.index) == ExtraKey(i) {
        ExtraKeysDiffer(last.index, i);
      }
    }
  }

  function NibblesWritten(plane: seq<nat>, writes: seq<Write>): (r: seq<nat>)
    requires forall k :: 0 <= k < |writes| ==> writes[k].index / 2 < |plane|
    ensures |r| == |plane|
  {
    if writes == [] then plane
    else
      var last := writes[|writes| - 1];
      WithNibble(NibblesWritten(plane, writes[..|writes| - 1]), last.index, last.value)
  }

  lemma {:induction false} NibblesAreLastWrites(plane: seq<nat>, writes: seq<Write>, i: nat)
    requires IsBytes(plane) && i / 2 < |plane|
    requires forall k :: 0 <= k < |writes| ==> writes[k].index / 2 < |plane| && writes[k].value <= MAX_LEVEL
    ensures IsBytes(NibblesWritten(plane, writes))
    ensures ReadNibble(NibblesWritten(plane, writes), i)
         == match LastWrite(writes, i) case None => ReadNibble(plane, i) case Some(v) => v
  {
    if writes != [] {
      var init, last := writes[..|writes| - 1], writes[|writes| - 1];
      NibblesAreLastWrites(plane, init, i);
      NibbleReadsBack(NibblesWritten(plane, init), last.index, last.value, i);
    }
  }

  lemma NibblesStayBytes(plane: seq<nat>, writes: seq<Write>)
    requires |plane| == NIBBLE_PLANE && IsBytes(plane)
    requires forall k :: 0 <= k < |writes| ==> writes[k].index < BLOCKS && writes[k].value <= MAX_LEVEL
    ensures IsBytes(NibblesWritten(plane, writes))
  {
    NibblesAreLastWrites(plane, writes, 0);
  }

  // ----- the patch

  type Verdict = Write -> Option<Error>

  function BlockVerdict(rules: Rules): Verdict {
    (w: Write) =>
      if w.index >= BLOCKS then Some(InvalidBlockIndex) else if !rules.state(w.value) then Some(InvalidState) else None
  }

  function BiomeVerdict(rules: Rules): Verdict {
    (w: Write) =>
      if w.index >= COLUMNS then Some(InvalidColumnIndex)
      else if !rules.biome(w.value) then Some(InvalidBiome) else None
  }

  function ExtraVerdict(): Verdict {
    (w: Write) => if w.index >= BLOCKS then Some(InvalidBlockIndex) else None
  }

  function LightVerdict(): Verdict {
    (w: Write) =>
      if w.index >= BLOCKS then Some(InvalidBlockIndex) else if w.value > MAX_LEVEL then Some(InvalidLight) else None
  }

  /** The verdict on the first write that is refused. */
  function FirstBad(writes: seq<Write>, verdict: Verdict): Option<Error> {
    if writes == [] then None
    else if verdict(writes[0]).Some? then verdict(writes[0])
    else FirstBad(writes[1..], verdict)
  }

  function Bad(rules: Rules, p: Patch): Option<Error> {
    if FirstBad(p.blocks, BlockVerdict(rules)).Some? then FirstBad(p.blocks, BlockVerdict(rules))
    else if FirstBad(p.biomes, BiomeVerdict(rules)).Some? then FirstBad(p.biomes, BiomeVerdict(rules))
    else if FirstBad(p.extra, ExtraVerdict()).Some? then FirstBad(p.extra, ExtraVerdict())
    else FirstBad(p.sky + p.block, LightVerdict())
  }

  predicate ChangesTerrain(p: Patch) {
    p.blocks != [] || p.biomes != [] || p.extra != []
  }

  predicate ChangesLight(p: Patch) {
    p.sky != [] || p.block != []
  }

  /** The revision check: each domain must be at the expected revision and, if the patch writes to
      it, step by one. */
  function Conflict(r: Record, p: Patch): Option<Error> {
    if r.terrain != p.expectedTerrain then Some(TerrainConflict)
    else if r.light != p.expectedLight then Some(LightConflict)
    else if ChangesTerrain(p) && r.terrain >= U64_MAX then Some(TerrainExhausted)
    else if p.nextTerrain != r.terrain + (if ChangesTerrain(p) then 1 else 0) then Some(BadTerrainStep)
    else if ChangesLight(p) && r.light >= U64_MAX then Some(LightExhausted)
    else if p.nextLight != r.light + (if ChangesLight(p) then 1 else 0) then Some(BadLightStep)
    else None
  }

  /** In-range writes, as validation leaves them. */
  ghost predicate InRange(p: Patch) {
    && (forall k :: 0 <= k < |p.blocks| ==> p.blocks[k].index < BLOCKS)
    && (forall k :: 0 <= k < |p.biomes| ==> p.biomes[k].index < COLUMNS)
    && (forall k :: 0 <= k < |p.extra| ==> p.extra[k].index < BLOCKS)
    && (forall k :: 0 <= k < |p.sky| ==> p.sky[k].index < BLOCKS && p.sky[k].value <= MAX_LEVEL)
    && (forall k :: 0 <= k < |p.block| ==> p.block[k].index < BLOCKS && p.block[k].value <= MAX_LEVEL)
  }

  lemma {:induction false} FirstBadIsFirst(writes: seq<Write>, verdict: Verdict) returns (k: nat)
    ensures k <= |writes| && forall j :: 0 <= j < k ==> verdict(writes[j]).None?
    ensures k == |writes| ==> FirstBad(writes, verdict).None?
    ensures k < |writes| ==> verdict(writes[k]).Some? && FirstBad(writes, verdict) == verdict(writes[k])
  {
    k := 0;
    if writes != [] && verdict(writes[0]).None? {
      k := FirstBadIsFirst(writes[1..], verdict);
      assert forall j :: 0 < j < |writes| ==> writes[j] == writes[1..][j - 1];
      k := k + 1;
    }
  }

  lemma NoneBad(writes: seq<Write>, verdict: Verdict)
    ensures FirstBad(writes, verdict).None? <==> forall j :: 0 <= j < |writes| ==> verdict(writes[j]).None?
  {
    var _ := FirstBadIsFirst(writes, verdict);
  }

  lemma ValidatedIsInRange(rules: Rules, p: Patch)
    requires Bad(rules, p).None?
    ensures InRange(p)
  {
    NoneBad(p.blocks, BlockVerdict(rules));
    NoneBad(p.biomes, BiomeVerdict(rules));
    NoneBad(p.extra, ExtraVerdict());
    NoneBad(p.sky + p.block, LightVerdict());
    assert forall k :: 0 <= k < |p.sky| ==> (p.sky + p.block)[k] == p.sky[k];
    assert forall k :: 0 <= k < |p.block| ==> (p.sky + p.block)[|p.sky| + k] == p.block[k];
  }

  function PatchedData(d: ChunkData, p: Patch): (r: ChunkData)
    requires Shaped(d) && InRange(p)
    ensures Shaped(r)
  {
    var states := Written(d.states, p.blocks);
    NibblesStayBytes(d.sky, p.sky);
    NibblesStayBytes(d.block, p.block);
    ChunkData(states, NibblesWritten(d.sky, p.sky), NibblesWritten(d.block, p.block), Written(d.biomes, p.biomes),
              HeightsAfter(d.heights, states, Touched(d.states, p.blocks)), ExtraWritten(d.extra, p.extra))
  }

  function Patched(rules: Rules, r: Record, p: Patch): Result<Record>
    requires Shaped(r.data)
  {
    if Bad(rules, p).Some? then Err(Bad(rules, p).value)
    else if Conflict(r, p).Some? then Err(Conflict(r, p).value)
    else
      ValidatedIsInRange(rules, p);
      Ok(r.(data := PatchedData(r.data, p), terrain := p.nextTerrain, light := p.nextLight))
  }

  /** Recomputing only the touched columns keeps every height right. */
  lemma PatchKeepsHeights(d: ChunkData, p: Patch)
    requires HeightsRight(d) && InRange(p)
    ensures HeightsRight(PatchedData(d, p))
  {
    var states, touched := Written(d.states, p.blocks), Touched(d.states, p.blocks);
    forall c | 0 <= c < COLUMNS && c !in touched
      ensures Top(states, c) == Top(d.states, c)
    {
      forall i | 0 <= i < BLOCKS && i % COLUMNS == c
        ensures states[i] == d.states[i]
      {
        UntouchedColumnsKeep(d.states, p.blocks, i);
      }
      TopDependsOnColumn(states, d.states, c, HEIGHT);
    }
  }

  /** A patch moves exactly the revisions of the domains it writes to, and a domain whose revision
      did not move kept its planes. */
  lemma PatchMovesRevisions(rules: Rules, r: Record, p: Patch)
    requires Shaped(r.data) && Patched(rules, r, p).Ok?
    ensures var n := Patched(rules, r, p).value;
            && n.terrain == r.terrain + (if ChangesTerrain(p) then 1 else 0)
            && n.light == r.light + (if ChangesLight(p) then 1 else 0)
            && (n.terrain == r.terrain ==> SameTerrain(n.data, r.data))
            && (n.light == r.light ==> SameLight(n.data, r.data))
            && Shaped(n.data)
  {
  }

  // ----- other revisioned writers

  function Installed(rules: Rules, r: Option<Record>, data: ChunkData, flags: set<Flag>): Result<Record> {
    if !ImportOk(rules, data) then Err(InvalidImport)
    else if r.None? then Ok(Record(0, 0, None, None, None, flags, data))
    else
      var held := r.value;
      var terrainChanged, lightChanged := !SameTerrain(held.data, data), !SameLight(held.data, data);
      if terrainChanged && held.terrain >= U64_MAX then Err(TerrainExhausted)
      else if lightChanged && held.light >= U64_MAX then Err(LightExhausted)
      else
        Ok(held.(terrain := held.terrain + (if terrainChanged then 1 else 0),
                light := held.light + (if lightChanged then 1 else 0),
                data := if terrainChanged || lightChanged then data else held.data,
                flags := flags))
  }

  /** What a refused install leaves: a terrain step taken before the light step was refused stays. */
  function AfterRefusedInstall(rules: Rules, r: Option<Record>, data: ChunkData): Option<Record> {
    if r.Some? && ImportOk(rules, data) && !SameTerrain(r.value.data, data) && r.value.terrain < U64_MAX
    then Some(r.value.(terrain := r.value.terrain + 1)) else r
  }

  function TerrainCommitted(r: Record, expected: nat, next: nat): Result<Record> {
    if r.terrain != expected then Err(TerrainConflict)
    else if expected >= U64_MAX then Err(TerrainExhausted)
    else if next != expected + 1 then Err(BadTerrainStep)
    else Ok(r.(terrain := next))
  }

  function LightCommitted(r: Record, expected: nat, next: nat): Result<Record> {
    if r.light != expected then Err(LightConflict)
    else if expected >= U64_MAX then Err(LightExhausted)
    else if next != expected + 1 then Err(BadLightStep)
    else Ok(r.(light := next))
  }

  function MarkedSaved(r: Record, terrain: nat, light: nat, flags: set<Flag>): Result<Record> {
    if terrain > r.terrain || light > r.light then Err(SavedAhead)
    else if r.savedTerrain.Some? && terrain < r.savedTerrain.value then Err(SavedRegressed)
    else if r.savedLight.Some? && light < r.savedLight.value then Err(SavedRegressed)
    else Ok(r.(savedTerrain := Some(terrain), savedLight := Some(light), savedFlags := Some(flags)))
  }
}
