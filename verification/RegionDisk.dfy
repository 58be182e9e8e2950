/** A region file on disk: append-only records, two index pages, and what a crash may leave of
    writes that no sync has covered. */
module RegionDisk {
  import opened Coordinates
  import opened Options

  const REGION_EDGE: int := 16
  const SLOTS: nat := 256
  const RECORD_AREA: nat := 32832
  const MAX_RECORD: nat := 0x40_0000 + 0x1_0000
  const U64_MAX: nat := 0xffff_ffff_ffff_ffff

  type Bytes = seq<nat>

  /** A chunk as it is saved; the payload holds its flags and planes. */
  datatype Stored = Stored(pos: Coord, terrain: nat, light: nat, payload: Bytes)

  /** The region's coordinates, the checksum, and the record codec. */
  datatype Codec = Codec(region: (int, int), crc: Bytes -> nat, encode: Stored -> Option<Bytes>,
                         decode: Bytes -> Option<Stored>)

  /** Whatever encodes is a record of bounded size that decodes to the same chunk. */
  ghost predicate RoundTrips(codec: Codec) {
    forall c :: codec.encode(c).Some? ==>
      0 < |codec.encode(c).value| <= MAX_RECORD && codec.decode(codec.encode(c).value) == Some(c)
  }

  datatype Entry = Entry(offset: nat, length: nat, checksum: nat, terrain: nat, light: nat)
  datatype RegionIndex = RegionIndex(generation: nat, entries: seq<Option<Entry>>)

  /** What an index page decodes to; a torn page fails its checksum. */
  datatype Page = Torn | Page(index: RegionIndex)

  /** `area` is the record area as the process sees it; its first `synced` bytes are safe. Each
      page has a safe content and the page writes issued since the last sync, oldest first. */
  datatype Disk = Disk(area: Bytes, synced: nat, safe: seq<Page>, unsynced: seq<seq<Page>>) {
    predicate Valid() {
      synced <= |area| && |safe| == 2 && |unsynced| == 2
    }

    /** The content a read returns while the process lives. */
    function Cached(p: nat): Page
      requires p < 2 && |safe| == 2 && |unsynced| == 2
    {
      if unsynced[p] == [] then safe[p] else unsynced[p][|unsynced[p]| - 1]
    }

    function Appended(bytes: Bytes): Disk {
      this.(area := area + bytes)
    }

    function PageWritten(p: nat, page: Page): Disk
      requires p < |unsynced|
    {
      this.(unsynced := unsynced[p := unsynced[p] + [page]])
    }

    function Synced(): Disk
      requires |safe| == 2 && |unsynced| == 2
    {
      Disk(area, |area|, [Cached(0), Cached(1)], [[], []])
    }

    /** Contents page `p` may have after a crash, tearing aside. */
    function Candidates(p: nat): seq<Page>
      requires p < |safe| && p < |unsynced|
    {
      [safe[p]] + unsynced[p]
    }

    /** Any subset of the unsynced writes is lost, page writes may tear, and past the safe prefix
        the record area may hold anything. */
    predicate MayCrashTo(after: Disk)
      requires Valid()
    {
      && after.Valid() && after.synced == |after.area| && after.unsynced == [[], []]
      && synced <= |after.area| && after.area[..synced] == area[..synced]
      && forall p :: 0 <= p < 2 ==>
           after.safe[p] in Candidates(p) || (after.safe[p] == Torn && unsynced[p] != [])
    }
  }

  // ----- slots

  function RegionOf(pos: Coord): (int, int) {
    (pos.x / REGION_EDGE, pos.z / REGION_EDGE)
  }

  function LocalIndex(region: (int, int), pos: Coord): (r: Option<nat>)
    ensures r.Some? ==> r.value < SLOTS
  {
    if RegionOf(pos) != region then None else Some(pos.z % REGION_EDGE * REGION_EDGE + pos.x % REGION_EDGE)
  }

  /** Within a region a slot stands for one chunk. */
  lemma SlotsAreChunks(region: (int, int), a: Coord, b: Coord)
    requires LocalIndex(region, a).Some? && LocalIndex(region, a) == LocalIndex(region, b)
    ensures a == b
  {
  }

  /** A region has a slot for exactly its own 16x16 chunks, x fastest. */
  lemma SlotLayout(region: (int, int), pos: Coord)
    ensures var x, z := pos.x - 16 * region.0, pos.z - 16 * region.1;
            LocalIndex(region, pos) == if 0 <= x < 16 && 0 <= z < 16 then Some(16 * z + x) else None
  {
    assert pos.x == 16 * (pos.x / 16) + pos.x % 16 && pos.z == 16 * (pos.z / 16) + pos.z % 16;
  }

  // ----- indexes that point at real records

  predicate EntryOk(e: Entry, n: nat) {
    RECORD_AREA <= e.offset && 0 < e.length <= MAX_RECORD && e.offset + e.length <= RECORD_AREA + n
  }

  function Slice(area: Bytes, e: Entry): Bytes
    requires EntryOk(e, |area|)
  {
    area[e.offset - RECORD_AREA..e.offset - RECORD_AREA + e.length]
  }

  predicate Apart(a: Entry, b: Entry) {
    a.offset + a.length <= b.offset || b.offset + b.length <= a.offset
  }

  /** A record that matches its entry's checksum, slot and revisions. */
  predicate Reads(codec: Codec, record: Bytes, e: Entry, slot: nat) {
    && codec.crc(record) == e.checksum && codec.decode(record).Some?
    && var c := codec.decode(record).value;
       LocalIndex(codec.region, c.pos) == Some(slot) && c.terrain == e.terrain && c.light == e.light
  }

  /** Every entry points into the first `n` bytes of the area, at a record that reads as it says, and
      no two entries share a byte. */
  ghost predicate Points(codec: Codec, i: RegionIndex, area: Bytes, n: nat) {
    && n <= |area| && |i.entries| == SLOTS
    && (forall s :: 0 <= s < SLOTS && i.entries[s].Some? ==>
          EntryOk(i.entries[s].value, n) && Reads(codec, Slice(area, i.entries[s].value), i.entries[s].value, s))
    && forall s, t :: 0 <= s < t < SLOTS && i.entries[s].Some? && i.entries[t].Some? ==>
         Apart(i.entries[s].value, i.entries[t].value)
  }

  /** The chunks a region holds, by slot. */
  type Chunks = map<nat, Stored>

  ghost function Contents(codec: Codec, i: RegionIndex, area: Bytes, n: nat): Chunks
    requires Points(codec, i, area, n)
  {
    map s | 0 <= s < SLOTS && i.entries[s].Some? ::
      codec.decode(Slice(area, i.entries[s].value)).value
  }

  /** Nothing an index points at moves while the safe prefix stays. */
  lemma PointsLast(codec: Codec, i: RegionIndex, area: Bytes, n: nat, area': Bytes, n': nat)
    requires Points(codec, i, area, n) && n <= n' <= |area'| && area'[..n] == area[..n]
    ensures Points(codec, i, area', n') && Contents(codec, i, area', n') == Contents(codec, i, area, n)
  {
    forall s | 0 <= s < SLOTS && i.entries[s].Some?
      ensures EntryOk(i.entries[s].value, n') && Slice(area', i.entries[s].value) == Slice(area, i.entries[s].value)
    {
      assert EntryOk(i.entries[s].value, n);
      SameSlice(area, area', n, i.entries[s].value);
    }
  }

  lemma SameSlice(area: Bytes, area': Bytes, n: nat, e: Entry)
    requires n <= |area| && n <= |area'| && area'[..n] == area[..n] && EntryOk(e, n)
    ensures Slice(area', e) == Slice(area, e)
  {
    forall k | 0 <= k < e.length
      ensures Slice(area', e)[k] == Slice(area, e)[k]
    {
      var at := e.offset - RECORD_AREA + k;
      assert area[at] == area[..n][at] && area'[at] == area'[..n][at];
    }
  }

  // ----- space accounting

  function LiveBytes(entries: seq<Option<Entry>>): nat {
    if entries == [] then 0
    else LiveBytes(entries[..|entries| - 1]) + match entries[|entries| - 1] case None => 0 case Some(e) => e.length
  }

  function Interval(lo: int, n: nat): (r: set<int>)
    ensures |r| == n && forall b :: b in r <==> lo <= b < lo + n
  {
    if n == 0 then {} else Interval(lo, n - 1) + {lo + n - 1}
  }

  function Span(e: Entry): set<int> {
    Interval(e.offset, e.length)
  }

  function Spans(entries: seq<Option<Entry>>): set<int> {
    if entries == [] then {}
    else Spans(entries[..|entries| - 1]) + match entries[|entries| - 1] case None => {} case Some(e) => Span(e)
  }

  lemma {:induction false} SpanOwner(entries: seq<Option<Entry>>, b: int) returns (s: nat)
    requires b in Spans(entries)
    ensures s < |entries| && entries[s].Some?
    ensures entries[s].value.offset <= b < entries[s].value.offset + entries[s].value.length
  {
    var init := entries[..|entries| - 1];
    if b in Spans(init) {
      s := SpanOwner(init, b);
    } else {
      s := |entries| - 1;
    }
  }

  lemma SpansMissApart(entries: seq<Option<Entry>>, e: Entry)
    requires forall s :: 0 <= s < |entries| && entries[s].Some? ==> Apart(entries[s].value, e)
    ensures Spans(entries) !! Span(e)
  {
    forall b | b in Spans(entries)
      ensures b !in Span(e)
    {
      var s := SpanOwner(entries, b);
      assert Apart(entries[s].value, e);
    }
  }

  lemma DisjointSizes(a: set<int>, b: set<int>)
    requires a !! b
    ensures |a + b| == |a| + |b|
  {
  }

  /** Disjoint records take as many bytes as their lengths add up to. */
  lemma {:induction false} LiveBytesAreDistinctBytes(entries: seq<Option<Entry>>)
    requires forall s, t :: 0 <= s < t < |entries| && entries[s].Some? && entries[t].Some? ==>
               Apart(entries[s].value, entries[t].value)
    ensures |Spans(entries)| == LiveBytes(entries)
  {
    if entries != [] {
      var init, last := entries[..|entries| - 1], entries[|entries| - 1];
      LiveBytesAreDistinctBytes(init);
      if last.Some? {
        forall s | 0 <= s < |init| && init[s].Some?
          ensures Apart(init[s].value, last.value)
        {
          assert init[s] == entries[s];
        }
        SpansMissApart(init, last.value);
        DisjointSizes(Spans(init), Span(last.value));
      }
    }
  }

  /** Live bytes never exceed the record area, so `stats` cannot report a corrupt index. */
  lemma LiveFitsTheArea(codec: Codec, i: RegionIndex, area: Bytes, n: nat)
    requires Points(codec, i, area, n)
    ensures LiveBytes(i.entries) <= |area|
  {
    LiveBytesAreDistinctBytes(i.entries);
    var whole := Interval(RECORD_AREA, |area|);
    forall b | b in Spans(i.entries)
      ensures b in whole
    {
      var s := SpanOwner(i.entries, b);
      assert EntryOk(i.entries[s].value, n);
    }
    assert Spans(i.entries) <= whole;
    SubsetSize(Spans(i.entries), whole);
  }

  lemma SubsetSize(a: set<int>, b: set<int>)
    requires a <= b
    ensures |a| <= |b|
  {
    assert b == a + (b - a);
  }
}
