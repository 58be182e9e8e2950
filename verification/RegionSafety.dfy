/** What every operation on a region file keeps: one page is always safe, and nothing a reader could
    come back with is older than what was acknowledged. */
module RegionSafety {
  import opened Options
  import opened RegionDisk
  import opened RegionCommit
  import opened Coordinates

  /** The file, the open handle if any, the chunks the last acknowledged save left, and the chunks
      every attempt since then would have left. */
  datatype World = World(disk: Disk, handle: Option<Handle>, acked: Chunks, ackedGeneration: nat, since: set<Chunks>)

  // ----- the invariant

  ghost predicate Known(w: World, m: Chunks) {
    m == w.acked || m in w.since
  }

  /** An index the other page may come back with: older than the base, or an attempt built on it. */
  ghost predicate Follower(codec: Codec, d: Disk, since: set<Chunks>, base: RegionIndex, i: RegionIndex) {
    && Points(codec, i, d.area, d.synced)
    && (i.generation < base.generation
        || (i.generation == base.generation + 1 && Contents(codec, i, d.area, d.synced) in since))
  }

  ghost predicate HandleAt(d: Disk, b: nat, h: Handle)
    requires d.Valid() && b < 2 && d.safe[b].Page?
  {
    var base := d.safe[b].index;
    || (h.active == b && h.index == base)
    || (h.active == 1 - b && d.Cached(1 - b) == Page(h.index) && h.index.generation == base.generation + 1)
  }

  ghost predicate OthersFollow(codec: Codec, d: Disk, since: set<Chunks>, base: RegionIndex, pages: seq<Page>) {
    forall page :: page in pages && page.Page? ==> Follower(codec, d, since, base, page.index)
  }

  /** Page `b` is safe and holds chunks that are acknowledged or newer; the other page can only be
      torn, older, or an attempt since. */
  ghost predicate BaseAt(codec: Codec, w: World, b: nat) {
    && w.disk.Valid() && b < 2
    && w.disk.safe[b].Page? && w.disk.unsynced[b] == []
    && Points(codec, w.disk.safe[b].index, w.disk.area, w.disk.synced)
    && Known(w, Contents(codec, w.disk.safe[b].index, w.disk.area, w.disk.synced))
    && w.ackedGeneration <= w.disk.safe[b].index.generation
    && OthersFollow(codec, w.disk, w.since, w.disk.safe[b].index, w.disk.Candidates(1 - b))
    && (w.handle.Some? ==> HandleAt(w.disk, b, w.handle.value))
  }

  ghost predicate Inv(codec: Codec, w: World) {
    RoundTrips(codec) && (BaseAt(codec, w, 0) || BaseAt(codec, w, 1))
  }

  // ----- each disk operation keeps it

  lemma FollowerLasts(codec: Codec, d: Disk, since: set<Chunks>, base: RegionIndex, i: RegionIndex, d': Disk,
                      since': set<Chunks>)
    requires d.Valid() && d'.Valid() && d.synced <= d'.synced && d'.area[..d.synced] == d.area[..d.synced]
    requires since <= since' && Follower(codec, d, since, base, i)
    ensures Follower(codec, d', since', base, i)
  {
    PointsLast(codec, i, d.area, d.synced, d'.area, d'.synced);
  }

  lemma AppendKeeps(codec: Codec, w: World, b: nat, area: Bytes)
    requires BaseAt(codec, w, b) && w.disk.area <= area
    ensures BaseAt(codec, w.(disk := w.disk.(area := area)), b)
  {
    var d, d' := w.disk, w.disk.(area := area);
    var base := d.safe[b].index;
    assert area[..d.synced] == d.area[..d.synced];
    PointsLast(codec, base, d.area, d.synced, area, d.synced);
    forall page | page in d'.Candidates(1 - b) && page.Page?
      ensures Follower(codec, d', w.since, base, page.index)
    {
      assert page in d.Candidates(1 - b);
      FollowerLasts(codec, d, w.since, base, page.index, d', w.since);
    }
  }

  /** After a sync the handle's own page is the safe base, also when a reopening had taken up an
      attempt that no sync had covered yet. */
  lemma SyncSettles(codec: Codec, w: World, b: nat, h: Handle)
    requires BaseAt(codec, w, b) && w.handle == Some(h)
    ensures BaseAt(codec, w.(disk := w.disk.Synced()), h.active) && w.disk.Synced().safe[h.active] == Page(h.index)
  {
  }

  lemma PageWriteKeeps(codec: Codec, w: World, b: nat, page: Page, since: set<Chunks>)
    requires BaseAt(codec, w, b) && w.since <= since
    requires w.handle.Some? && w.handle.value == Handle(b, w.disk.safe[b].index)
    requires page.Page? ==> Follower(codec, w.disk, since, w.disk.safe[b].index, page.index)
    ensures BaseAt(codec, w.(disk := w.disk.PageWritten(1 - b, page), since := since), b)
  {
  }

  /** The second barrier makes the new page the base. */
  lemma AckKeeps(codec: Codec, w: World, b: nat, next: RegionIndex, m: Chunks)
    requires BaseAt(codec, w, b) && w.disk.synced == |w.disk.area| && w.disk.unsynced[1 - b] == []
    requires w.handle.Some? && w.handle.value == Handle(b, w.disk.safe[b].index)
    requires Points(codec, next, w.disk.area, w.disk.synced) && Contents(codec, next, w.disk.area, w.disk.synced) == m
    requires next.generation == w.disk.safe[b].index.generation + 1
    ensures BaseAt(codec, World(w.disk.PageWritten(1 - b, Page(next)).Synced(), Some(Handle(1 - b, next)), m,
        next.generation, {}), 1 - b)
  {
  }

  lemma CrashKeeps(codec: Codec, w: World, b: nat, after: Disk)
    requires BaseAt(codec, w, b) && w.disk.MayCrashTo(after)
    ensures BaseAt(codec, w.(disk := after, handle := None), b)
  {
    var d := w.disk;
    var base := d.safe[b].index;
    assert d.Candidates(b) == [Page(base)];
    PointsLast(codec, base, d.area, d.synced, after.area, after.synced);
    forall page | page in after.Candidates(1 - b) && page.Page?
      ensures Follower(codec, after, w.since, base, page.index)
    {
      assert page == after.safe[1 - b];
      FollowerLasts(codec, d, w.since, base, page.index, after, w.since);
    }
  }

  // ----- opening finds a known index

  lemma OpenFinds(codec: Codec, w: World, b: nat)
    requires BaseAt(codec, w, b)
    ensures var o := Open(w.disk);
            && o.Some? && HandleAt(w.disk, b, o.value)
            && Points(codec, o.value.index, w.disk.area, w.disk.synced)
            && Known(w, Contents(codec, o.value.index, w.disk.area, w.disk.synced))
            && w.ackedGeneration <= o.value.index.generation
  {
  }

  lemma LoadsExactly(codec: Codec, d: Disk, h: Handle, pos: Coord)
    requires d.Valid() && Points(codec, h.index, d.area, d.synced) && LocalIndex(codec.region, pos).Some?
    ensures var m, slot := Contents(codec, h.index, d.area, d.synced), LocalIndex(codec.region, pos).value;
            && Load(codec, d, h, pos) == Loaded(if slot in m then Some(m[slot]) else None)
            && (slot in m ==> m[slot].pos == pos)
  {
    var slot := LocalIndex(codec.region, pos).value;
    if h.index.entries[slot].Some? {
      var e := h.index.entries[slot].value;
      assert EntryOk(e, d.synced) && Reads(codec, Slice(d.area, e), e, slot);
      SlotsAreChunks(codec.region, codec.decode(Slice(d.area, e)).value.pos, pos);
    }
  }
}
