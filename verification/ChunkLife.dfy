/** One chunk between memory and storage: revisioned writers, saves in flight, eviction, reloading.

    A save takes a snapshot of a dirty chunk that has no save in flight, lands in storage, and is
    marked once its completion is seen; a save that fails may have landed or not. An absent chunk is
    created or generated only if storage does not hold it. */
module ChunkLife {
  import opened Options
  import opened ChunkRecords

  datatype Flight = Flight(snapshot: Snapshot, landed: bool)

  datatype Life = Life(record: Option<Record>, flight: Option<Flight>, stored: Option<Snapshot>)

  datatype Event =
    | Create(data: ChunkData)
    | Install(data: ChunkData, flags: set<Flag>)
    | ApplyPatch(patch: Patch)
    | CommitTerrain(expected: nat, next: nat)
    | CommitLight(expected: nat, next: nat)
    | SetFlags(flags: set<Flag>)
    | QueueSave
    | LandSave
    | CompleteSave
    | FailSave
    | Evict
    | Load

  const UNBORN := Life(None, None, None)

  function Updated(l: Life, r: Result<Record>): Life {
    if r.Ok? then l.(record := Some(r.value)) else l
  }

  /** A clean unpinned record is dropped; pins are accounted for elsewhere. */
  predicate CanEvict(l: Life) {
    l.record.Some? && !IsDirty(l.record.value)
  }

  function Step(rules: Rules, l: Life, e: Event): Life {
    match e
    case Create(data) =>
      if l.record.Some? || l.stored.Some? || !Shaped(data) then l
      else l.(record := Some(Record(0, 0, None, None, None, {}, data)))
    case Install(data, flags) =>
      if l.record.None? && l.stored.Some? then l
      else
        (match Installed(rules, l.record, data, flags)
         case Ok(r) => l.(record := Some(r))
         case Err(_) => l.(record := AfterRefusedInstall(rules, l.record, data)))
    case ApplyPatch(p) =>
      if l.record.None? || !Shaped(l.record.value.data) then l
      else Updated(l, Patched(rules, l.record.value, p))
    case CommitTerrain(expected, next) =>
      if l.record.None? then l else Updated(l, TerrainCommitted(l.record.value, expected, next))
    case CommitLight(expected, next) =>
      if l.record.None? then l else Updated(l, LightCommitted(l.record.value, expected, next))
    case SetFlags(flags) => if l.record.None? then l else l.(record := Some(l.record.value.(flags := flags)))
    case QueueSave =>
      if l.record.None? || !IsDirty(l.record.value) || l.flight.Some? then l
      else l.(flight := Some(Flight(Snap(l.record.value), false)))
    case LandSave =>
      if l.flight.None? then l
      else l.(stored := Some(l.flight.value.snapshot), flight := Some(l.flight.value.(landed := true)))
    case CompleteSave =>
      if l.flight.None? || !l.flight.value.landed then l
      else
        var s, done := l.flight.value.snapshot, l.(flight := None);
        if l.record.None? then done else Updated(done, MarkedSaved(l.record.value, s.terrain, s.light, s.flags))
    case FailSave => l.(flight := None)
    case Evict => if CanEvict(l) then l.(record := None) else l
    case Load => if l.record.Some? || l.stored.None? then l else l.(record := Some(FromSnapshot(l.stored.value)))
  }

  function Run(rules: Rules, events: seq<Event>): Life {
    if events == [] then UNBORN else Step(rules, Run(rules, events[..|events| - 1]), events[|events| - 1])
  }

  // ----- revisions identify content

  /** `a` is not newer than `b`, and where a revision is the same the planes are. */
  ghost predicate Precedes(a: Snapshot, b: Snapshot) {
    && a.terrain <= b.terrain && a.light <= b.light
    && (a.terrain == b.terrain ==> SameTerrain(a.data, b.data))
    && (a.light == b.light ==> SameLight(a.data, b.data))
  }

  ghost predicate Unmarked(r: Record) {
    r.savedTerrain.None? && r.savedLight.None? && r.savedFlags.None?
  }

  /** What storage holds precedes what is in flight, which precedes the record. Marks never run ahead
      of what storage holds. */
  ghost predicate Inv(l: Life) {
    && (l.record.Some? && l.stored.Some? ==> Precedes(l.stored.value, Snap(l.record.value)))
    && (l.record.Some? && l.flight.Some? ==> Precedes(l.flight.value.snapshot, Snap(l.record.value)))
    && (l.flight.Some? && l.stored.Some? ==> Precedes(l.stored.value, l.flight.value.snapshot))
    && (l.flight.Some? && l.flight.value.landed ==> l.stored == Some(l.flight.value.snapshot))
    && (l.record.None? && l.flight.Some? ==> l.stored.Some? && Precedes(l.flight.value.snapshot, l.stored.value))
    && (l.record.Some? ==>
          Unmarked(l.record.value) || (l.stored.Some? && MarkedAtMost(l.record.value, l.stored.value)))
  }

  ghost predicate MarkedAtMost(r: Record, s: Snapshot) {
    && r.savedTerrain.Some? && r.savedLight.Some? && r.savedFlags.Some?
    && r.savedTerrain.value <= s.terrain && r.savedLight.value <= s.light
  }

  /** The record moved on: newer revisions wherever its planes changed. */
  ghost predicate Advances(r: Record, n: Record) {
    && Precedes(Snap(r), Snap(n))
    && n.savedTerrain == r.savedTerrain && n.savedLight == r.savedLight && n.savedFlags == r.savedFlags
  }

  lemma PrecedesTransitive(a: Snapshot, b: Snapshot, c: Snapshot)
    requires Precedes(a, b) && Precedes(b, c)
    ensures Precedes(a, c)
  {
  }

  predicate IsWriter(e: Event) {
    e.Install? || e.ApplyPatch? || e.CommitTerrain? || e.CommitLight? || e.SetFlags?
  }

  lemma WriterAdvances(rules: Rules, l: Life, e: Event)
    requires l.record.Some? && IsWriter(e)
    ensures var n := Step(rules, l, e);
            n.record.Some? && n.flight == l.flight && n.stored == l.stored && Advances(l.record.value, n.record.value)
  {
    if e.ApplyPatch? && Shaped(l.record.value.data) && Patched(rules, l.record.value, e.patch).Ok? {
      PatchMovesRevisions(rules, l.record.value, e.patch);
    }
  }

  lemma AdvanceKeeps(l: Life, n: Record)
    requires Inv(l) && l.record.Some? && Advances(l.record.value, n)
    ensures Inv(l.(record := Some(n)))
  {
  }

  lemma EvictKeeps(l: Life)
    requires Inv(l) && CanEvict(l)
    ensures Inv(l.(record := None))
    ensures l.stored.Some?
    ensures Precedes(l.stored.value, Snap(l.record.value)) && Precedes(Snap(l.record.value), l.stored.value)
  {
  }

  lemma StepKeeps(rules: Rules, l: Life, e: Event)
    requires Inv(l)
    ensures Inv(Step(rules, l, e))
  {
    match e
    case Create(_) =>
    case QueueSave =>
    case LandSave =>
    case CompleteSave =>
    case FailSave =>
    case Load =>
    case Evict => if CanEvict(l) { EvictKeeps(l); }
    case _ =>
      if l.record.Some? {
        WriterAdvances(rules, l, e);
        AdvanceKeeps(l, Step(rules, l, e).record.value);
      }
  }

  lemma {:induction false} RunKeeps(rules: Rules, events: seq<Event>)
    ensures Inv(Run(rules, events))
  {
    if events != [] {
      RunKeeps(rules, events[..|events| - 1]);
      StepKeeps(rules, Run(rules, events[..|events| - 1]), events[|events| - 1]);
    }
  }

  /** The newest content there is: the record, or what storage holds of an absent chunk. */
  function Newest(l: Life): Option<Snapshot> {
    if l.record.Some? then Some(Snap(l.record.value)) else l.stored
  }

  lemma StepAdvances(rules: Rules, l: Life, e: Event)
    requires Inv(l) && Newest(l).Some?
    ensures var n := Newest(Step(rules, l, e)); n.Some? && Precedes(Newest(l).value, n.value)
  {
    if e.Evict? && CanEvict(l) {
      EvictKeeps(l);
    } else if l.record.Some? && IsWriter(e) {
      WriterAdvances(rules, l, e);
    }
  }

  lemma {:induction false} RunAdvances(rules: Rules, events: seq<Event>, n: nat)
    requires n <= |events| && Newest(Run(rules, events[..n])).Some?
    ensures var now := Newest(Run(rules, events));
            now.Some? && Precedes(Newest(Run(rules, events[..n])).value, now.value)
    decreases |events| - n
  {
    if n == |events| {
      assert events[..n] == events;
    } else {
      var init, last := events[..|events| - 1], events[|events| - 1];
      assert init[..n] == events[..n];
      RunAdvances(rules, init, n);
      RunKeeps(rules, init);
      StepAdvances(rules, Run(rules, init), last);
      PrecedesTransitive(Newest(Run(rules, events[..n])).value, Newest(Run(rules, init)).value, Newest(Run(rules,
          events)).value);
    }
  }

  /** Two snapshots of a chunk with the same terrain revision have the same terrain planes, and with
      the same light revision the same light planes, also across eviction and reloading. */
  lemma RevisionIdentifiesContent(rules: Rules, events: seq<Event>, n: nat)
    requires n <= |events| && Run(rules, events[..n]).record.Some? && Run(rules, events).record.Some?
    ensures var was, now := Run(rules, events[..n]).record.value, Run(rules, events).record.value;
            && (was.terrain == now.terrain ==> SameTerrain(was.data, now.data))
            && (was.light == now.light ==> SameLight(was.data, now.data))
  {
    RunAdvances(rules, events, n);
  }

  // ----- eviction and reloading

  /** Evicted, then read back after any save in flight has landed. */
  function Reloaded(rules: Rules, l: Life): Life {
    Step(rules, Step(rules, Step(rules, l, Evict), LandSave), Load)
  }

  /** The flags of a save that landed and was then reported as failed, since the last completed save
      or load. */
  function Lapsed(rules: Rules, events: seq<Event>): Option<set<Flag>> {
    if events == [] then None
    else
      var init := events[..|events| - 1];
      LapsedAfter(Run(rules, init), Lapsed(rules, init), events[|events| - 1])
  }

  function LapsedAfter(l: Life, was: Option<set<Flag>>, e: Event): Option<set<Flag>> {
    if e.FailSave? && l.flight.Some? && l.flight.value.landed then Some(l.flight.value.snapshot.flags)
    else if e.CompleteSave? && l.flight.Some? && l.flight.value.landed then None
    else if e.Load? && l.record.None? then None
    else was
  }

  /** Unless a landed save still waits to be reported, storage holds the flags a record is marked with,
      or those of the lapsed save. */
  ghost predicate FlagsInv(l: Life, lapsed: Option<set<Flag>>) {
    l.record.Some? && l.record.value.savedFlags.Some? && (l.flight.Some? ==> !l.flight.value.landed) ==>
      && l.stored.Some?
      && l.stored.value.flags == if lapsed.Some? then lapsed.value else l.record.value.savedFlags.value
  }

  lemma StepKeepsFlags(rules: Rules, l: Life, lapsed: Option<set<Flag>>, e: Event)
    requires Inv(l) && FlagsInv(l, lapsed)
    ensures FlagsInv(Step(rules, l, e), LapsedAfter(l, lapsed, e))
  {
    if l.record.Some? && IsWriter(e) {
      WriterAdvances(rules, l, e);
    }
  }

  lemma {:induction false} RunKeepsFlags(rules: Rules, events: seq<Event>)
    ensures FlagsInv(Run(rules, events), Lapsed(rules, events))
  {
    if events != [] {
      var init := events[..|events| - 1];
      RunKeepsFlags(rules, init);
      RunKeeps(rules, init);
      StepKeepsFlags(rules, Run(rules, init), Lapsed(rules, init), events[|events| - 1]);
    }
  }

  /** Evicting a clean chunk never loses planes or revisions. It loses lifecycle flags exactly when
      the save in flight carries other flags or, with none in flight, a lapsed save did. */
  lemma EvictionLosesOnlyFlags(rules: Rules, events: seq<Event>)
    requires CanEvict(Run(rules, events))
    ensures var l, lapsed := Run(rules, events), Lapsed(rules, events);
            var r, back := l.record.value, Reloaded(rules, l).record;
            && back.Some? && back.value.terrain == r.terrain && back.value.light == r.light
            && SameTerrain(back.value.data, r.data) && SameLight(back.value.data, r.data)
            && (back.value.flags == r.flags <==>
                  if l.flight.Some? then l.flight.value.snapshot.flags == r.flags
                  else lapsed.None? || lapsed.value == r.flags)
  {
    var l := Run(rules, events);
    RunKeeps(rules, events);
    RunKeepsFlags(rules, events);
    EvictKeeps(l);
    if l.flight.Some? {
      PrecedesTransitive(l.flight.value.snapshot, Snap(l.record.value), l.stored.value);
    }
  }

  predicate FailsCleanly(l: Life, e: Event) {
    e.FailSave? && l.flight.Some? ==> !l.flight.value.landed
  }

  /** No save is reported as failed after it landed. */
  ghost predicate FailuresAreClean(rules: Rules, events: seq<Event>) {
    events == [] ||
    (FailuresAreClean(rules, events[..|events| - 1]) &&
     FailsCleanly(Run(rules, events[..|events| - 1]), events[|events| - 1]))
  }

  lemma {:induction false} CleanFailuresLeaveNothing(rules: Rules, events: seq<Event>)
    requires FailuresAreClean(rules, events)
    ensures Lapsed(rules, events).None?
  {
    if events != [] {
      CleanFailuresLeaveNothing(rules, events[..|events| - 1]);
    }
  }

  /** What the owner can check before it evicts a clean chunk: its flags survive if and only if no
      save is in flight or the one in flight carries them. */
  lemma EvictionKeepsFlags(rules: Rules, events: seq<Event>)
    requires FailuresAreClean(rules, events) && CanEvict(Run(rules, events))
    ensures var l := Run(rules, events);
            var r, back := l.record.value, Reloaded(rules, l).record;
            back.Some? && (back.value.flags == r.flags <==> l.flight.None? || l.flight.value.snapshot.flags == r.flags)
  {
    CleanFailuresLeaveNothing(rules, events);
    EvictionLosesOnlyFlags(rules, events);
  }

  predicate Grows(l: Life, e: Event) {
    match e
    case SetFlags(flags) => l.record.Some? ==> l.record.value.flags <= flags
    case Install(_, flags) => l.record.Some? ==> l.record.value.flags <= flags
    case _ => true
  }

  /** A run in which no writer clears a lifecycle flag. */
  ghost predicate GrowingRun(rules: Rules, events: seq<Event>) {
    events == [] ||
    (GrowingRun(rules, events[..|events| - 1]) && Grows(Run(rules, events[..|events| - 1]), events[|events| - 1]))
  }

  /** Flags only ever grew, so a chunk with a save in flight still differs from its marks. */
  ghost predicate GrowInv(l: Life) {
    && (l.record.None? ==> l.flight.None?)
    && (l.record.Some? ==>
          var r := l.record.value;
          && (r.savedTerrain.Some? ==> r.savedTerrain.value <= r.terrain)
          && (r.savedLight.Some? ==> r.savedLight.value <= r.light)
          && (r.savedFlags.Some? ==> l.stored.Some? && r.savedFlags.value <= l.stored.value.flags)
          && (l.stored.Some? ==> l.stored.value.flags <= r.flags)
          && (l.flight.Some? ==> IsDirty(r) && l.flight.value.snapshot.flags <= r.flags)
          && (l.flight.Some? && r.savedFlags.Some? ==> r.savedFlags.value <= l.flight.value.snapshot.flags))
  }

  lemma GrowKeeps(rules: Rules, l: Life, e: Event)
    requires Inv(l) && GrowInv(l) && Grows(l, e)
    ensures GrowInv(Step(rules, l, e))
  {
    if l.record.Some? && IsWriter(e) {
      WriterAdvances(rules, l, e);
      var r, n := l.record.value, Step(rules, l, e).record.value;
      assert r.flags <= n.flags;
      if l.flight.Some? && n.savedFlags == Some(n.flags) {
        assert n.savedFlags.value <= l.stored.value.flags <= r.flags <= n.flags;
        assert r.flags == n.flags;
      }
    }
  }

  lemma {:induction false} GrowingRunKeeps(rules: Rules, events: seq<Event>)
    requires GrowingRun(rules, events)
    ensures GrowInv(Run(rules, events))
  {
    if events != [] {
      GrowingRunKeeps(rules, events[..|events| - 1]);
      RunKeeps(rules, events[..|events| - 1]);
      GrowKeeps(rules, Run(rules, events[..|events| - 1]), events[|events| - 1]);
    }
  }

  /** While no writer clears a flag, a chunk that can be evicted has no save in flight, so evicting
      and reloading it restores everything. */
  lemma EvictionLosesNothing(rules: Rules, events: seq<Event>)
    requires GrowingRun(rules, events) && CanEvict(Run(rules, events))
    ensures var l := Run(rules, events);
            var r, back := l.record.value, Reloaded(rules, l).record;
            && back.Some? && back.value.flags == r.flags
            && back.value.terrain == r.terrain && back.value.light == r.light
            && SameTerrain(back.value.data, r.data) && SameLight(back.value.data, r.data)
  {
    GrowingRunKeeps(rules, events);
    EvictionLosesOnlyFlags(rules, events);
  }

  lemma RunThen(rules: Rules, events: seq<Event>, e: Event)
    ensures Run(rules, events + [e]) == Step(rules, Run(rules, events), e)
  {
    assert (events + [e])[..|events|] == events;
  }

  /** A chunk is created, generated and saved. */
  function SavedOnce(data: ChunkData): seq<Event> {
    [] + [Create(data)] + [SetFlags({Generated})] + [QueueSave] + [LandSave] + [CompleteSave]
  }

  lemma FirstSaveOf(rules: Rules, data: ChunkData)
    requires Shaped(data)
    ensures Run(rules, SavedOnce(data))
         == Life(Some(FromSnapshot(Snapshot(0, 0, {Generated}, data))), None, Some(Snapshot(0, 0, {Generated}, data)))
  {
    var one := [] + [Create(data)];
    var two := one + [SetFlags({Generated})];
    var three := two + [QueueSave];
    var four := three + [LandSave];
    RunThen(rules, [], Create(data));
    RunThen(rules, one, SetFlags({Generated}));
    RunThen(rules, two, QueueSave);
    RunThen(rules, three, LandSave);
    RunThen(rules, four, CompleteSave);
  }

  /** Then it is populated, and a save that carries the new flag is queued. */
  function SavingAgain(data: ChunkData): seq<Event> {
    SavedOnce(data) + [SetFlags({Generated, Populated})] + [QueueSave]
  }

  lemma SecondSaveOf(rules: Rules, data: ChunkData)
    requires Shaped(data)
    ensures Run(rules, SavingAgain(data))
         == Life(Some(FromSnapshot(Snapshot(0, 0, {Generated}, data)).(flags := {Generated, Populated})),
                 Some(Flight(Snapshot(0, 0, {Generated, Populated}, data), false)),
                 Some(Snapshot(0, 0, {Generated}, data)))
  {
    FirstSaveOf(rules, data);
    RunThen(rules, SavedOnce(data), SetFlags({Generated, Populated}));
    RunThen(rules, SavedOnce(data) + [SetFlags({Generated, Populated})], QueueSave);
    assert Populated in {Generated, Populated} && Populated !in {Generated};
  }

  /** Clearing a flag while a save that carries it is in flight makes the chunk look clean, and it
      comes back with the flag set. */
  lemma ClearedFlagComesBack(rules: Rules, data: ChunkData)
    requires Shaped(data)
    ensures var l := Run(rules, SavingAgain(data) + [SetFlags({Generated})]);
            && CanEvict(l) && l.record.value.flags == {Generated}
            && Reloaded(rules, l).record == Some(FromSnapshot(Snapshot(0, 0, {Generated, Populated}, data)))
  {
    SecondSaveOf(rules, data);
    RunThen(rules, SavingAgain(data), SetFlags({Generated}));
  }

  /** So does clearing it after that save landed and was reported as failed, with none in flight. */
  lemma LapsedFlagComesBack(rules: Rules, data: ChunkData)
    requires Shaped(data)
    ensures var l := Run(rules, SavingAgain(data) + [LandSave] + [FailSave] + [SetFlags({Generated})]);
            && CanEvict(l) && l.flight.None? && l.record.value.flags == {Generated}
            && Reloaded(rules, l).record == Some(FromSnapshot(Snapshot(0, 0, {Generated, Populated}, data)))
  {
    SecondSaveOf(rules, data);
    RunThen(rules, SavingAgain(data), LandSave);
    RunThen(rules, SavingAgain(data) + [LandSave], FailSave);
    RunThen(rules, SavingAgain(data) + [LandSave] + [FailSave], SetFlags({Generated}));
  }
}
