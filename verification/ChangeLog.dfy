/** The bounded change log of a world store, and why a viewer that is not stale can catch up from it. */
module ChangeLog {
  import opened Coordinates
  import opened Options
  import opened ChunkRecords

  const CAPACITY: nat := 8192

  datatype Kind = Blocks(writes: seq<Write>) | FullChunk
  datatype Change = Change(sequence: nat, pos: Coord, kind: Kind)
  datatype Log = Log(next: nat, changes: seq<Change>)

  const EMPTY_LOG := Log(1, [])

  /** What a successful patch is logged as; an empty patch is not logged. */
  function LoggedAs(p: Patch): Option<Kind> {
    if !ChangesTerrain(p) && !ChangesLight(p) then None
    else if !ChangesLight(p) && p.biomes == [] && p.extra == [] && |p.blocks| <= MAX_POINT_CHANGES then
      Some(Blocks(p.blocks))
    else Some(FullChunk)
  }

  function Recorded(log: Log, pos: Coord, kind: Kind): Log {
    var kept := if |log.changes| == CAPACITY then log.changes[1..] else log.changes;
    Log(log.next + 1, kept + [Change(log.next, pos, kind)])
  }

  function PrunedChanges(changes: seq<Change>, sequence: nat): seq<Change> {
    if changes == [] || changes[0].sequence > sequence then changes else PrunedChanges(changes[1..], sequence)
  }

  function Pruned(log: Log, sequence: nat): Log {
    log.(changes := PrunedChanges(log.changes, sequence))
  }

  function Latest(log: Log): nat {
    if log.next == 0 then 0 else log.next - 1
  }

  function Oldest(log: Log): nat {
    if log.changes == [] then Latest(log) + 1 else log.changes[0].sequence
  }

  /** A cursor whose next change has been dropped. `cursor + 1` saturates in 64 bits. */
  predicate IsStale(log: Log, cursor: nat) {
    (if cursor >= U64_MAX then U64_MAX else cursor + 1) < Oldest(log)
  }

  // ----- the log is a suffix of everything ever recorded

  /** `log` retains the changes of `history` from number `from` on. */
  ghost predicate Retains(log: Log, history: seq<Change>, from: nat) {
    && from <= |history| && log.next == |history| + 1
    && log.changes == history[from..] && |log.changes| <= CAPACITY
    && forall k :: 0 <= k < |history| ==> history[k].sequence == k + 1
  }

  lemma RecordRetains(log: Log, history: seq<Change>, from: nat, pos: Coord, kind: Kind)
    requires Retains(log, history, from)
    ensures var from' := if |log.changes| == CAPACITY then from + 1 else from;
            Retains(Recorded(log, pos, kind), history + [Change(log.next, pos, kind)], from')
  {
  }

  lemma {:induction false} PruneRetains(log: Log, history: seq<Change>, from: nat, sequence: nat) returns (from': nat)
    requires Retains(log, history, from)
    ensures from <= from' && Retains(Pruned(log, sequence), history, from')
    decreases |log.changes|
  {
    from' := from;
    if log.changes != [] && log.changes[0].sequence <= sequence {
      assert history[from..][1..] == history[from + 1..];
      from' := PruneRetains(log.(changes := log.changes[1..]), history, from + 1, sequence);
    }
  }

  /** A cursor is stale exactly when a change after it has been dropped. */
  lemma StaleMeansDropped(log: Log, history: seq<Change>, from: nat, cursor: nat)
    requires Retains(log, history, from) && |history| < U64_MAX
    ensures IsStale(log, cursor) <==> cursor < from
  {
  }

  // ----- catching up

  function Apply(view: seq<nat>, current: seq<nat>, pos: Coord, c: Change): seq<nat>
    requires |view| == |current| == BLOCKS
    requires c.kind.Blocks? ==> forall k :: 0 <= k < |c.kind.writes| ==> c.kind.writes[k].index < BLOCKS
  {
    if c.pos != pos then view
    else match c.kind
      case Blocks(writes) => Written(view, writes)
      case FullChunk => current
  }

  ghost predicate WritesInRange(c: Change) {
    c.kind.Blocks? ==> forall k :: 0 <= k < |c.kind.writes| ==> c.kind.writes[k].index < BLOCKS
  }

  /** Point writes in order; a full chunk is sent as it is now. */
  function Replay(view: seq<nat>, current: seq<nat>, pos: Coord, changes: seq<Change>): (r: seq<nat>)
    requires |view| == |current| == BLOCKS && forall k :: 0 <= k < |changes| ==> WritesInRange(changes[k])
    decreases |changes|
  {
    if changes == [] then view
    else
      assert WritesInRange(changes[0]);
      Replay(Apply(view, current, pos, changes[0]), current, pos, changes[1..])
  }

  predicate Affects(c: Change, pos: Coord, i: nat) {
    c.pos == pos && (c.kind.FullChunk? || LastWrite(c.kind.writes, i).Some?)
  }

  /** `stages[k]` are the states of `pos` before change `k`; the last one is current. Each change
      accounts for what it did: point writes exactly, a full chunk for anything. */
  ghost predicate Explains(history: seq<Change>, stages: seq<seq<nat>>, pos: Coord) {
    && |stages| == |history| + 1
    && (forall k :: 0 <= k < |stages| ==> |stages[k]| == BLOCKS)
    && forall k :: 0 <= k < |history| ==> Accounts(history[k], stages[k], stages[k + 1], pos)
  }

  ghost predicate Accounts(c: Change, before: seq<nat>, after: seq<nat>, pos: Coord)
    requires |before| == |after| == BLOCKS
  {
    && WritesInRange(c)
    && (c.pos != pos ==> after == before)
    && (c.pos == pos && c.kind.Blocks? ==> after == Written(before, c.kind.writes))
  }

  ghost predicate AffectedFrom(history: seq<Change>, pos: Coord, k: nat, i: nat) {
    exists j :: k <= j < |history| && Affects(history[j], pos, i)
  }

  /** A cell that no change from `k` on affects already has its final value at stage `k`. */
  lemma {:induction false} QuietCellIsFinal(history: seq<Change>, stages: seq<seq<nat>>, pos: Coord, k: nat, i: nat)
    requires Explains(history, stages, pos) && k <= |history| && i < BLOCKS && !AffectedFrom(history, pos, k, i)
    ensures stages[k][i] == stages[|history|][i]
    decreases |history| - k
  {
    if k < |history| {
      var c := history[k];
      assert Accounts(c, stages[k], stages[k + 1], pos);
      assert !Affects(c, pos, i);
      if c.pos == pos && c.kind.Blocks? {
        WrittenIsLastWrite(stages[k], c.kind.writes, i);
      }
      QuietCellIsFinal(history, stages, pos, k + 1, i);
    }
  }

  /** Every cell of `view` is final already or will be settled by a change from `k` on. */
  ghost predicate Catchable(view: seq<nat>, history: seq<Change>, stages: seq<seq<nat>>, pos: Coord, k: nat) {
    && Explains(history, stages, pos) && k <= |history| && |view| == BLOCKS
    && forall i :: 0 <= i < BLOCKS ==> view[i] == stages[|history|][i] || AffectedFrom(history, pos, k, i)
  }

  lemma ApplyKeepsCatchable(view: seq<nat>, history: seq<Change>, stages: seq<seq<nat>>, pos: Coord, k: nat)
    requires Catchable(view, history, stages, pos, k) && k < |history| && WritesInRange(history[k])
    ensures Catchable(Apply(view, stages[|history|], pos, history[k]), history, stages, pos, k + 1)
  {
    var c := history[k];
    assert Accounts(c, stages[k], stages[k + 1], pos);
    var next := Apply(view, stages[|history|], pos, c);
    forall i | 0 <= i < BLOCKS
      ensures next[i] == stages[|history|][i] || AffectedFrom(history, pos, k + 1, i)
    {
      if !AffectedFrom(history, pos, k + 1, i) {
        if c.pos == pos && c.kind.Blocks? {
          WrittenIsLastWrite(view, c.kind.writes, i);
          WrittenIsLastWrite(stages[k], c.kind.writes, i);
          QuietCellIsFinal(history, stages, pos, k + 1, i);
        }
        assert AffectedFrom(history, pos, k, i) ==> Affects(c, pos, i);
      }
    }
  }

  lemma {:induction false} ReplayCatchesUp(view: seq<nat>, history: seq<Change>, stages: seq<seq<nat>>, pos: Coord,
                                           k: nat)
    requires Catchable(view, history, stages, pos, k)
    requires forall j :: 0 <= j < |history| ==> WritesInRange(history[j])
    ensures Replay(view, stages[|history|], pos, history[k..]) == stages[|history|]
    decreases |history| - k
  {
    if k == |history| {
      assert history[k..] == [];
      assert view == stages[|history|];
    } else {
      ApplyKeepsCatchable(view, history, stages, pos, k);
      assert history[k..][1..] == history[k + 1..];
      ReplayCatchesUp(Apply(view, stages[|history|], pos, history[k]), history, stages, pos, k + 1);
    }
  }

  /** Content read at or after the cursor, however late, catches up. */
  lemma LateViewIsCatchable(history: seq<Change>, stages: seq<seq<nat>>, pos: Coord, cursor: nat, taken: nat)
    requires Explains(history, stages, pos) && cursor <= taken <= |history|
    ensures Catchable(stages[taken], history, stages, pos, cursor)
  {
    forall i | 0 <= i < BLOCKS
      ensures stages[taken][i] == stages[|history|][i] || AffectedFrom(history, pos, cursor, i)
    {
      if !AffectedFrom(history, pos, cursor, i) {
        assert !AffectedFrom(history, pos, taken, i);
        QuietCellIsFinal(history, stages, pos, taken, i);
      }
    }
  }

  // ----- stores that are patched and pruned

  datatype Store = Store(chunks: map<Coord, Record>, log: Log)

  ghost predicate ValidStore(s: Store) {
    forall pos :: pos in s.chunks ==> Shaped(s.chunks[pos].data)
  }

  datatype Event = ApplyPatch(pos: Coord, patch: Patch) | PruneThrough(sequence: nat)

  function PatchOutcome(rules: Rules, s: Store, pos: Coord, p: Patch): Result<Record>
    requires pos in s.chunks ==> Shaped(s.chunks[pos].data)
  {
    if Bad(rules, p).Some? then Err(Bad(rules, p).value)
    else if pos !in s.chunks then Err(ChunkMissing)
    else Patched(rules, s.chunks[pos], p)
  }

  function PatchStore(rules: Rules, s: Store, pos: Coord, p: Patch): Store
    requires pos in s.chunks ==> Shaped(s.chunks[pos].data)
  {
    match PatchOutcome(rules, s, pos, p)
    case Err(_) => s
    case Ok(r) => Store(s.chunks[pos := r], if LoggedAs(p).None?
        then s.log else Recorded(s.log, pos, LoggedAs(p).value))
  }

  function Step(rules: Rules, s: Store, e: Event): (s': Store)
    requires forall pos :: pos in s.chunks ==> Shaped(s.chunks[pos].data)
    ensures forall pos :: pos in s'.chunks ==> Shaped(s'.chunks[pos].data)
    ensures s'.chunks.Keys == s.chunks.Keys
  {
    match e
    case ApplyPatch(pos, p) =>
      if PatchOutcome(rules, s, pos, p).Ok? then
        PatchMovesRevisions(rules, s.chunks[pos], p);
        PatchStore(rules, s, pos, p)
      else s
    case PruneThrough(n) => s.(log := Pruned(s.log, n))
  }

  function Run(rules: Rules, s: Store, events: seq<Event>): (s': Store)
    requires forall pos :: pos in s.chunks ==> Shaped(s.chunks[pos].data)
    ensures forall pos :: pos in s'.chunks ==> Shaped(s'.chunks[pos].data)
    ensures s'.chunks.Keys == s.chunks.Keys
  {
    if events == [] then s else Step(rules, Run(rules, s, events[..|events| - 1]), events[|events| - 1])
  }

  /** Ghost bookkeeping of a run: everything recorded and the states of one chunk in between. */
  datatype Trace = Trace(history: seq<Change>, stages: seq<seq<nat>>, from: nat)

  ghost predicate Follows(t: Trace, s: Store, pos: Coord) {
    && pos in s.chunks && Retains(s.log, t.history, t.from)
    && Explains(t.history, t.stages, pos) && t.stages[|t.history|] == s.chunks[pos].data.states
  }

  lemma StepFollows(rules: Rules, s: Store, e: Event, pos: Coord, t: Trace) returns (t': Trace)
    requires ValidStore(s) && Follows(t, s, pos)
    ensures Follows(t', Step(rules, s, e), pos)
    ensures t.history <= t'.history && t.stages <= t'.stages
  {
    t' := t;
    match e
    case PruneThrough(n) =>
      var from' := PruneRetains(s.log, t.history, t.from, n);
      t' := t.(from := from');
    case ApplyPatch(at, p) =>
      if PatchOutcome(rules, s, at, p).Ok? {
        t' := PatchFollows(rules, s, at, p, pos, t);
      }
  }

  lemma PatchFollows(rules: Rules, s: Store, at: Coord, p: Patch, pos: Coord, t: Trace) returns (t': Trace)
    requires ValidStore(s) && Follows(t, s, pos) && PatchOutcome(rules, s, at, p).Ok?
    ensures Follows(t', Step(rules, s, ApplyPatch(at, p)), pos)
    ensures t.history <= t'.history && t.stages <= t'.stages
  {
    t' := t;
    PatchAccounts(rules, s, at, p, pos);
    if LoggedAs(p).Some? {
      t' := Recording(t, s.log, at, LoggedAs(p).value, pos, Step(rules, s, ApplyPatch(at, p)).chunks[pos].data.states);
    }
  }

  /** The trace after one more logged change. */
  lemma Recording(t: Trace, log: Log, at: Coord, kind: Kind, pos: Coord, after: seq<nat>) returns (t': Trace)
    requires Retains(log, t.history, t.from) && Explains(t.history, t.stages, pos) && |after| == BLOCKS
    requires Accounts(Change(log.next, at, kind), t.stages[|t.history|], after, pos)
    ensures Retains(Recorded(log, at, kind), t'.history, t'.from) && Explains(t'.history, t'.stages, pos)
    ensures t'.stages[|t'.history|] == after && t.history <= t'.history && t.stages <= t'.stages
  {
    var c := Change(log.next, at, kind);
    RecordRetains(log, t.history, t.from, at, kind);
    ExtendExplains(t.history, t.stages, pos, c, after);
    t' := Trace(t.history + [c], t.stages + [after], if |log.changes| == CAPACITY then t.from + 1 else t.from);
  }

  /** A logged patch is accounted for by its log entry; one that is not logged changes no state. */
  lemma PatchAccounts(rules: Rules, s: Store, at: Coord, p: Patch, pos: Coord)
    requires ValidStore(s) && pos in s.chunks && PatchOutcome(rules, s, at, p).Ok?
    ensures var before, after := s.chunks[pos].data.states, Step(rules, s, ApplyPatch(at, p)).chunks[pos].data.states;
            if LoggedAs(p).Some? then Accounts(Change(s.log.next, at, LoggedAs(p).value), before, after, pos)
            else after == before
  {
    ValidatedIsInRange(rules, p);
    PatchMovesRevisions(rules, s.chunks[at], p);
  }

  lemma ExtendExplains(history: seq<Change>, stages: seq<seq<nat>>, pos: Coord, c: Change, after: seq<nat>)
    requires Explains(history, stages, pos) && |after| == BLOCKS && Accounts(c, stages[|history|], after, pos)
    ensures Explains(history + [c], stages + [after], pos)
  {
  }

  lemma {:induction false} RunFollows(rules: Rules, s: Store, events: seq<Event>, pos: Coord, t: Trace)
      returns (t': Trace)
    requires ValidStore(s) && Follows(t, s, pos)
    ensures Follows(t', Run(rules, s, events), pos)
    ensures t.history <= t'.history && t.stages <= t'.stages
  {
    t' := t;
    if events != [] {
      t' := RunFollows(rules, s, events[..|events| - 1], pos, t);
      t' := StepFollows(rules, Run(rules, s, events[..|events| - 1]), events[|events| - 1], pos, t');
    }
  }

  lemma StepRetains(rules: Rules, s: Store, e: Event, history: seq<Change>, from: nat)
    returns (history': seq<Change>, from': nat)
    requires ValidStore(s) && Retains(s.log, history, from)
    ensures Retains(Step(rules, s, e).log, history', from')
  {
    history', from' := history, from;
    match e
    case PruneThrough(n) => from' := PruneRetains(s.log, history, from, n);
    case ApplyPatch(at, p) =>
      if PatchOutcome(rules, s, at, p).Ok? && LoggedAs(p).Some? {
        RecordRetains(s.log, history, from, at, LoggedAs(p).value);
        history' := history + [Change(s.log.next, at, LoggedAs(p).value)];
        from' := if |s.log.changes| == CAPACITY then from + 1 else from;
      }
  }

  lemma {:induction false} RunRetains(rules: Rules, s: Store, events: seq<Event>)
      returns (history: seq<Change>, from: nat)
    requires ValidStore(s) && s.log == EMPTY_LOG
    ensures Retains(Run(rules, s, events).log, history, from)
  {
    history, from := [], 0;
    if events != [] {
      history, from := RunRetains(rules, s, events[..|events| - 1]);
      history, from := StepRetains(rules, Run(rules, s, events[..|events| - 1]), events[|events| - 1], history, from);
    }
  }

  /** Retained changes always have consecutive numbers up to the latest, at most 8192 of them. */
  lemma LogIsContiguous(rules: Rules, chunks: map<Coord, Record>, events: seq<Event>)
    requires ValidStore(Store(chunks, EMPTY_LOG))
    ensures var log := Run(rules, Store(chunks, EMPTY_LOG), events).log;
            && |log.changes| <= CAPACITY
            && forall k :: 0 <= k < |log.changes| ==> log.changes[k].sequence == Latest(log) + 1 - |log.changes| + k
  {
    var history, from := RunRetains(rules, Store(chunks, EMPTY_LOG), events);
    var log := Run(rules, Store(chunks, EMPTY_LOG), events).log;
    forall k | 0 <= k < |log.changes|
      ensures log.changes[k].sequence == Latest(log) + 1 - |log.changes| + k
    {
      assert log.changes[k] == history[from + k];
    }
  }

  /** The changes a viewer at `cursor` still has to see. */
  function After(changes: seq<Change>, cursor: nat): seq<Change> {
    PrunedChanges(changes, cursor)
  }

  lemma {:induction false} AfterIsSuffix(log: Log, history: seq<Change>, from: nat, cursor: nat)
    requires Retains(log, history, from) && from <= cursor <= |history|
    ensures After(log.changes, cursor) == history[cursor..]
    decreases cursor - from
  {
    if from < cursor {
      assert log.changes[0] == history[from];
      assert history[from..][1..] == history[from + 1..];
      AfterIsSuffix(log.(changes := log.changes[1..]), history, from + 1, cursor);
    } else if log.changes != [] {
      assert log.changes[0] == history[from];
    }
  }

  /** A viewer with a cursor that is not stale, holding content read at or after that cursor,
      reaches the current states by replaying the retained changes. */
  lemma ViewerCatchesUp(rules: Rules, chunks: map<Coord, Record>, earlier: seq<Event>, later: seq<Event>, pos: Coord,
                        cursor: nat)
    requires ValidStore(Store(chunks, EMPTY_LOG)) && pos in chunks
    requires cursor <= Latest(Run(rules, Store(chunks, EMPTY_LOG), earlier).log)
    requires var now := Run(rules, Run(rules, Store(chunks, EMPTY_LOG), earlier), later);
             now.log.next <= U64_MAX && !IsStale(now.log, cursor)
    ensures var seen := Run(rules, Store(chunks, EMPTY_LOG), earlier);
            var now := Run(rules, seen, later);
            && (forall c :: c in After(now.log.changes, cursor) ==> WritesInRange(c))
            && Replay(seen.chunks[pos].data.states, now.chunks[pos].data.states, pos, After(now.log.changes, cursor))
               == now.chunks[pos].data.states
  {
    var start := Store(chunks, EMPTY_LOG);
    var seen := Run(rules, start, earlier);
    var now := Run(rules, seen, later);
    var t := RunFollows(rules, start, earlier, pos, Trace([], [chunks[pos].data.states], 0));
    var u := RunFollows(rules, seen, later, pos, t);
    assert u.stages[|t.history|] == seen.chunks[pos].data.states;
    StaleMeansDropped(now.log, u.history, u.from, cursor);
    AfterIsSuffix(now.log, u.history, u.from, cursor);
    HistoryInRange(u.history, u.stages, pos);
    LateViewIsCatchable(u.history, u.stages, pos, cursor, |t.history|);
    ReplayCatchesUp(seen.chunks[pos].data.states, u.history, u.stages, pos, cursor);
  }

  lemma HistoryInRange(history: seq<Change>, stages: seq<seq<nat>>, pos: Coord)
    requires Explains(history, stages, pos)
    ensures forall j :: 0 <= j < |history| ==> WritesInRange(history[j])
  {
    forall j | 0 <= j < |history|
      ensures WritesInRange(history[j])
    {
      assert Accounts(history[j], stages[j], stages[j + 1], pos);
    }
  }
}
