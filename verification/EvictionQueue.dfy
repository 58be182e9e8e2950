/** The owner-side residency map and its eviction queue: which chunks are candidates for unloading,
    and that none of them is overlooked. */
module EvictionQueue {
  import opened Coordinates
  import opened Options
  import opened Views

  const MAX_BUDGET: int := 4096

  datatype Status = Missing | PinnedChunk | DirtyChunk | Unloaded

  /** What the native store answers when a chunk is inspected, by inspection and position. */
  type Verdicts = (nat, Coord) -> Status

  predicate Keeps(s: Status) {
    s.PinnedChunk? || s.DirtyChunk?
  }

  /** `chunks` and `cells` are keyed by position; `queued` marks what `queue` holds. */
  datatype Source = Source(chunks: map<Coord, nat>, cells: map<Coord, nat>, queued: set<Coord>, queue: seq<Coord>)

  const EMPTY := Source(map[], map[], {}, [])

  /** The queue has no duplicates, holds exactly what is marked, and covers every resident chunk. */
  ghost predicate Covers(s: Source) {
    && Distinct(s.queue)
    && (forall p :: p in s.queued <==> p in s.queue)
    && s.chunks.Keys <= s.queued
    && s.chunks.Keys == s.cells.Keys
  }

  /** Adds a chunk object; one backed by another store, or a different object for the same position,
      is refused. */
  function Put(s: Source, p: Coord, chunk: nat, ours: bool): Option<Source> {
    if !ours || (p in s.chunks && s.chunks[p] != chunk) then None
    else
      var held := s.(chunks := s.chunks[p := chunk], cells := if p in s.cells then s.cells else s.cells[p := chunk]);
      if p in s.chunks || p in s.queued then Some(held)
      else Some(held.(queued := held.queued + {p}, queue := held.queue + [p]))
  }

  function Unload(s: Source, p: Coord, status: Status): Source {
    if p !in s.chunks || Keeps(status) then s else s.(chunks := s.chunks - {p}, cells := s.cells - {p})
  }

  /** Looks at the front of the queue; what cannot go yet goes to the back. */
  function Inspect(s: Source, status: Status): Source
    requires s.queue != []
  {
    var p := s.queue[0];
    var taken := s.(queue := s.queue[1..], queued := s.queued - {p});
    if p !in s.chunks then taken
    else if Keeps(status) then taken.(queue := taken.queue + [p], queued := taken.queued + {p})
    else Unload(taken, p, status)
  }

  /** Inspections `from` on, up to `budget` or until the queue is empty. */
  function Sweep(s: Source, verdicts: Verdicts, from: nat, budget: nat): Source
    requires from <= budget
    decreases budget - from
  {
    if from == budget || s.queue == [] then s
    else Sweep(Inspect(s, verdicts(from, s.queue[0])), verdicts, from + 1, budget)
  }

  // ----- the queue keeps covering

  lemma PutCovers(s: Source, p: Coord, chunk: nat, ours: bool)
    requires Covers(s) && Put(s, p, chunk, ours).Some?
    ensures Covers(Put(s, p, chunk, ours).value)
  {
  }

  lemma InspectCovers(s: Source, status: Status)
    requires Covers(s) && s.queue != []
    ensures Covers(Inspect(s, status))
  {
  }

  lemma {:induction false} SweepCovers(s: Source, verdicts: Verdicts, from: nat, budget: nat)
    requires Covers(s) && from <= budget
    ensures Covers(Sweep(s, verdicts, from, budget))
    decreases budget - from
  {
    if from < budget && s.queue != [] {
      InspectCovers(s, verdicts(from, s.queue[0]));
      SweepCovers(Inspect(s, verdicts(from, s.queue[0])), verdicts, from + 1, budget);
    }
  }

  // ----- nothing is overlooked

  /** Whenever `p` is inspected it may go. */
  ghost predicate AlwaysFree(verdicts: Verdicts, p: Coord) {
    forall n :: !Keeps(verdicts(n, p))
  }

  lemma {:induction false} GoneStaysGone(s: Source, verdicts: Verdicts, from: nat, budget: nat, p: Coord)
    requires from <= budget && p !in s.chunks
    ensures p !in Sweep(s, verdicts, from, budget).chunks
    decreases budget - from
  {
    if from < budget && s.queue != [] {
      GoneStaysGone(Inspect(s, verdicts(from, s.queue[0])), verdicts, from + 1, budget, p);
    }
  }

  /** A sweep either reaches position `k` and unloads a free chunk there, or moves it up by the
      whole budget. */
  lemma {:induction false} SweepReaches(s: Source, verdicts: Verdicts, from: nat, budget: nat, k: nat)
    requires Covers(s) && from <= budget && k < |s.queue| && AlwaysFree(verdicts, s.queue[k])
    ensures var r := Sweep(s, verdicts, from, budget);
            if k < budget - from then s.queue[k] !in r.chunks
            else |r.queue| > k - (budget - from) && r.queue[k - (budget - from)] == s.queue[k]
    decreases budget - from
  {
    if from < budget {
      var next := Inspect(s, verdicts(from, s.queue[0]));
      InspectCovers(s, verdicts(from, s.queue[0]));
      if k == 0 {
        assert s.queue[0] !in next.chunks;
        GoneStaysGone(next, verdicts, from + 1, budget, s.queue[0]);
      } else {
        assert next.queue[k - 1] == s.queue[k];
        SweepReaches(next, verdicts, from + 1, budget, k - 1);
      }
    }
  }

  /** Whenever `p` is inspected it is pinned or dirty. */
  ghost predicate AlwaysKept(verdicts: Verdicts, p: Coord) {
    forall n :: verdicts(n, p) == PinnedChunk || verdicts(n, p) == DirtyChunk
  }

  /** A chunk that is pinned or dirty whenever it is inspected stays resident and queued. */
  lemma {:induction false} KeptChunkStays(s: Source, verdicts: Verdicts, from: nat, budget: nat, p: Coord)
    requires Covers(s) && from <= budget && p in s.chunks && AlwaysKept(verdicts, p)
    ensures var r := Sweep(s, verdicts, from, budget);
            p in r.chunks && r.chunks[p] == s.chunks[p] && p in r.cells && p in r.queued && p in r.queue
    decreases budget - from
  {
    if from < budget && s.queue != [] {
      InspectCovers(s, verdicts(from, s.queue[0]));
      KeptChunkStays(Inspect(s, verdicts(from, s.queue[0])), verdicts, from + 1, budget, p);
    }
  }

  /** A sweep only ever unloads: what it leaves was there before, unchanged. */
  lemma {:induction false} SweepAddsNothing(s: Source, verdicts: Verdicts, from: nat, budget: nat, p: Coord)
    requires from <= budget && p in Sweep(s, verdicts, from, budget).chunks
    ensures p in s.chunks && Sweep(s, verdicts, from, budget).chunks[p] == s.chunks[p]
    decreases budget - from
  {
    if from < budget && s.queue != [] {
      SweepAddsNothing(Inspect(s, verdicts(from, s.queue[0])), verdicts, from + 1, budget, p);
    }
  }

  /** A put is refused exactly for another store's chunk or a different object, and otherwise makes the
      chunk resident, queued, and changes no other. */
  lemma PutsExactly(s: Source, p: Coord, chunk: nat, ours: bool)
    requires Covers(s)
    ensures Put(s, p, chunk, ours).Some? <==> ours && (p in s.chunks ==> s.chunks[p] == chunk)
    ensures Put(s, p, chunk, ours).Some? ==>
              var r := Put(s, p, chunk, ours).value;
              && r.chunks == s.chunks[p := chunk] && p in r.queue && s.queue <= r.queue
              && (p in s.chunks ==> r == s)
  {
  }

  /** An unload takes exactly a resident chunk that is neither pinned nor dirty. */
  lemma UnloadsExactly(s: Source, p: Coord, status: Status)
    ensures var r := Unload(s, p, status);
            && (p !in r.chunks <==> p !in s.chunks || (status != PinnedChunk && status != DirtyChunk))
            && (p in r.chunks ==> r == s)
            && forall q :: q != p ==>
                 (q in r.chunks <==> q in s.chunks) && (q in s.chunks ==> r.chunks[q] == s.chunks[q])
  {
  }

  datatype Event =
    | PutChunk(pos: Coord, chunk: nat, ours: bool)
    | UnloadChunk(pos: Coord, status: Status)
    | Evict(budget: nat, verdicts: Verdicts)

  function Step(s: Source, e: Event): Source {
    match e
    case PutChunk(p, chunk, ours) => if Put(s, p, chunk, ours).Some? then Put(s, p, chunk, ours).value else s
    case UnloadChunk(p, status) => Unload(s, p, status)
    case Evict(budget, verdicts) => if 0 < budget <= MAX_BUDGET then Sweep(s, verdicts, 0, budget) else s
  }

  function Run(s: Source, events: seq<Event>): Source
    decreases |events|
  {
    if events == [] then s else Run(Step(s, events[0]), events[1..])
  }

  lemma StepCovers(s: Source, e: Event)
    requires Covers(s)
    ensures Covers(Step(s, e))
  {
    match e
    case PutChunk(p, chunk, ours) => if Put(s, p, chunk, ours).Some? { PutCovers(s, p, chunk, ours); }
    case UnloadChunk(_, _) =>
    case Evict(budget, verdicts) => SweepCovers(s, verdicts, 0, budget);
  }

  /** From a covering state every run leads to covering states. */
  lemma {:induction false} RunCovers(s: Source, events: seq<Event>)
    requires Covers(s)
    ensures Covers(Run(s, events))
    decreases |events|
  {
    if events != [] {
      StepCovers(s, events[0]);
      RunCovers(Step(s, events[0]), events[1..]);
    }
  }

  /** In every reachable state the queue covers what is resident, each chunk once. */
  lemma ReachableCovers(events: seq<Event>)
    ensures Covers(Run(EMPTY, events))
  {
    RunCovers(EMPTY, events);
  }

  /** Inspections the sweeps of a run are entitled to. */
  function Inspections(events: seq<Event>): nat {
    if events == [] then 0
    else (if events[0].Evict? && 0 < events[0].budget <= MAX_BUDGET
        then events[0].budget else 0) + Inspections(events[1..])
  }

  ghost predicate FreeThroughout(events: seq<Event>, p: Coord) {
    forall i :: 0 <= i < |events| && events[i].Evict? ==> AlwaysFree(events[i].verdicts, p)
  }

  /** A chunk at position `k` that stays free is unloaded by the time its sweeps were entitled to
      more than `k` inspections, whatever else is put or unloaded meanwhile. */
  lemma {:induction false} FreeChunkIsUnloaded(s: Source, events: seq<Event>, k: nat) returns (n: nat)
    requires Covers(s) && k < |s.queue| && FreeThroughout(events, s.queue[k]) && k < Inspections(events)
    ensures n <= |events| && s.queue[k] !in Run(s, events[..n]).chunks
    decreases |events|
  {
    var e, p := events[0], s.queue[k];
    var next := Step(s, e);
    StepCovers(s, e);
    if e.Evict? && 0 < e.budget <= MAX_BUDGET {
      assert AlwaysFree(events[0].verdicts, p);
      SweepReaches(s, e.verdicts, 0, e.budget, k);
      if k < e.budget {
        assert events[..1][1..] == [];
        return 1;
      }
    }
    var k' := if e.Evict? && 0 < e.budget <= MAX_BUDGET then k - e.budget else k;
    assert next.queue[k'] == p;
    assert forall i :: 0 <= i < |events[1..]| ==> events[1..][i] == events[i + 1];
    var m := FreeChunkIsUnloaded(next, events[1..], k');
    n := m + 1;
    assert events[..n][1..] == events[1..][..m];
  }

  // ----- the program

  class MainChunkSource {
    var chunks: map<Coord, nat>
    var cells: map<Coord, nat>
    var queued: set<Coord>
    var queue: seq<Coord>

    ghost function Value(): Source
      reads this
    {
      Source(chunks, cells, queued, queue)
    }

    constructor ()
      ensures Value() == EMPTY
    {
      chunks, cells, queued, queue := map[], map[], {}, [];
    }

    method PutChunk(p: Coord, chunk: nat, ours: bool) returns (ok: bool)
      modifies this
      ensures ok == Put(old(Value()), p, chunk, ours).Some?
      ensures Value() == if ok then Put(old(Value()), p, chunk, ours).value else old(Value())
    {
      if !ours {
        return false;
      }
      var absent := p !in chunks;
      if !absent && chunks[p] != chunk {
        return false;
      }
      chunks := chunks[p := chunk];
      if p !in cells {
        cells := cells[p := chunk];
      }
      if absent && p !in queued {
        queued := queued + {p};
        queue := queue + [p];
      }
      ok := true;
    }

    method UnloadChunk(p: Coord, native: Status) returns (status: Status)
      modifies this
      ensures status == if p in old(chunks) then native else Missing
      ensures Value() == Unload(old(Value()), p, native)
    {
      if p !in chunks {
        return Missing;
      }
      if native.Unloaded? || native.Missing? {
        chunks, cells := chunks - {p}, cells - {p};
      }
      status := native;
    }

    /** Returns how many chunks went, or nothing for a budget out of range. */
    method EvictCleanUnpinned(budget: int, verdicts: Verdicts) returns (removed: Option<nat>)
      modifies this
      ensures removed.None? <==> !(0 < budget <= MAX_BUDGET)
      ensures Value() == if removed.Some? then Sweep(old(Value()), verdicts, 0, budget) else old(Value())
      ensures removed.Some? ==> |old(chunks)| == |chunks| + removed.value
    {
      if budget <= 0 || budget > MAX_BUDGET {
        return None;
      }
      var count: nat, inspected: nat := 0, 0;
      while inspected < budget && queue != []
        invariant inspected <= budget
        invariant Sweep(Value(), verdicts, inspected, budget) == Sweep(old(Value()), verdicts, 0, budget)
        invariant |old(chunks)| == |chunks| + count
      {
        var p := queue[0];
        queue := queue[1..];
        queued := queued - {p};
        if p in chunks {
          ghost var before := chunks.Keys;
          var status := UnloadChunk(p, verdicts(inspected, p));
          if Keeps(status) {
            queued := queued + {p};
            queue := queue + [p];
          } else {
            assert chunks.Keys == before - {p};
            count := count + 1;
          }
        }
        inspected := inspected + 1;
      }
      removed := Some(count);
    }
  }
}
