/** The scheduler's binary min-heap, ordered by due tick and then identity. */
module DueQueues {
  import opened Options

  datatype Entry = Entry(due: int, id: nat)

  predicate Before(a: Entry, b: Entry) {
    a.due < b.due || (a.due == b.due && a.id < b.id)
  }

  function Parent(i: nat): nat
    requires i > 0
  {
    (i - 1) / 2
  }

  ghost predicate IsHeap(h: seq<Entry>) {
    forall i :: 0 < i < |h| ==> !Before(h[i], h[Parent(i)])
  }

  function Swapped(h: seq<Entry>, i: nat, j: nat): (r: seq<Entry>)
    requires i < |h| && j < |h|
    ensures |r| == |h|
  {
    h[i := h[j]][j := h[i]]
  }

  lemma SwapKeepsEntries(h: seq<Entry>, i: nat, j: nat)
    requires i < |h| && j < |h|
    ensures multiset(Swapped(h, i, j)) == multiset(h)
  {
  }

  lemma {:induction false} RootIsFirst(h: seq<Entry>, i: nat)
    requires IsHeap(h) && i < |h|
    ensures !Before(h[i], h[0])
  {
    if i > 0 {
      RootIsFirst(h, Parent(i));
      assert !Before(h[i], h[Parent(i)]);
    }
  }

  /** A heap but for the entry at `at`, which may still have to rise. */
  ghost predicate HeapButUp(h: seq<Entry>, at: nat) {
    && at < |h|
    && (forall i :: 0 < i < |h| && i != at ==> !Before(h[i], h[Parent(i)]))
    && (at > 0 ==> forall i :: 0 < i < |h| && Parent(i) == at ==> !Before(h[i], h[Parent(at)]))
  }

  /** A heap but for the entry at `at`, which may still have to sink. */
  ghost predicate HeapButDown(h: seq<Entry>, at: nat) {
    && at < |h|
    && (forall i :: 0 < i < |h| && Parent(i) != at ==> !Before(h[i], h[Parent(i)]))
    && (at > 0 ==> forall i :: 0 < i < |h| && Parent(i) == at ==> !Before(h[i], h[Parent(at)]))
  }

  lemma RiseStep(h: seq<Entry>, at: nat)
    requires HeapButUp(h, at) && at > 0 && Before(h[at], h[Parent(at)])
    ensures HeapButUp(Swapped(h, at, Parent(at)), Parent(at))
  {
    var p := Parent(at);
    var r := Swapped(h, at, p);
    assert p > 0 ==> !Before(h[p], h[Parent(p)]);
  }

  function Smallest(h: seq<Entry>, at: nat): (c: nat)
    requires 2 * at + 1 < |h|
    ensures c < |h| && c > 0 && Parent(c) == at
    ensures forall i :: 0 < i < |h| && Parent(i) == at ==> !Before(h[i], h[c])
  {
    var left := 2 * at + 1;
    if left + 1 < |h| && Before(h[left + 1], h[left]) then left + 1 else left
  }

  lemma SinkStep(h: seq<Entry>, at: nat)
    requires HeapButDown(h, at) && 2 * at + 1 < |h| && Before(h[Smallest(h, at)], h[at])
    ensures HeapButDown(Swapped(h, at, Smallest(h, at)), Smallest(h, at))
  {
    var c := Smallest(h, at);
    var r := Swapped(h, at, c);
    forall i | 0 < i < |r| && Parent(i) != c
      ensures !Before(r[i], r[Parent(i)])
    {
      if Parent(i) == at && i != c {
        assert !Before(h[i], h[c]);
      } else if i == at {
        assert !Before(h[c], h[Parent(at)]);
      }
    }
  }

  lemma LastBecomesRoot(h: seq<Entry>)
    requires |h| > 1 && IsHeap(h)
    ensures var r := h[..|h| - 1][0 := h[|h| - 1]];
            multiset(r) + multiset{h[0]} == multiset(h) && HeapButDown(r, 0)
  {
    var last := |h| - 1;
    assert h == [h[0]] + h[1..last] + [h[last]];
    assert h[..last][0 := h[last]] == [h[last]] + h[1..last];
  }

  class DueQueue {
    var heap: seq<Entry>

    ghost predicate Valid()
      reads this
    {
      IsHeap(heap)
    }

    constructor ()
      ensures Valid() && heap == []
    {
      heap := [];
    }

    method Push(due: int, id: nat)
      requires Valid()
      modifies this
      ensures Valid() && multiset(heap) == multiset(old(heap)) + multiset{Entry(due, id)}
      ensures |heap| == |old(heap)| + 1
      ensures forall x :: x in heap <==> x in old(heap) || x == Entry(due, id)
    {
      var at: nat := |heap|;
      heap := heap + [Entry(due, id)];
      while at > 0
        invariant HeapButUp(heap, at) && |heap| == |old(heap)| + 1
        invariant multiset(heap) == multiset(old(heap)) + multiset{Entry(due, id)}
        decreases at
      {
        var parent := Parent(at);
        if !Before(heap[at], heap[parent]) {
          break;
        }
        RiseStep(heap, at);
        SwapKeepsEntries(heap, at, parent);
        heap := Swapped(heap, at, parent);
        at := parent;
      }
      assert forall x :: x in heap <==> x in multiset(heap);
    }

    method PeekDue() returns (due: Option<int>)
      requires Valid()
      ensures heap == [] ==> due == None
      ensures heap != [] ==> due == Some(heap[0].due) && forall e :: e in heap ==> !Before(e, heap[0])
    {
      if heap == [] {
        return None;
      }
      forall e | e in heap
        ensures !Before(e, heap[0])
      {
        var i :| 0 <= i < |heap| && heap[i] == e;
        RootIsFirst(heap, i);
      }
      due := Some(heap[0].due);
    }

    /** Removes the first entry in queue order. */
    method Pop() returns (e: Option<Entry>)
      requires Valid()
      modifies this
      ensures Valid()
      ensures old(heap) == [] ==> e.None? && heap == []
      ensures old(heap) != [] ==>
        && e == Some(old(heap)[0]) && multiset(old(heap)) == multiset(heap) + multiset{e.value}
        && |heap| == |old(heap)| - 1 && forall x :: x in old(heap) && x != e.value ==> x in heap
      ensures old(heap) != [] ==>
        forall x :: x in old(heap) ==> e.value.due < x.due || (e.value.due == x.due && e.value.id <= x.id)
    {
      if heap == [] {
        return None;
      }
      ghost var was := heap;
      forall x | x in was
        ensures !Before(x, was[0])
      {
        var i :| 0 <= i < |was| && was[i] == x;
        RootIsFirst(was, i);
      }
      var root, last := heap[0], heap[|heap| - 1];
      assert was == was[..|was| - 1] + [last];
      heap := heap[..|heap| - 1];
      if heap == [] {
        return Some(root);
      }
      LastBecomesRoot(was);
      heap := heap[0 := last];
      Sink();
      e := Some(root);
      forall x | x in was && x != root
        ensures x in heap
      {
        assert x in multiset(was);
        assert x in multiset(heap);
      }
    }

    /** Lets the root sink to its place. */
    method Sink()
      requires heap != [] && HeapButDown(heap, 0)
      modifies this
      ensures Valid() && multiset(heap) == multiset(old(heap)) && |heap| == |old(heap)|
    {
      var at: nat := 0;
      while 2 * at + 1 < |heap|
        invariant HeapButDown(heap, at) && |heap| == |old(heap)|
        invariant multiset(heap) == multiset(old(heap))
        decreases |heap| - at
      {
        var child := Smallest(heap, at);
        if !Before(heap[child], heap[at]) {
          break;
        }
        SinkStep(heap, at);
        SwapKeepsEntries(heap, at, child);
        heap := Swapped(heap, at, child);
        at := child;
      }
    }

    method Clear()
      modifies this
      ensures Valid() && heap == []
    {
      heap := [];
    }
  }
}
