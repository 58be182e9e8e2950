/** What a scheduler promises about the tasks it was given, as facts about its history. */
module TaskHistory {
  import opened Options

  datatype Task = Task(due: int, interval: Option<nat>)

  /** What happened to tasks, in order. Shutting down ends every task numbered below `below`. */
  datatype Event = Started(id: nat, tick: int) | Cancelled(id: nat) | Threw(id: nat) | Stopped(below: nat)

  // ----- what a history promises

  /** No start before its due tick; a second start only of a repeating task and an interval later;
      none after a cancellation that returned true. */
  ghost predicate Promises(h: seq<Event>, plans: map<nat, Task>) {
    && (forall i :: 0 <= i < |h| && !h[i].Stopped? ==> h[i].id in plans)
    && (forall i :: 0 <= i < |h| && h[i].Started? ==> plans[h[i].id].due <= h[i].tick)
    && (forall i, j :: 0 <= i < j < |h| && h[i].Started? && h[j].Started? && h[i].id == h[j].id ==>
          plans[h[i].id].interval.Some? && h[i].tick + plans[h[i].id].interval.value <= h[j].tick)
    && (forall i, j :: 0 <= i < j < |h| && h[i].Cancelled? && h[j].Started? ==> h[i].id != h[j].id)
  }

  predicate StartOf(e: Event, id: nat) {
    e.Started? && e.id == id
  }

  /** A task that has not run is due when it was planned; one that has is due exactly one interval
      after some start, which with the bound on every start makes it the last. */
  ghost predicate DueOnTime(h: seq<Event>, plans: map<nat, Task>, id: nat, t: Task)
    requires id in plans
  {
    || ((forall i :: 0 <= i < |h| ==> !StartOf(h[i], id)) && t.due == plans[id].due)
    || (t.interval.Some? && exists i :: 0 <= i < |h| && StartOf(h[i], id) && h[i].tick + t.interval.value == t.due)
  }

  /** A live task has not been cancelled, and unless it is running right now its next due tick is one
      interval past its last start. */
  ghost predicate LiveTask(h: seq<Event>, plans: map<nat, Task>, id: nat, t: Task, running: bool) {
    && id in plans && plans[id].interval == t.interval && plans[id].due <= t.due
    && (t.interval.Some? ==> t.interval.value > 0)
    && (forall i :: 0 <= i < |h| && h[i].Cancelled? ==> h[i].id != id)
    && (!running ==> forall i :: 0 <= i < |h| && h[i].Started? && h[i].id == id ==>
          t.interval.Some? && h[i].tick + t.interval.value <= t.due)
    && (!running ==> DueOnTime(h, plans, id, t))
  }

  /** A live repeating task is due exactly one interval after its last start. */
  lemma DueAfterLastStart(h: seq<Event>, plans: map<nat, Task>, id: nat, t: Task, last: nat)
    requires Promises(h, plans) && LiveTask(h, plans, id, t, false)
    requires last < |h| && StartOf(h[last], id) && forall i :: last < i < |h| ==> !StartOf(h[i], id)
    ensures t.interval.Some? && t.due == h[last].tick + t.interval.value
  {
    var j :| 0 <= j < |h| && StartOf(h[j], id) && h[j].tick + t.interval.value == t.due;
  }

  /** An event that ends a task for good. */
  predicate Ends(e: Event, id: nat, plan: Task) {
    match e
    case Started(n, _) => n == id && plan.interval.None?
    case Cancelled(n) => n == id
    case Threw(n) => n == id
    case Stopped(below) => id < below
  }

  /** No task is lost: one that is no longer live has run as a one-shot, thrown, been cancelled or
      been stopped with the scheduler. */
  ghost predicate NoneLost(h: seq<Event>, plans: map<nat, Task>, tasks: map<nat, Task>) {
    forall id :: id in plans && id !in tasks ==> exists i :: 0 <= i < |h| && Ends(h[i], id, plans[id])
  }

  lemma EndedStaysEnded(h: seq<Event>, e: Event, plans: map<nat, Task>, tasks: map<nat, Task>, tasks': map<nat, Task>)
    requires NoneLost(h, plans, tasks)
    requires forall id :: id in tasks && id in plans && id !in tasks' ==> Ends(e, id, plans[id])
    ensures NoneLost(h + [e], plans, tasks')
  {
    var more := h + [e];
    forall id | id in plans && id !in tasks'
      ensures exists i :: 0 <= i < |more| && Ends(more[i], id, plans[id])
    {
      if id in tasks {
        assert Ends(more[|h|], id, plans[id]);
      } else {
        var i :| 0 <= i < |h| && Ends(h[i], id, plans[id]);
        assert Ends(more[i], id, plans[id]);
      }
    }
  }

  lemma LaterEventKeepsDue(h: seq<Event>, e: Event, plans: map<nat, Task>, id: nat, t: Task)
    requires id in plans && DueOnTime(h, plans, id, t) && !StartOf(e, id)
    ensures DueOnTime(h + [e], plans, id, t)
  {
    var more := h + [e];
    if i :| 0 <= i < |h| && StartOf(h[i], id) && t.interval.Some? && h[i].tick + t.interval.value == t.due {
      assert more[i] == h[i];
    }
  }

  /** An event about another task leaves a live task in order. */
  lemma LaterEventKeepsLive(h: seq<Event>, e: Event, plans: map<nat, Task>, id: nat, t: Task, running: bool)
    requires LiveTask(h, plans, id, t, running) && !StartOf(e, id) && e != Cancelled(id)
    ensures LiveTask(h + [e], plans, id, t, running)
  {
    if !running {
      LaterEventKeepsDue(h, e, plans, id, t);
    }
  }

  /** Notes that end or stop tasks say nothing about starts. */
  lemma NoteKeepsPromises(h: seq<Event>, plans: map<nat, Task>, e: Event)
    requires Promises(h, plans) && (e.Stopped? || (e.Threw? && e.id in plans))
    ensures Promises(h + [e], plans)
    ensures forall k, t, running :: LiveTask(h, plans, k, t, running) ==> LiveTask(h + [e], plans, k, t, running)
  {
    forall k, t, running | LiveTask(h, plans, k, t, running)
      ensures LiveTask(h + [e], plans, k, t, running)
    {
      LaterEventKeepsLive(h, e, plans, k, t, running);
    }
  }

  lemma StartKeepsPromises(h: seq<Event>, plans: map<nat, Task>, id: nat, t: Task, tick: int)
    requires Promises(h, plans) && LiveTask(h, plans, id, t, false) && t.due <= tick
    ensures Promises(h + [Started(id, tick)], plans)
  {
  }

  lemma CancelKeepsPromises(h: seq<Event>, plans: map<nat, Task>, id: nat)
    requires Promises(h, plans) && id in plans
    ensures Promises(h + [Cancelled(id)], plans)
  {
  }

  lemma CancelKeepsOthers(h: seq<Event>, plans: map<nat, Task>, k: nat, t: Task, running: bool, id: nat)
    requires LiveTask(h, plans, k, t, running) && k != id
    ensures LiveTask(h + [Cancelled(id)], plans, k, t, running)
  {
    LaterEventKeepsLive(h, Cancelled(id), plans, k, t, running);
  }

  /** The promises hold of the history, every live task is in order, and none was lost. */
  ghost predicate Honest(h: seq<Event>, plans: map<nat, Task>, tasks: map<nat, Task>, running: Option<nat>, tick: int) {
    && Promises(h, plans) && NoneLost(h, plans, tasks)
    && (forall id :: id in tasks ==> LiveTask(h, plans, id, tasks[id], running == Some(id)))
    && (forall i :: 0 <= i < |h| && h[i].Started? ==> h[i].tick <= tick)
  }

  lemma HonestStart(h: seq<Event>, plans: map<nat, Task>, tasks: map<nat, Task>, tick: int, id: nat)
    requires Honest(h, plans, tasks, None, tick) && id in tasks && tasks[id].due <= tick
    ensures Honest(h + [Started(id, tick)], plans, tasks, Some(id), tick)
  {
    StartKeepsPromises(h, plans, id, tasks[id], tick);
    EndedStaysEnded(h, Started(id, tick), plans, tasks, tasks);
    forall k | k in tasks
      ensures LiveTask(h + [Started(id, tick)], plans, k, tasks[k], k == id)
    {
      assert LiveTask(h, plans, k, tasks[k], false);
      if k != id {
        LaterEventKeepsLive(h, Started(id, tick), plans, k, tasks[k], false);
      }
    }
  }

  lemma HonestCancel(h: seq<Event>, plans: map<nat, Task>, tasks: map<nat, Task>, running: Option<nat>, tick: int,
                     id: nat)
    requires Honest(h, plans, tasks, running, tick) && id in tasks
    ensures Honest(h + [Cancelled(id)], plans, tasks - {id}, running, tick)
  {
    CancelKeepsPromises(h, plans, id);
    EndedStaysEnded(h, Cancelled(id), plans, tasks, tasks - {id});
    forall k | k in tasks && k != id
      ensures LiveTask(h + [Cancelled(id)], plans, k, tasks[k], running == Some(k))
    {
      CancelKeepsOthers(h, plans, k, tasks[k], running == Some(k), id);
    }
  }

  lemma HonestStop(h: seq<Event>, plans: map<nat, Task>, tasks: map<nat, Task>, running: Option<nat>, tick: int,
                   below: nat)
    requires Honest(h, plans, tasks, running, tick) && forall id :: id in plans ==> id < below
    ensures Honest(h + [Stopped(below)], plans, map[], running, tick)
  {
    NoteKeepsPromises(h, plans, Stopped(below));
    EndedStaysEnded(h, Stopped(below), plans, tasks, map[]);
  }

  lemma HonestThrow(h: seq<Event>, plans: map<nat, Task>, tasks: map<nat, Task>, tick: int, id: nat)
    requires Honest(h, plans, tasks, Some(id), tick) && id in tasks
    ensures Honest(h + [Threw(id)], plans, tasks - {id}, None, tick)
  {
    NoteKeepsPromises(h, plans, Threw(id));
    EndedStaysEnded(h, Threw(id), plans, tasks, tasks - {id});
  }

  lemma HonestOneShot(h: seq<Event>, plans: map<nat, Task>, tasks: map<nat, Task>, tick: int, id: nat)
    requires Honest(h, plans, tasks, Some(id), tick) && id in tasks && tasks[id].interval.None?
    requires exists i :: 0 <= i < |h| && h[i].Started? && h[i].id == id
    ensures Honest(h, plans, tasks - {id}, None, tick)
  {
  }

  /** A repeating task comes due again one interval from now. */
  function NextRun(t: Task, tick: int): Task
    requires t.interval.Some?
  {
    t.(due := tick + t.interval.value)
  }

  lemma HonestRepeat(h: seq<Event>, plans: map<nat, Task>, tasks: map<nat, Task>, tick: int, id: nat)
    requires Honest(h, plans, tasks, Some(id), tick) && id in tasks && tasks[id].interval.Some? && tasks[id].due <= tick
    requires exists i :: 0 <= i < |h| && h[i] == Started(id, tick)
    ensures Honest(h, plans, tasks[id := NextRun(tasks[id], tick)], None, tick)
  {
  }

  lemma HonestGone(h: seq<Event>, plans: map<nat, Task>, tasks: map<nat, Task>, tick: int, id: nat)
    requires Honest(h, plans, tasks, Some(id), tick) && id !in tasks
    ensures Honest(h, plans, tasks, None, tick)
  {
  }

  lemma HonestAdd(h: seq<Event>, plans: map<nat, Task>, tasks: map<nat, Task>, running: Option<nat>, tick: int,
                  id: nat, t: Task)
    requires Honest(h, plans, tasks, running, tick) && id !in plans && (t.interval.Some? ==> t.interval.value > 0)
    ensures Honest(h, plans[id := t], tasks[id := t], running, tick)
  {
    var more, live := plans[id := t], tasks[id := t];
    AddKeepsPromises(h, plans, id, t);
    forall k | k in more && k !in live
      ensures exists i :: 0 <= i < |h| && Ends(h[i], k, more[k])
    {
      var i :| 0 <= i < |h| && Ends(h[i], k, plans[k]);
      assert Ends(h[i], k, more[k]);
    }
    forall k | k in live
      ensures LiveTask(h, more, k, live[k], running == Some(k))
    {
      if k != id {
        AddKeepsLive(h, plans, id, t, k, tasks[k], running == Some(k));
      }
    }
  }

  lemma AddKeepsPromises(h: seq<Event>, plans: map<nat, Task>, id: nat, t: Task)
    requires Promises(h, plans) && id !in plans
    ensures Promises(h, plans[id := t]) && forall i :: 0 <= i < |h| && !h[i].Stopped? ==> h[i].id != id
  {
  }

  lemma AddKeepsLive(h: seq<Event>, plans: map<nat, Task>, id: nat, t: Task, k: nat, live: Task, running: bool)
    requires LiveTask(h, plans, k, live, running) && k != id
    ensures LiveTask(h, plans[id := t], k, live, running)
  {
  }

  lemma HonestLater(h: seq<Event>, plans: map<nat, Task>, tasks: map<nat, Task>, running: Option<nat>, tick: int,
                    later: int)
    requires Honest(h, plans, tasks, running, tick) && tick <= later
    ensures Honest(h, plans, tasks, running, later)
  {
  }
}
