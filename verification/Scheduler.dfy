/** The tick scheduler: a task map, a due queue with lazy deletion and compaction, and callbacks that
    schedule, repeat, cancel, shut down or throw while the due loop runs. */
module Scheduling {
  import opened Options
  import opened DueQueues
  import opened TaskHistory

  const STALE_LIMIT: nat := 1024

  /** What a callback does to the scheduler. A negative delay or a non-positive interval is refused. */
  datatype Op = Schedule(delay: int) | Repeat(interval: int) | Cancel(id: nat) | Shutdown

  /** One callback invocation: its calls in order, and whether it throws at the end. */
  datatype Script = Script(ops: seq<Op>, throws: bool)

  function DueNow(tasks: map<nat, Task>, tick: int): set<nat> {
    set id | id in tasks && tasks[id].due <= tick
  }

  lemma RemovedIsNotDue(tasks: map<nat, Task>, id: nat, tick: int)
    ensures DueNow(tasks - {id}, tick) == DueNow(tasks, tick) - {id}
  {
  }

  lemma LaterIsNotDue(tasks: map<nat, Task>, id: nat, t: Task, tick: int)
    requires tick < t.due
    ensures DueNow(tasks[id := t], tick) == DueNow(tasks, tick) - {id}
  {
  }

  /** What each call makes of the live tasks. */
  ghost predicate Performed(op: Op, was: map<nat, Task>, now: map<nat, Task>, tick: int, next: nat) {
    match op
    case Schedule(delay) =>
      now == if delay < 0 then was else was[next := Task(tick + (if delay > 1 then delay else 1), None)]
    case Repeat(interval) => now == if interval <= 0 then was else was[next := Task(tick + interval, Some(interval))]
    case Cancel(id) => now == was - {id}
    case Shutdown => now == map[]
  }

  /** No call makes a task due now, or changes one it does not remove. */
  lemma PerformingAddsLater(op: Op, was: map<nat, Task>, now: map<nat, Task>, tick: int, next: nat)
    requires Performed(op, was, now, tick, next)
    ensures DueNow(now, tick) <= DueNow(was, tick)
    ensures forall id :: id in now && id != next ==> id in was && now[id] == was[id]
  {
  }

  lemma SubsetSize(a: set<nat>, b: set<nat>)
    requires a <= b
    ensures |a| <= |b|
    ensures a != b ==> |a| < |b|
  {
    assert b == a + (b - a);
    if a != b {
      var x :| x in b - a;
      assert |b - a| > 0;
    }
  }

  class Scheduler {
    var tick: int
    var nextTaskId: nat
    var stale: nat
    var tasks: map<nat, Task>
    const queue: DueQueue
    /** Callbacks are taken in the order they run, so an arbitrary script per run covers them all. */
    const script: nat -> Script
    var runs: nat

    ghost var plans: map<nat, Task>
    ghost var history: seq<Event>
    ghost var running: Option<nat>

    /** Every live task is queued at its due tick, except the one whose callback runs right now. */
    ghost predicate Valid()
      reads this, queue
    {
      && queue.Valid()
      && (forall id :: id in plans ==> id < nextTaskId)
      && (forall id :: id in tasks && running != Some(id) ==> Entry(tasks[id].due, id) in queue.heap)
      && Honest(history, plans, tasks, running, tick)
    }

    constructor (script: nat -> Script)
      ensures Valid() && running.None? && tasks == map[] && history == [] && fresh(queue)
    {
      tick, nextTaskId, stale, tasks, runs := 0, 1, 0, map[], 0;
      queue := new DueQueue();
      this.script := script;
      plans, history, running := map[], [], None;
    }

    method Add(due: int, interval: Option<nat>) returns (id: nat)
      requires Valid() && tick < due && (interval.Some? ==> interval.value > 0)
      modifies this`nextTaskId, this`tasks, this`plans, queue
      ensures Valid() && id == old(nextTaskId) && nextTaskId == id + 1
      ensures tasks == old(tasks)[id := Task(due, interval)] && id !in old(plans)
      ensures forall k :: k in old(plans) ==> k in plans && plans[k] == old(plans)[k]
    {
      id := nextTaskId;
      HonestAdd(history, plans, tasks, running, tick, id, Task(due, interval));
      nextTaskId := nextTaskId + 1;
      tasks := tasks[id := Task(due, interval)];
      plans := plans[id := Task(due, interval)];
      queue.Push(due, id);
    }

    /** A one-shot task; a delay of zero still waits for the next tick. */
    method ScheduleTask(delay: int) returns (id: Option<nat>)
      requires Valid()
      modifies this`nextTaskId, this`tasks, this`plans, queue
      ensures Valid() && (forall k :: k in old(plans) ==> k in plans && plans[k] == old(plans)[k])
      ensures delay < 0 ==> id.None? && tasks == old(tasks)
      ensures delay >= 0 ==>
        && id == Some(old(nextTaskId)) && id.value !in old(plans)
        && tasks == old(tasks)[id.value := Task(tick + (if delay > 1 then delay else 1), None)]
    {
      if delay < 0 {
        return None;
      }
      var added := Add(tick + (if delay > 1 then delay else 1), None);
      id := Some(added);
    }

    method RepeatTask(interval: int) returns (id: Option<nat>)
      requires Valid()
      modifies this`nextTaskId, this`tasks, this`plans, queue
      ensures Valid() && (forall k :: k in old(plans) ==> k in plans && plans[k] == old(plans)[k])
      ensures interval <= 0 ==> id.None? && tasks == old(tasks)
      ensures interval > 0 ==>
        && id == Some(old(nextTaskId)) && id.value !in old(plans)
        && tasks == old(tasks)[id.value := Task(tick + interval, Some(interval))]
    {
      if interval <= 0 {
        return None;
      }
      var added := Add(tick + interval, Some(interval));
      id := Some(added);
    }

    /** Rebuilds the queue from the live tasks once too many entries are stale. */
    method CompactIfNeeded()
      requires Valid()
      modifies this`stale, queue
      ensures Valid()
      ensures if tasks == map[] || (old(stale) >= 1024 && old(stale) >= |tasks|)
              then |queue.heap| == |tasks| && stale == 0
              else queue.heap == old(queue.heap) && stale == old(stale)
    {
      if tasks == map[] {
        queue.Clear();
        stale := 0;
        return;
      }
      if stale < STALE_LIMIT || stale < |tasks| {
        return;
      }
      queue.Clear();
      var left := tasks.Keys;
      while left != {}
        invariant queue.Valid() && left <= tasks.Keys && |queue.heap| + |left| == |tasks|
        invariant forall id :: id in tasks && id !in left ==> Entry(tasks[id].due, id) in queue.heap
        decreases left
      {
        var id :| id in left;
        queue.Push(tasks[id].due, id);
        left := left - {id};
      }
      stale := 0;
    }

    /** Returns whether the task was live; if so it never starts again. */
    method CancelTask(id: nat) returns (live: bool)
      requires Valid()
      modifies this`tasks, this`history, this`stale, queue
      ensures Valid() && live == (id in old(tasks)) && tasks == old(tasks) - {id}
      ensures history == if live then old(history) + [Cancelled(id)] else old(history)
      ensures stale == if !live then old(stale)
        else if tasks == map[] || (old(stale) + 1 >= 1024 && old(stale) + 1 >= |tasks|) then 0 else old(stale) + 1
    {
      if id !in tasks {
        return false;
      }
      Forget(id);
      stale := stale + 1;
      CompactIfNeeded();
      live := true;
    }

    method Forget(id: nat)
      requires Valid() && id in tasks
      modifies this`tasks, this`history
      ensures Valid() && tasks == old(tasks) - {id} && history == old(history) + [Cancelled(id)]
    {
      HonestCancel(history, plans, tasks, running, tick, id);
      tasks := tasks - {id};
      history := history + [Cancelled(id)];
    }

    method ShutDown()
      requires Valid()
      modifies this`tasks, this`history, this`stale, queue
      ensures Valid() && tasks == map[] && history == old(history) + [Stopped(nextTaskId)]
    {
      HonestStop(history, plans, tasks, running, tick, nextTaskId);
      history := history + [Stopped(nextTaskId)];
      tasks := map[];
      stale := 0;
      queue.Clear();
    }

    method Perform(op: Op)
      requires Valid()
      modifies this`nextTaskId, this`tasks, this`plans, this`history, this`stale, queue
      ensures Valid() && Performed(op, old(tasks), tasks, tick, old(nextTaskId))
      ensures old(history) <= history && forall id :: id in old(plans) ==> id in plans && plans[id] == old(plans)[id]
    {
      match op
      case Schedule(delay) => var _ := ScheduleTask(delay);
      case Repeat(interval) => var _ := RepeatTask(interval);
      case Cancel(id) => var _ := CancelTask(id);
      case Shutdown => ShutDown();
    }

    /** The callback of the running task: it never makes another task due in this tick, and it
        leaves the task itself as it was or removes it. */
    method RunCallback(id: nat) returns (throws: bool)
      requires Valid() && running == Some(id) && id in tasks
      modifies this`nextTaskId, this`tasks, this`plans, this`history, this`stale, this`runs, queue
      ensures Valid() && DueNow(tasks, tick) <= DueNow(old(tasks), tick)
      ensures id in tasks ==> tasks[id] == old(tasks)[id]
      ensures old(history) <= history && id in plans && plans[id] == old(plans)[id]
    {
      var s := script(runs);
      runs := runs + 1;
      for k := 0 to |s.ops|
        invariant Valid() && DueNow(tasks, tick) <= DueNow(old(tasks), tick)
        invariant id in plans && plans[id] == old(plans)[id] && (id in tasks ==> tasks[id] == old(tasks)[id])
        invariant old(history) <= history
      {
        ghost var was, next := tasks, nextTaskId;
        Perform(s.ops[k]);
        PerformingAddsLater(s.ops[k], was, tasks, tick, next);
      }
      throws := s.throws;
    }

    /** The task is over: a throwing or one-shot callback has returned. */
    method Finish(id: nat, throws: bool)
      requires Valid() && running == Some(id) && id in tasks && (throws || tasks[id].interval.None?)
      requires exists i :: 0 <= i < |history| && history[i].Started? && history[i].id == id
      modifies this`tasks, this`history, this`running
      ensures Valid() && running.None? && tasks == old(tasks) - {id}
      ensures DueNow(tasks, tick) == DueNow(old(tasks), tick) - {id}
      ensures history == if throws then old(history) + [Threw(id)] else old(history)
    {
      if throws {
        HonestThrow(history, plans, tasks, tick, id);
        history := history + [Threw(id)];
      } else {
        HonestOneShot(history, plans, tasks, tick, id);
      }
      RemovedIsNotDue(tasks, id, tick);
      tasks := tasks - {id};
      running := None;
    }

    /** A repeating task goes back into the queue, one interval from now. */
    method Requeue(id: nat)
      requires Valid() && running == Some(id) && id in tasks && tasks[id].interval.Some? && tasks[id].due <= tick
      requires exists i :: 0 <= i < |history| && history[i] == Started(id, tick)
      modifies this`tasks, this`running, queue
      ensures Valid() && running.None? && tasks == old(tasks)[id := NextRun(old(tasks)[id], tick)]
      ensures DueNow(tasks, tick) == DueNow(old(tasks), tick) - {id}
    {
      var next := NextRun(tasks[id], tick);
      assert LiveTask(history, plans, id, tasks[id], true);
      HonestRepeat(history, plans, tasks, tick, id);
      LaterIsNotDue(tasks, id, next, tick);
      queue.Push(next.due, id);
      tasks := tasks[id := next];
      running := None;
    }

    /** After the callback: a one-shot or throwing task is forgotten, a repeating one is queued again. */
    method Settle(id: nat, interval: Option<nat>, throws: bool)
      requires Valid() && running == Some(id)
      requires id in tasks ==> tasks[id].interval == interval && tasks[id].due <= tick
      requires exists i :: 0 <= i < |history| && history[i] == Started(id, tick)
      modifies this`tasks, this`history, this`running, queue
      ensures Valid() && running.None? && old(history) <= history
      ensures DueNow(tasks, tick) == DueNow(old(tasks), tick) - {id}
      ensures id !in old(tasks) ==> tasks == old(tasks)
      ensures id in old(tasks) && (throws || interval.None?) ==> tasks == old(tasks) - {id}
      ensures id in old(tasks) && !throws && interval.Some? ==> tasks == old(tasks)[id := NextRun(old(tasks)[id], tick)]
    {
      if id !in tasks {
        HonestGone(history, plans, tasks, tick, id);
        running := None;
      } else if throws || interval.None? {
        Finish(id, throws);
      } else {
        Requeue(id);
      }
    }

    /** Runs what is due. Unless a callback throws, no live task is left due; callbacks cannot keep
        the loop going, since each run takes one task off those due now. */
    method RunDueTasks() returns (threw: bool)
      requires Valid() && running.None?
      modifies this`nextTaskId, this`tasks, this`plans, this`history, this`stale, this`runs, this`running, queue
      ensures Valid() && running.None?
      ensures !threw ==> forall id :: id in tasks ==> tick < tasks[id].due
      ensures old(history) <= history
    {
      while true
        invariant Valid() && running.None? && old(history) <= history
        decreases |DueNow(tasks, tick)|, |queue.heap|
      {
        var entry := TakeDue();
        if entry.None? {
          return false;
        }
        threw := Serve(entry.value);
        if threw {
          return;
        }
      }
    }

    /** Every live task is queued, except possibly under `entry`, which has just been taken. */
    ghost predicate ValidBut(entry: Entry)
      reads this, queue
    {
      && queue.Valid() && (forall id :: id in plans ==> id < nextTaskId)
      && (forall id :: id in tasks && Entry(tasks[id].due, id) != entry ==> Entry(tasks[id].due, id) in queue.heap)
      && Honest(history, plans, tasks, None, tick)
    }

    /** Takes the first entry if it is due; if it is not, no live task is. */
    method TakeDue() returns (entry: Option<Entry>)
      requires Valid() && running.None?
      modifies queue
      ensures entry.None? ==> Valid() && forall id :: id in tasks ==> tick < tasks[id].due
      ensures entry.Some? ==> entry.value.due <= tick && ValidBut(entry.value) && |queue.heap| < |old(queue.heap)|
      ensures entry.Some? ==> forall id :: id in tasks ==>
        entry.value.due < tasks[id].due || (entry.value.due == tasks[id].due && entry.value.id <= id)
    {
      var due := queue.PeekDue();
      if due.None? || due.value > tick {
        return None;
      }
      entry := queue.Pop();
    }

    /** Runs the task of a due entry unless the entry is stale. */
    method Serve(entry: Entry) returns (threw: bool)
      requires ValidBut(entry) && running.None? && entry.due <= tick
      modifies this`nextTaskId, this`tasks, this`plans, this`history, this`stale, this`runs, this`running, queue
      ensures Valid() && running.None? && old(history) <= history
      ensures || |DueNow(tasks, tick)| < |DueNow(old(tasks), tick)|
              || (tasks == old(tasks) && queue.heap == old(queue.heap) && !threw)
      ensures entry.id !in old(tasks) ==> stale == if old(stale) > 0 then old(stale) - 1 else 0
    {
      var id := entry.id;
      if id !in tasks {
        if stale > 0 {
          stale := stale - 1;
        }
        return false;
      }
      if tasks[id].due != entry.due {
        return false;
      }
      ghost var dueBefore := DueNow(tasks, tick);
      assert id in dueBefore;
      threw := RunTask(id);
      SubsetSize(DueNow(tasks, tick), dueBefore);
    }

    method RunTask(id: nat) returns (threw: bool)
      requires running.None? && id in tasks && tasks[id].due <= tick && ValidBut(Entry(tasks[id].due, id))
      modifies this`nextTaskId, this`tasks, this`plans, this`history, this`stale, this`runs, this`running, queue
      ensures Valid() && running.None?
      ensures DueNow(tasks, tick) <= DueNow(old(tasks), tick) - {id}
      ensures old(history) + [Started(id, tick)] <= history
    {
      var scheduled := tasks[id];
      HonestStart(history, plans, tasks, tick, id);
      history := history + [Started(id, tick)];
      ghost var at := |history| - 1;
      running := Some(id);
      threw := RunCallback(id);
      assert history[at] == Started(id, tick);
      Settle(id, scheduled.interval, threw);
    }

    method Tick() returns (threw: bool)
      requires Valid() && running.None?
      modifies this, queue
      ensures Valid() && running.None? && tick == old(tick) + 1
      ensures !threw ==> forall id :: id in tasks ==> tick < tasks[id].due
      ensures old(history) <= history
    {
      HonestLater(history, plans, tasks, running, tick, tick + 1);
      tick := tick + 1;
      threw := RunDueTasks();
    }
  }

  /** What an owner does between callbacks. */
  datatype Call = Do(op: Op) | NextTick

  /** Any run of owner calls and ticks, with any callbacks: the history keeps its promises, and every
      task ever added is live and queued at its due tick or has an event that ended it. */
  method Drive(script: nat -> Script, calls: seq<Call>) returns (s: Scheduler)
    ensures fresh(s) && s.running.None?
    ensures Promises(s.history, s.plans) && NoneLost(s.history, s.plans, s.tasks)
    ensures forall id :: id in s.tasks ==> Entry(s.tasks[id].due, id) in s.queue.heap
    ensures forall id :: id in s.tasks ==> LiveTask(s.history, s.plans, id, s.tasks[id], false)
  {
    s := new Scheduler(script);
    for k := 0 to |calls|
      invariant fresh(s) && fresh(s.queue) && s.Valid() && s.running.None?
    {
      match calls[k]
      case Do(op) => s.Perform(op);
      case NextTick => var _ := s.Tick();
    }
  }
}
