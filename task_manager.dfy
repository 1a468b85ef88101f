/**
 * The in-memory task registry of `services/TaskManager.js`: a map from task id
 * to task record, merge updates that announce the updated task on the
 * `taskUpdate` event, and waits that settle either at once or on the first
 * `taskUpdate` that finishes their task.
 *
 * Node runs every callback on one event loop, so each call, each `taskUpdate`
 * delivery and each timer firing is one atomic step on the state below. Task
 * ids (random UUIDs in the source) come from a counter, and the clock
 * (`Date.now()`) is a parameter.
 */
module Registry {
  import opened Wrappers
  import opened JsonValue

  type TaskId = nat
  type WaitId = nat

  datatype Status = Pending | Running | Completed | Failed | Stopped

  /** A task record; `endTime` is absent until an update sets it. */
  datatype Task = Task(
    id: TaskId,
    kind: string,
    data: Json,
    status: Status,
    startTime: int,
    progress: int,
    result: Json,
    error: Json,
    endTime: Option<int>)

  /** The properties an `updates` object may carry; `None` means the property is absent. */
  datatype Update = Update(
    status: Option<Status>,
    progress: Option<int>,
    result: Option<Json>,
    error: Option<Json>,
    endTime: Option<int>)

  /** Why a wait promise rejected: an `Error` object, or the raw `task.error` value. */
  datatype Rejection = ErrorObject(message: string) | Raw(value: Json)

  datatype Outcome = Resolved(value: Json) | Rejected(reason: Rejection)

  /** A wait whose `checkStatus` listener is still registered, or a settled promise. */
  datatype WaitState = Waiting(taskId: TaskId) | Settled(outcome: Outcome)

  /** `Object.assign(task, updates)`: the named properties change, the others stay. */
  function Apply(t: Task, u: Update): (r: Task)
    ensures r.id == t.id && r.kind == t.kind && r.data == t.data && r.startTime == t.startTime
    ensures r.status == (if u.status.Some? then u.status.value else t.status)
    ensures r.progress == (if u.progress.Some? then u.progress.value else t.progress)
    ensures r.result == (if u.result.Some? then u.result.value else t.result)
    ensures r.error == (if u.error.Some? then u.error.value else t.error)
    ensures r.endTime == (if u.endTime.Some? then u.endTime else t.endTime)
  {
    t.(status := if u.status.Some? then u.status.value else t.status,
       progress := if u.progress.Some? then u.progress.value else t.progress,
       result := if u.result.Some? then u.result.value else t.result,
       error := if u.error.Some? then u.error.value else t.error,
       endTime := if u.endTime.Some? then u.endTime else t.endTime)
  }

  /** Only `completed` and `failed` settle a wait; `stopped` does not. */
  predicate Settles(s: Status) {
    s == Completed || s == Failed
  }

  /** The outcome a settling task gives its waiters: its result, or its raw error. */
  function SettleWith(t: Task): Outcome
    requires Settles(t.status)
  {
    if t.status == Completed then Resolved(t.result) else Rejected(Raw(t.error))
  }

  /** One wait's `checkStatus` listener receiving a `taskUpdate` for `t`. */
  function Step(w: WaitState, t: Task): (r: WaitState)
    ensures w.Settled? ==> r == w
    ensures w.Waiting? && w.taskId == t.id && Settles(t.status) ==> r == Settled(SettleWith(t))
    ensures w.Waiting? && (w.taskId != t.id || !Settles(t.status)) ==> r == w
  {
    if w.Waiting? && w.taskId == t.id && Settles(t.status) then Settled(SettleWith(t)) else w
  }

  /** Every registered listener receiving one `taskUpdate`. */
  function Notify(waits: map<WaitId, WaitState>, t: Task): (r: map<WaitId, WaitState>)
    ensures r.Keys == waits.Keys
    ensures forall w :: w in waits ==> r[w] == Step(waits[w], t)
  {
    map w | w in waits :: Step(waits[w], t)
  }

  /** What `waitForTask` does before it registers anything. */
  function InitialWait(tasks: map<TaskId, Task>, id: TaskId): (r: WaitState)
    ensures id !in tasks ==> r == Settled(Rejected(ErrorObject("Task not found")))
    ensures id in tasks && Settles(tasks[id].status) ==> r == Settled(SettleWith(tasks[id]))
    ensures id in tasks && !Settles(tasks[id].status) ==> r == Waiting(id)
  {
    if id !in tasks then Settled(Rejected(ErrorObject("Task not found")))
    else if Settles(tasks[id].status) then Settled(SettleWith(tasks[id]))
    else Waiting(id)
  }

  /** One wait's state after a sequence of `taskUpdate` events, in order. */
  function Replay(w: WaitState, events: seq<Task>): WaitState
    decreases |events|
  {
    if |events| == 0 then w else Replay(Step(w, events[0]), events[1..])
  }

  /** The position of the first event that finishes task `id`, if there is one. */
  function FirstSettling(events: seq<Task>, id: TaskId): (k: Option<nat>)
    ensures k.Some? ==> k.value < |events| && events[k.value].id == id && Settles(events[k.value].status)
    ensures k.Some? ==> forall j :: 0 <= j < k.value ==> !(events[j].id == id && Settles(events[j].status))
    ensures k.None? ==> forall j :: 0 <= j < |events| ==> !(events[j].id == id && Settles(events[j].status))
  {
    if |events| == 0 then None
    else if events[0].id == id && Settles(events[0].status) then Some(0)
    else
      var k := FirstSettling(events[1..], id);
      if k.Some? then Some(k.value + 1) else None
  }

  /** A settled promise never changes again. */
  lemma {:induction false} ReplaySettled(o: Outcome, events: seq<Task>)
    ensures Replay(Settled(o), events) == Settled(o)
    decreases |events|
  {
    if |events| > 0 {
      ReplaySettled(o, events[1..]);
    }
  }

  /**
   * A wait on task `id` settles on the first event that completes or fails that
   * task, with that event's result or error; events for other tasks and
   * events with any other status (`stopped` included) leave it waiting.
   */
  lemma {:induction false} ReplayWaiting(id: TaskId, events: seq<Task>)
    ensures Replay(Waiting(id), events) ==
      match FirstSettling(events, id)
      case None => Waiting(id)
      case Some(k) => Settled(SettleWith(events[k]))
    decreases |events|
  {
    if |events| > 0 {
      if events[0].id == id && Settles(events[0].status) {
        ReplaySettled(SettleWith(events[0]), events[1..]);
      } else {
        ReplayWaiting(id, events[1..]);
        var k := FirstSettling(events[1..], id);
        if k.Some? {
          assert events[1..][k.value] == events[k.value + 1];
        }
      }
    }
  }

  /** The promise a timed-out wait settles with. */
  const TimedOut := Settled(Rejected(ErrorObject("Task timeout")))

  class TaskManager {
    var tasks: map<TaskId, Task>
    /** Waits by the order `waitForTask` was called. */
    var waits: map<WaitId, WaitState>
    /** Every `taskUpdate` event emitted so far, in order. */
    var emitted: seq<Task>
    var nextId: TaskId
    var nextWait: WaitId

    ghost predicate Valid()
      reads this
    {
      (forall id :: id in tasks ==> id < nextId && tasks[id].id == id) &&
      (forall w :: w in waits ==> w < nextWait)
    }

    constructor ()
      ensures Valid()
      ensures tasks == map[] && waits == map[] && emitted == []
    {
      tasks := map[];
      waits := map[];
      emitted := [];
      nextId := 0;
      nextWait := 0;
    }

    /** `createTask`: a fresh id whose task is pending with progress 0 and null result and error. */
    method CreateTask(kind: string, data: Json, now: int) returns (id: TaskId)
      requires Valid()
      modifies this
      ensures Valid()
      ensures id !in old(tasks)
      ensures tasks == old(tasks)[id := Task(id, kind, data, Pending, now, 0, JNull, JNull, None)]
      ensures waits == old(waits) && emitted == old(emitted) && nextWait == old(nextWait)
    {
      id := nextId;
      tasks := tasks[id := Task(id, kind, data, Pending, now, 0, JNull, JNull, None)];
      nextId := nextId + 1;
    }

    /**
     * `updateTask`: a known task takes every property of `u`, whatever its
     * status, and one `taskUpdate` carrying it reaches every listener; an
     * unknown id changes nothing.
     */
    method UpdateTask(id: TaskId, u: Update) returns (ok: bool)
      requires Valid()
      modifies this
      ensures Valid()
      ensures ok == (id in old(tasks))
      ensures ok ==> tasks == old(tasks)[id := Apply(old(tasks)[id], u)]
      ensures ok ==> emitted == old(emitted) + [tasks[id]] && waits == Notify(old(waits), tasks[id])
      ensures !ok ==> tasks == old(tasks) && emitted == old(emitted) && waits == old(waits)
      ensures nextId == old(nextId) && nextWait == old(nextWait)
    {
      if id in tasks {
        var t := Apply(tasks[id], u);
        tasks := tasks[id := t];
        emitted := emitted + [t];
        waits := Notify(waits, t);
        ok := true;
      } else {
        ok := false;
      }
    }

    /** `waitForTask`: a new wait, settled at once unless its task is still unfinished. */
    method WaitForTask(id: TaskId) returns (w: WaitId)
      requires Valid()
      modifies this
      ensures Valid()
      ensures w !in old(waits)
      ensures waits == old(waits)[w := InitialWait(tasks, id)]
      ensures tasks == old(tasks) && emitted == old(emitted) && nextId == old(nextId)
    {
      w := nextWait;
      waits := waits[w := InitialWait(tasks, id)];
      nextWait := nextWait + 1;
    }

    /**
     * The wait's timer firing: a wait still listening rejects with
     * `Task timeout`; a settled one cleared its timer, so nothing happens. No
     * task changes.
     */
    method Timeout(w: WaitId)
      requires Valid()
      modifies this
      ensures Valid()
      ensures w in old(waits) && old(waits)[w].Waiting? ==> waits == old(waits)[w := TimedOut]
      ensures !(w in old(waits) && old(waits)[w].Waiting?) ==> waits == old(waits)
      ensures tasks == old(tasks) && emitted == old(emitted)
      ensures nextId == old(nextId) && nextWait == old(nextWait)
    {
      if w in waits && waits[w].Waiting? {
        waits := waits[w := TimedOut];
      }
    }

    /** `getTaskStatus`: the stored task, or nothing for an unknown id. */
    function GetTaskStatus(id: TaskId): (r: Option<Task>)
      reads this
      ensures r.Some? <==> id in tasks
      ensures r.Some? ==> r.value == tasks[id]
    {
      if id in tasks then Some(tasks[id]) else None
    }
  }
}
