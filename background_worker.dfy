/**
 * The dispatcher of `services/BackgroundWorker.js`: it creates a task in the
 * registry, starts one worker thread for it, and turns the worker's messages
 * and error events into registry updates; `stopTask` terminates a live worker.
 *
 * Worker threads are not run here: starting one appends to `launched`,
 * terminating one appends to `terminated`, and what a worker does reaches the
 * dispatcher as `OnMessage`/`OnError` steps, each atomic on the event loop.
 */
module Dispatcher {
  import opened Wrappers
  import opened JsonValue
  import opened Registry
  import CommandWorker

  type WorkerHandle = nat

  /** A worker started on the script `script` with `workerData` `{taskId, taskData}`. */
  datatype Launch = Launch(handle: WorkerHandle, script: string, taskId: TaskId, taskData: Json)

  /** What a worker posts: `progress`, `complete`, or a message of any other type. */
  datatype WorkerMessage =
    | ProgressMsg(progress: int)
    | CompleteMsg(result: Json)
    | OtherMsg(kind: string)

  /** The registry update a message asks for; messages of other types ask for none. */
  function MessageUpdate(m: WorkerMessage, now: int): (r: Option<Update>)
    ensures m.OtherMsg? <==> r.None?
    ensures m.ProgressMsg? ==>
      r.Some? && r.value.status == Some(Running) && r.value.progress == Some(m.progress) &&
      r.value.result.None? && r.value.error.None? && r.value.endTime.None?
    ensures m.CompleteMsg? ==>
      r.Some? && r.value.status == Some(Completed) && r.value.result == Some(m.result) &&
      r.value.endTime == Some(now) && r.value.progress.None? && r.value.error.None?
  {
    match m
    case ProgressMsg(p) => Some(Update(Some(Running), Some(p), None, None, None))
    case CompleteMsg(res) => Some(Update(Some(Completed), None, Some(res), None, Some(now)))
    case OtherMsg(_) => None
  }

  /**
   * A message of the command worker as the dispatcher receives it. Its `catch`
   * posts `{type: 'error'}`, a type the dispatcher has no branch for, so that
   * message updates nothing and the task stays running.
   */
  function Received(p: CommandWorker.PostedMessage, now: int): (m: WorkerMessage)
    ensures p.Progress? ==> MessageUpdate(m, now) == Some(Update(Some(Running), Some(p.progress), None, None, None))
    ensures p.Complete? ==>
      MessageUpdate(m, now) == Some(Update(Some(Completed), None, Some(CommandWorker.ResultJson(p.result)), None, Some(now)))
    ensures p.ErrorPost? ==> MessageUpdate(m, now).None?
  {
    match p
    case Progress(n, _) => ProgressMsg(n)
    case Complete(r) => CompleteMsg(CommandWorker.ResultJson(r))
    case ErrorPost(_) => OtherMsg("error")
  }

  /** The update a worker `error` event asks for: failed, with the error's message and an end time. */
  function ErrorUpdate(message: string, now: int): (u: Update)
    ensures u.status == Some(Failed) && u.error == Some(JStr(message)) && u.endTime == Some(now)
    ensures u.progress.None? && u.result.None?
  {
    Update(Some(Failed), None, None, Some(JStr(message)), Some(now))
  }

  /** The update `stopTask` asks for: stopped, with an end time and nothing else. */
  function StopUpdate(now: int): (u: Update)
    ensures u.status == Some(Stopped) && u.endTime == Some(now)
    ensures u.progress.None? && u.result.None? && u.error.None?
  {
    Update(Some(Stopped), None, None, None, Some(now))
  }

  /**
   * The worker script name for a task type: `<type>Worker.js`. The source
   * joins it onto the `workers` directory with `path.join`; that join is not
   * modelled.
   */
  function ScriptFor(kind: string): (script: string)
    ensures |script| == |kind| + 9 && script[..|kind|] == kind && script[|kind|..] == "Worker.js"
  {
    kind + "Worker.js"
  }

  /**
   * Different task types give different script names. They need not give
   * different files: `path.join` normalises `.` and `..` segments, so
   * `command` and `./command` load the same script.
   */
  lemma ScriptForInjective(a: string, b: string)
    requires ScriptFor(a) == ScriptFor(b)
    ensures a == b
  {
    assert a == ScriptFor(a)[..|a|];
  }

  /**
   * A `complete` message resolves every wait still listening on its task
   * with the message's result, whatever state the task was in.
   */
  lemma CompleteResolvesWaiter(t: Task, res: Json, now: int)
    ensures Step(Waiting(t.id), Apply(t, MessageUpdate(CompleteMsg(res), now).value)) == Settled(Resolved(res))
  {
  }

  /** A worker `error` event rejects every wait still listening on its task with the raw message. */
  lemma ErrorRejectsWaiter(t: Task, message: string, now: int)
    ensures Step(Waiting(t.id), Apply(t, ErrorUpdate(message, now))) == Settled(Rejected(Raw(JStr(message))))
  {
  }

  /**
   * Neither a `progress` message nor `stopTask` settles a wait: a wait on a
   * stopped task goes on listening until its timer fires.
   */
  lemma ProgressAndStopLeaveWaiter(t: Task, p: int, now: int)
    ensures Step(Waiting(t.id), Apply(t, MessageUpdate(ProgressMsg(p), now).value)) == Waiting(t.id)
    ensures Step(Waiting(t.id), Apply(t, StopUpdate(now))) == Waiting(t.id)
  {
  }

  /**
   * A message that arrives after the task finished still applies: a late
   * `progress` message sets a completed, failed or stopped task back to running.
   */
  lemma LateProgressReopens(t: Task, p: int, now: int)
    requires Settles(t.status) || t.status == Stopped
    ensures MessageUpdate(ProgressMsg(p), now).Some?
    ensures Apply(t, MessageUpdate(ProgressMsg(p), now).value).status == Running
    ensures Apply(t, MessageUpdate(ProgressMsg(p), now).value).progress == p
  {
  }

  class BackgroundWorker {
    const manager: TaskManager
    /** Live workers by task id. */
    var workers: map<TaskId, WorkerHandle>
    var nextHandle: WorkerHandle
    /** Workers started, in order. */
    var launched: seq<Launch>
    /** Workers terminated by `stopTask`, in order. */
    var terminated: seq<WorkerHandle>

    /**
     * Every live worker belongs to a registered task that is still pending or
     * running, and no two tasks share a worker.
     */
    ghost predicate Valid()
      reads this, manager
    {
      manager.Valid() &&
      (forall id :: id in workers ==>
        id in manager.tasks && workers[id] < nextHandle &&
        (manager.tasks[id].status == Pending || manager.tasks[id].status == Running)) &&
      (forall a, b :: a in workers && b in workers && a != b ==> workers[a] != workers[b])
    }

    constructor (m: TaskManager)
      requires m.Valid()
      ensures Valid() && manager == m
      ensures workers == map[] && launched == [] && terminated == []
    {
      manager := m;
      workers := map[];
      nextHandle := 0;
      launched := [];
      terminated := [];
    }

    /** `executeTask`: one new task and one new worker registered under its id. */
    method ExecuteTask(kind: string, data: Json, now: int) returns (id: TaskId)
      requires Valid()
      modifies this, manager
      ensures Valid()
      ensures id !in old(manager.tasks)
      ensures manager.tasks == old(manager.tasks)[id := Task(id, kind, data, Pending, now, 0, JNull, JNull, None)]
      ensures manager.waits == old(manager.waits) && manager.emitted == old(manager.emitted)
      ensures id !in old(workers) && workers == old(workers)[id := old(nextHandle)]
      ensures launched == old(launched) + [Launch(old(nextHandle), ScriptFor(kind), id, data)]
      ensures terminated == old(terminated) && nextHandle == old(nextHandle) + 1
      ensures manager.nextWait == old(manager.nextWait)
    {
      id := manager.CreateTask(kind, data, now);
      var h := nextHandle;
      launched := launched + [Launch(h, ScriptFor(kind), id, data)];
      workers := workers[id := h];
      nextHandle := nextHandle + 1;
    }

    /**
     * The worker of task `id` posting `m`: `progress` and `complete` update the
     * task, `complete` also forgets the worker, and a message of any other
     * type changes nothing.
     */
    method OnMessage(id: TaskId, m: WorkerMessage, now: int)
      requires Valid()
      modifies this, manager
      ensures Valid()
      ensures m.OtherMsg? ==> manager.tasks == old(manager.tasks) && workers == old(workers)
      ensures m.OtherMsg? ==> manager.emitted == old(manager.emitted) && manager.waits == old(manager.waits)
      ensures !m.OtherMsg? && id in old(manager.tasks) ==>
        manager.tasks == old(manager.tasks)[id := Apply(old(manager.tasks)[id], MessageUpdate(m, now).value)]
      ensures !m.OtherMsg? && id !in old(manager.tasks) ==> manager.tasks == old(manager.tasks)
      ensures !m.OtherMsg? && id in old(manager.tasks) ==>
        manager.emitted == old(manager.emitted) + [manager.tasks[id]] &&
        manager.waits == Notify(old(manager.waits), manager.tasks[id])
      ensures !m.OtherMsg? && id !in old(manager.tasks) ==>
        manager.emitted == old(manager.emitted) && manager.waits == old(manager.waits)
      ensures m.ProgressMsg? ==> workers == old(workers)
      ensures m.CompleteMsg? ==> workers == old(workers) - {id}
      ensures launched == old(launched) && terminated == old(terminated) && nextHandle == old(nextHandle)
      ensures manager.nextId == old(manager.nextId) && manager.nextWait == old(manager.nextWait)
    {
      match m {
        case ProgressMsg(p) =>
          var _ := manager.UpdateTask(id, MessageUpdate(m, now).value);
        case CompleteMsg(res) =>
          var _ := manager.UpdateTask(id, MessageUpdate(m, now).value);
          workers := workers - {id};
        case OtherMsg(_) =>
      }
    }

    /** The worker of task `id` raising `error`: the task fails with its message and the worker is forgotten. */
    method OnError(id: TaskId, message: string, now: int)
      requires Valid()
      modifies this, manager
      ensures Valid()
      ensures id in old(manager.tasks) ==>
        manager.tasks == old(manager.tasks)[id := Apply(old(manager.tasks)[id], ErrorUpdate(message, now))]
      ensures id !in old(manager.tasks) ==> manager.tasks == old(manager.tasks)
      ensures id in old(manager.tasks) ==>
        manager.emitted == old(manager.emitted) + [manager.tasks[id]] &&
        manager.waits == Notify(old(manager.waits), manager.tasks[id])
      ensures id !in old(manager.tasks) ==>
        manager.emitted == old(manager.emitted) && manager.waits == old(manager.waits)
      ensures workers == old(workers) - {id}
      ensures launched == old(launched) && terminated == old(terminated) && nextHandle == old(nextHandle)
      ensures manager.nextId == old(manager.nextId) && manager.nextWait == old(manager.nextWait)
    {
      var _ := manager.UpdateTask(id, ErrorUpdate(message, now));
      workers := workers - {id};
    }

    /**
     * `stopTask`: a live worker is terminated and forgotten and its task marked
     * stopped; without a live worker nothing changes and the answer is false.
     */
    method StopTask(id: TaskId, now: int) returns (stopped: bool)
      requires Valid()
      modifies this, manager
      ensures Valid()
      ensures stopped == (id in old(workers))
      ensures stopped ==> terminated == old(terminated) + [old(workers)[id]] && workers == old(workers) - {id}
      ensures stopped ==> manager.tasks == old(manager.tasks)[id := Apply(old(manager.tasks)[id], StopUpdate(now))]
      ensures stopped ==>
        manager.emitted == old(manager.emitted) + [manager.tasks[id]] &&
        manager.waits == Notify(old(manager.waits), manager.tasks[id])
      ensures !stopped ==> terminated == old(terminated) && workers == old(workers)
      ensures !stopped ==> manager.tasks == old(manager.tasks) && manager.waits == old(manager.waits)
      ensures !stopped ==> manager.emitted == old(manager.emitted)
      ensures launched == old(launched) && nextHandle == old(nextHandle)
      ensures manager.nextId == old(manager.nextId) && manager.nextWait == old(manager.nextWait)
    {
      if id in workers {
        terminated := terminated + [workers[id]];
        workers := workers - {id};
        var _ := manager.UpdateTask(id, StopUpdate(now));
        stopped := true;
      } else {
        stopped := false;
      }
    }
  }
}
