/**
 * The task routes of `index.js` and its `getTaskLogs` helper. Each route is
 * modelled as the mapping from what the task supervisor answers to the HTTP
 * response the route sends: `POST /api/tasks/execute` starts a `command`
 * task, `GET /api/tasks/:taskId/status` reports a task, `GET
 * /api/tasks/:taskId/wait` reports how a wait settled, and `POST
 * /api/tasks/:taskId/stop` stops a task's worker.
 *
 * Task ids are the supervisor's naturals, written in decimal where the
 * response carries them as text.
 */
module TaskApi {
  import opened Wrappers
  import opened Strings
  import opened JsonValue
  import opened Http
  import opened Registry
  import opened Dispatcher
  import EmulatorService

  // ---------------------------------------------------------------------------
  // getTaskLogs

  /**
   * `getTaskLogs`, given the log file's content (`None` when the file does
   * not exist): the lines with a non-space character, untrimmed, in order.
   */
  function GetTaskLogs(content: Option<string>): (logs: seq<string>)
    ensures content.None? ==> logs == []
    ensures content.Some? ==> forall l :: l in logs <==> l in Split(content.value, '\n') && JsTrim(l) != ""
    ensures content.Some? ==> |logs| <= |Split(content.value, '\n')|
  {
    match content
    case None => []
    case Some(text) => EmulatorService.NonBlankLines(Split(text, '\n'))
  }

  /** A log file of one line holds that line as its one entry, unless the line is blank. */
  lemma TaskLogsOneLine(line: string)
    requires '\n' !in line
    ensures GetTaskLogs(Some(line)) == if JsTrim(line) != "" then [line] else []
  {
    EmulatorService.NonBlankLinesOne(line);
  }

  /**
   * Two runs of lines written one after the other read back as the entries of
   * the first run followed by those of the second: the entries keep the
   * file's order and its repeated lines. Since every text is the join of its
   * lines, this and `TaskLogsOneLine` determine `getTaskLogs` completely.
   */
  lemma TaskLogsAppend(a: seq<string>, b: seq<string>)
    requires |a| > 0 && |b| > 0
    requires forall i :: 0 <= i < |a| ==> '\n' !in a[i]
    requires forall i :: 0 <= i < |b| ==> '\n' !in b[i]
    ensures GetTaskLogs(Some(Join(a + b, '\n'))) ==
      GetTaskLogs(Some(Join(a, '\n'))) + GetTaskLogs(Some(Join(b, '\n')))
  {
    assert forall i :: 0 <= i < |a + b| ==> '\n' !in (a + b)[i] by {
      forall i | 0 <= i < |a + b|
        ensures '\n' !in (a + b)[i]
      {
        if i < |a| {
          assert (a + b)[i] == a[i];
        } else {
          assert (a + b)[i] == b[i - |a|];
        }
      }
    }
    SplitJoin(a + b, '\n');
    SplitJoin(a, '\n');
    SplitJoin(b, '\n');
    EmulatorService.NonBlankLinesAppend(a, b);
  }

  /** The filter keeps a list of non-blank lines whole. */
  lemma {:induction false} NonBlankKeepsAll(lines: seq<string>)
    requires forall i :: 0 <= i < |lines| ==> JsTrim(lines[i]) != ""
    ensures EmulatorService.NonBlankLines(lines) == lines
  {
    if |lines| > 0 {
      NonBlankKeepsAll(lines[1..]);
      assert lines == [lines[0]] + lines[1..];
    }
  }

  /** A log written as non-blank lines joined by newlines reads back as those lines. */
  lemma LogsRoundTrip(lines: seq<string>)
    requires |lines| > 0
    requires forall i :: 0 <= i < |lines| ==> '\n' !in lines[i] && JsTrim(lines[i]) != ""
    ensures GetTaskLogs(Some(Join(lines, '\n'))) == lines
  {
    SplitJoin(lines, '\n');
    NonBlankKeepsAll(lines);
  }

  /** Blank lines, including the empty string after a final newline, are not logs. */
  lemma TrailingNewlineDropped(lines: seq<string>)
    requires |lines| > 0
    requires forall i :: 0 <= i < |lines| ==> '\n' !in lines[i] && JsTrim(lines[i]) != ""
    ensures GetTaskLogs(Some(Join(lines + [""], '\n'))) == lines
  {
    SplitJoin(lines + [""], '\n');
    NonBlankKeepsAll(lines);
    NonBlankAppendBlank(lines);
  }

  /** A single trailing empty line is filtered out. */
  lemma {:induction false} NonBlankAppendBlank(lines: seq<string>)
    requires forall i :: 0 <= i < |lines| ==> JsTrim(lines[i]) != ""
    ensures EmulatorService.NonBlankLines(lines + [""]) == lines
  {
    if |lines| == 0 {
      assert JsTrim("") == "";
    } else {
      assert (lines + [""])[1..] == lines[1..] + [""];
      NonBlankAppendBlank(lines[1..]);
      assert lines == [lines[0]] + lines[1..];
    }
  }

  // ---------------------------------------------------------------------------
  // POST /api/tasks/execute

  /** The path of the status route for a task. */
  function StatusEndpoint(id: TaskId): (path: string)
    ensures |path| > 18 && path[..11] == "/api/tasks/" && path[|path| - 7..] == "/status"
  {
    "/api/tasks/" + NatToString(id) + "/status"
  }

  /** Different tasks are given different status routes. */
  lemma StatusEndpointNamesTask(a: TaskId, b: TaskId)
    requires StatusEndpoint(a) == StatusEndpoint(b)
    ensures a == b
  {
    var p := "/api/tasks/";
    var sa, sb := NatToString(a), NatToString(b);
    assert StatusEndpoint(a) == p + (sa + "/status");
    assert StatusEndpoint(b) == p + (sb + "/status");
    assert sa + "/status" == (p + (sa + "/status"))[|p|..];
    assert sb + "/status" == (p + (sb + "/status"))[|p|..];
    DigitsBeforeSlash(sa, sb);
    NatToStringInjective(a, b);
  }

  /** Two digit strings followed by the same suffix starting with `/` are equal. */
  lemma DigitsBeforeSlash(sa: string, sb: string)
    requires AllDigits(sa) && AllDigits(sb) && sa + "/status" == sb + "/status"
    ensures sa == sb
  {
    assert '/' !in sa && '/' !in sb;
    assert sa + "/status" == sa + ['/'] + "status";
    assert sb + "/status" == sb + ['/'] + "status";
    IndexOfAfterPiece(sa, '/', "status");
    IndexOfAfterPiece(sb, '/', "status");
    assert sa == (sa + "/status")[..|sa|];
    assert sb == (sb + "/status")[..|sb|];
  }

  /** The body of the `accepted` answer. */
  function AcceptedBody(id: TaskId): Json {
    JObj([
      Field("taskId", JStr(NatToString(id))),
      Field("status", JStr("accepted")),
      Field("message", JStr("Task started successfully")),
      Field("statusEndpoint", JStr(StatusEndpoint(id)))])
  }

  /**
   * The execute route: the body's `command` is handed to a new `command`
   * task, and the answer names the task and its status route. The body's
   * `timeout` plays no part.
   */
  method ExecuteRoute(worker: BackgroundWorker, command: Json, now: int) returns (id: TaskId, reply: Response)
    requires worker.Valid()
    modifies worker, worker.manager
    ensures worker.Valid()
    ensures id !in old(worker.manager.tasks)
    ensures worker.manager.tasks ==
      old(worker.manager.tasks)[id := Task(id, "command", JObj([Field("command", command)]), Pending, now, 0, JNull, JNull, None)]
    ensures worker.manager.waits == old(worker.manager.waits) && worker.manager.emitted == old(worker.manager.emitted)
    ensures worker.manager.nextWait == old(worker.manager.nextWait)
    ensures id !in old(worker.workers) && worker.workers == old(worker.workers)[id := old(worker.nextHandle)]
    ensures worker.launched == old(worker.launched) + [Launch(old(worker.nextHandle), ScriptFor("command"), id, JObj([Field("command", command)]))]
    ensures worker.terminated == old(worker.terminated) && worker.nextHandle == old(worker.nextHandle) + 1
    ensures reply == Response(200, AcceptedBody(id))
  {
    id := worker.ExecuteTask("command", JObj([Field("command", command)]), now);
    reply := Response(200, AcceptedBody(id));
  }

  // ---------------------------------------------------------------------------
  // GET /api/tasks/:taskId/status

  /** The status strings the supervisor stores. */
  function StatusName(s: Status): string {
    match s
    case Pending => "pending"
    case Running => "running"
    case Completed => "completed"
    case Failed => "failed"
    case Stopped => "stopped"
  }

  /**
   * The seven task properties the status route copies. `JSON.stringify`
   * leaves out `endTime` while it is still `undefined`.
   */
  function StatusBody(t: Task): (body: Json)
    ensures body.JObj?
    ensures Keys(body.fields) ==
      ["taskId", "status", "progress", "result", "error", "startTime"] + if t.endTime.Some? then ["endTime"] else []
  {
    JObj(BaseFields(t) + if t.endTime.Some? then [Field("endTime", JNum(t.endTime.value))] else [])
  }

  /** The six properties the status body always carries, in order. */
  function BaseFields(t: Task): seq<Field> {
    [Field("taskId", JStr(NatToString(t.id))),
     Field("status", JStr(StatusName(t.status))),
     Field("progress", JNum(t.progress)),
     Field("result", t.result),
     Field("error", t.error),
     Field("startTime", JNum(t.startTime))]
  }

  /**
   * The status body starts with the six base properties, so each reads back
   * as the task has it, and it has an `endTime` property exactly when the
   * task has an end time.
   */
  lemma StatusBodyReadsBack(t: Task)
    ensures StatusBody(t).JObj? && StartsWithBase(t, StatusBody(t).fields)
    ensures var b := StatusBody(t).fields;
      match t.endTime
      case None => Get(b, "endTime") == None
      case Some(e) => Get(b, "endTime") == Some(JNum(e))
  {
    var b := StatusBody(t).fields;
    if t.endTime.Some? {
      assert b[6] == Field("endTime", JNum(t.endTime.value));
      assert forall j :: 0 <= j < 6 ==> b[j].key != "endTime";
      GetAt(b, 6);
    } else {
      assert b == BaseFields(t);
    }
  }

  /** A body whose first properties are the base fields. */
  predicate StartsWithBase(t: Task, b: seq<Field>) {
    |b| >= 6 &&
    b[0] == Field("taskId", JStr(NatToString(t.id))) &&
    b[1] == Field("status", JStr(StatusName(t.status))) &&
    b[2] == Field("progress", JNum(t.progress)) &&
    b[3] == Field("result", t.result) &&
    b[4] == Field("error", t.error) &&
    b[5] == Field("startTime", JNum(t.startTime))
  }

  /** The task id and status read back from a body that starts with the base properties. */
  lemma ReadIdAndStatus(t: Task, b: seq<Field>)
    requires StartsWithBase(t, b)
    ensures Get(b, "taskId") == Some(JStr(NatToString(t.id)))
    ensures Get(b, "status") == Some(JStr(StatusName(t.status)))
  {
    GetAt(b, 1);
  }

  /** The progress and result read back from a body that starts with the base properties. */
  lemma ReadProgressAndResult(t: Task, b: seq<Field>)
    requires StartsWithBase(t, b)
    ensures Get(b, "progress") == Some(JNum(t.progress))
    ensures Get(b, "result") == Some(t.result)
  {
    GetAt(b, 2);
    GetAt(b, 3);
  }

  /** The error and start time read back from a body that starts with the base properties. */
  lemma ReadErrorAndStart(t: Task, b: seq<Field>)
    requires StartsWithBase(t, b)
    ensures Get(b, "error") == Some(t.error)
    ensures Get(b, "startTime") == Some(JNum(t.startTime))
  {
    assert Get(b, "error") == Some(t.error) by {
      assert forall j :: 0 <= j < 4 ==> |b[j].key| != |"error"|;
      GetAt(b, 4);
    }
    assert Get(b, "startTime") == Some(JNum(t.startTime)) by {
      assert forall j :: 0 <= j < 5 ==> |b[j].key| != |"startTime"|;
      GetAt(b, 5);
    }
  }

  /** The status route for what `getTaskStatus` found: a 404 exactly when there is no task. */
  function StatusReply(task: Option<Task>): (r: Response)
    ensures r.Response?
    ensures r.status == 404 <==> task.None?
    ensures task.None? ==> r.body == ErrorBody("Task not found")
    ensures task.Some? ==> r == Response(200, StatusBody(task.value))
  {
    match task
    case None => Response(404, ErrorBody("Task not found"))
    case Some(t) => Response(200, StatusBody(t))
  }

  /** The status route on the supervisor's current table. */
  function StatusRoute(manager: TaskManager, id: TaskId): (r: Response)
    reads manager
    ensures r.Response? && (r.status == 404 <==> id !in manager.tasks)
  {
    StatusReply(manager.GetTaskStatus(id))
  }

  // ---------------------------------------------------------------------------
  // GET /api/tasks/:taskId/wait

  /** The 202 body for a wait that timed out. */
  const PendingBody := JObj([Field("status", JStr("pending")), Field("message", JStr("Task still processing"))])

  /**
   * `error.message` read off a raw rejection value: the `message` property of
   * an object, `undefined` (`None`) for anything else. Reading it off `null`
   * throws, which `Err` marks.
   */
  function MessageProperty(v: Json): Result<Option<Json>, ()> {
    match v
    case JNull => Err(())
    case JObj(fields) => Ok(Get(fields, "message"))
    case _ => Ok(None)
  }

  /** `{ error: m }` when `m` is defined; `JSON.stringify` drops an `undefined` property. */
  function ErrorPropertyBody(m: Option<Json>): Json {
    match m
    case None => JObj([])
    case Some(v) => JObj([Field("error", v)])
  }

  /**
   * The wait route as written. A resolved wait sends the task's result. A
   * rejection whose `message` is `Task timeout` is a 202 `pending`; any other
   * is a 500 carrying `message`. A failed task rejects with its raw `error`
   * value, whose `message` is undefined when that value is a string; when it
   * is `null` the `catch` block itself throws and nothing is sent.
   */
  function WaitReply(o: Outcome): (r: Response)
    ensures o.Resolved? ==> r == Response(200, o.value)
    ensures o.Rejected? && o.reason.ErrorObject? ==>
      r == (if o.reason.message == "Task timeout" then Response(202, PendingBody)
            else Response(500, ErrorBody(o.reason.message)))
    ensures r.NoResponse? <==> o == Rejected(Raw(JNull))
    ensures r.Response? && r.status == 202 ==> o.Rejected?
  {
    match o
    case Resolved(v) => Response(200, v)
    case Rejected(ErrorObject(message)) =>
      if message == "Task timeout" then Response(202, PendingBody) else Response(500, ErrorBody(message))
    case Rejected(Raw(v)) =>
      match MessageProperty(v)
      case Err(_) => NoResponse
      case Ok(m) =>
        if m == Some(JStr("Task timeout")) then Response(202, PendingBody) else Response(500, ErrorPropertyBody(m))
  }

  /** The wait that timed out, and a wait on an unknown task, as the route reports them. */
  lemma WaitTimeoutAndMissing()
    ensures WaitReply(TimedOut.outcome) == Response(202, PendingBody)
    ensures WaitReply(InitialWait(map[], 0).outcome) == Response(500, ErrorBody("Task not found"))
  {
  }

  /**
   * A task that failed with an error string, which is what the dispatcher
   * stores for a worker error, is answered with a 500 whose body is `{}`: the
   * error text is lost.
   */
  lemma FailedTaskErrorLost(t: Task)
    requires t.status == Failed && t.error.JStr?
    ensures WaitReply(SettleWith(t)) == Response(500, JObj([]))
  {
  }

  /** The wait route with the task's error reported as it is stored. */
  function WaitReplyFixed(o: Outcome): (r: Response)
    ensures r.Response?
    ensures o.Rejected? && o.reason.Raw? ==> r == Response(500, JObj([Field("error", o.reason.value)]))
    ensures !(o.Rejected? && o.reason.Raw?) ==> r == WaitReply(o)
  {
    match o
    case Rejected(Raw(v)) => Response(500, JObj([Field("error", v)]))
    case _ => WaitReply(o)
  }

  /** With the fix, a failed task's error reaches the client, whatever its value. */
  lemma FailedTaskErrorReported(t: Task)
    requires t.status == Failed
    ensures WaitReplyFixed(SettleWith(t)) == Response(500, JObj([Field("error", t.error)]))
    ensures t.error.JStr? ==> WaitReplyFixed(SettleWith(t)) == Response(500, ErrorBody(t.error.s))
  {
  }

  /** With the fix, a completed task is still answered with its result. */
  lemma CompletedTaskResult(t: Task)
    requires t.status == Completed
    ensures WaitReplyFixed(SettleWith(t)) == Response(200, t.result)
  {
  }

  // ---------------------------------------------------------------------------
  // POST /api/tasks/:taskId/stop

  function MessageBody(message: string): Json {
    JObj([Field("message", JStr(message))])
  }

  /**
   * The stop route: a task with a live worker is stopped and the answer is a
   * success message; any other id is a 404. Either way no worker is left for
   * the task, so stopping it again is a 404.
   */
  method StopRoute(worker: BackgroundWorker, id: TaskId, now: int) returns (reply: Response)
    requires worker.Valid()
    modifies worker, worker.manager
    ensures worker.Valid()
    ensures id in old(worker.workers) ==> reply == Response(200, MessageBody("Task stopped successfully"))
    ensures id !in old(worker.workers) ==> reply == Response(404, ErrorBody("Task not found or already completed"))
    ensures id in old(worker.workers) ==>
      worker.manager.tasks == old(worker.manager.tasks)[id := Apply(old(worker.manager.tasks)[id], StopUpdate(now))]
    ensures id in old(worker.workers) ==>
      worker.manager.emitted == old(worker.manager.emitted) + [worker.manager.tasks[id]] &&
      worker.manager.waits == Notify(old(worker.manager.waits), worker.manager.tasks[id])
    ensures id !in old(worker.workers) ==> worker.manager.tasks == old(worker.manager.tasks)
    ensures id !in old(worker.workers) ==>
      worker.manager.emitted == old(worker.manager.emitted) && worker.manager.waits == old(worker.manager.waits)
    ensures worker.workers == old(worker.workers) - {id}
    ensures worker.manager.nextId == old(worker.manager.nextId) && worker.manager.nextWait == old(worker.manager.nextWait)
  {
    var stopped := worker.StopTask(id, now);
    if stopped {
      reply := Response(200, MessageBody("Task stopped successfully"));
    } else {
      reply := Response(404, ErrorBody("Task not found or already completed"));
    }
  }
}
