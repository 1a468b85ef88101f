/**
 * The ADB task table of `proxy/handlers/adb_handler.py`: commands become
 * argument vectors, each spawned process is registered under a fresh task id
 * with its collected output, and the status, stop and cleanup calls read and
 * change that table. `check_device_status` parses the `adb devices` listing.
 *
 * Processes are not run here. A spawned process is known only by what
 * `poll()` would answer: still running, or exited with a code. What `Popen`
 * and `communicate` produce is passed in, and a process exiting on its own is
 * the `ProcessExited` step.
 */
module ProxyAdb {
  import opened Wrappers
  import opened JsonValue
  import opened Strings
  import opened DeviceListing

  type TaskId = nat

  /** `ENABLE_BACKGROUND_TASKS` in the proxy settings. */
  const EnableBackgroundTasks := true

  /** The code `poll()` reports for a process ended by `kill()` (SIGKILL on POSIX). */
  const KilledCode := -9

  /**
   * The argument vector: the ADB binary, `-s <serial>` when a non-empty serial
   * is given, then the whitespace-separated words of the command.
   */
  function CommandVector(adbPath: string, command: string, serial: Option<string>): (v: seq<string>)
    ensures var head := if serial.Some? && serial.value != "" then [adbPath, "-s", serial.value] else [adbPath];
      |v| >= |head| && v[..|head|] == head && v[|head|..] == PySplit(command)
  {
    if serial.Some? && serial.value != "" then [adbPath, "-s", serial.value] + PySplit(command)
    else [adbPath] + PySplit(command)
  }

  /** The command words carry every non-space character of the command, in order, and nothing else. */
  lemma CommandWordsKeepText(adbPath: string, command: string, serial: Option<string>)
    ensures var v := CommandVector(adbPath, command, serial);
      var k := if serial.Some? && serial.value != "" then 3 else 1;
      Concat(v[k..]) == RemovePySpace(command) && forall i :: k <= i < |v| ==> |v[i]| > 0
  {
    PySplitKeepsNonSpace(command);
  }

  /** What `poll()` answers for a registered process. */
  datatype ProcState = Running | Exited(code: int)

  /** What `communicate(timeout=ADB_TIMEOUT)` gives in the foreground. */
  datatype Communication = Finished(stdout: string, stderr: string, exitCode: int) | TimedOut

  /** What `Popen` does: raise, or start a process. */
  datatype Spawn = SpawnRaised(message: string) | Spawned(communication: Communication)

  /** The dictionary `execute_command` returns next to the task id. */
  datatype ExecReply =
    | StartedReply(taskId: TaskId)
    | CompletedReply(output: string, exitCode: int)
    | ErrorReply(error: string, exitCode: int)

  /** The dictionary `get_task_status` returns. */
  datatype StatusReply =
    | NotFoundReply
    | RunningReply(output: string)
    | FinishedReply(status: string, output: string, exitCode: int)

  /** The dictionary `stop_task` returns. */
  datatype StopReply = StoppedReply | StopErrorReply(error: string)

  /** Python's `a or b` on strings. */
  function OrString(a: string, b: string): string {
    if a != "" then a else b
  }

  /** The foreground result for a process that finished within the timeout. */
  function FinishedReplyOf(stdout: string, stderr: string, exitCode: int): (r: ExecReply)
    ensures exitCode == 0 <==> r.CompletedReply?
    ensures r.CompletedReply? ==> r.output == stdout && r.exitCode == 0
    ensures r.ErrorReply? ==> r.exitCode == exitCode && r.error == (if stderr != "" then stderr else stdout)
  {
    if exitCode == 0 then CompletedReply(stdout, exitCode) else ErrorReply(OrString(stderr, stdout), exitCode)
  }

  /** The status of a registered task, from its poll result. */
  function StatusOf(state: ProcState, output: string): (r: StatusReply)
    ensures state.Running? <==> r.RunningReply?
    ensures r.RunningReply? ==> r.output == output
    ensures r.FinishedReply? ==> r.output == output && r.exitCode == state.code
    ensures r.FinishedReply? ==> (r.status == "completed" <==> state.code == 0)
    ensures r.FinishedReply? ==> (r.status == "error" <==> state.code != 0)
    ensures !r.NotFoundReply?
  {
    match state
    case Running => RunningReply(output)
    case Exited(code) => FinishedReply(if code == 0 then "completed" else "error", output, code)
  }

  class AdbHandler {
    const adbPath: string
    /** `running_tasks`: the process of each task, by its poll result. */
    var runningTasks: map<TaskId, ProcState>
    /** `task_outputs`. */
    var taskOutputs: map<TaskId, string>
    /** `task_threads`: the monitor thread of each background task. */
    var taskThreads: map<TaskId, nat>
    /** The argument vectors handed to `Popen`, in order. */
    var spawned: seq<seq<string>>
    var nextId: TaskId
    var nextThread: nat

    /** Every registered task has an output entry, and only registered tasks have monitor threads. */
    ghost predicate Valid()
      reads this
    {
      taskOutputs.Keys == runningTasks.Keys && taskThreads.Keys <= runningTasks.Keys &&
      (forall id :: id in runningTasks ==> id < nextId)
    }

    constructor (adb: string)
      ensures Valid() && adbPath == adb
      ensures runningTasks == map[] && taskOutputs == map[] && taskThreads == map[] && spawned == []
    {
      adbPath := adb;
      runningTasks, taskOutputs, taskThreads := map[], map[], map[];
      spawned := [];
      nextId, nextThread := 0, 0;
    }

    /**
     * `execute_command`. A spawn that raises registers nothing and answers
     * with its message and exit -1. Otherwise the task is registered with
     * output `""`; in the background it is left running with a monitor
     * thread; in the foreground it has finished (exit 0 gives `completed` with
     * the standard output, any other code an error carrying `stderr or
     * stdout`, which is also stored) or timed out and been killed.
     */
    method ExecuteCommand(command: string, serial: Option<string>, background: bool, spawn: Spawn)
      returns (id: TaskId, reply: ExecReply)
      requires Valid()
      modifies this
      ensures Valid()
      ensures id !in old(runningTasks)
      ensures spawned == old(spawned) + [CommandVector(adbPath, command, serial)]
      ensures spawn.SpawnRaised? ==> reply == ErrorReply(spawn.message, -1)
      ensures spawn.SpawnRaised? ==>
        runningTasks == old(runningTasks) && taskOutputs == old(taskOutputs) && taskThreads == old(taskThreads)
      ensures spawn.Spawned? && background && EnableBackgroundTasks ==>
        reply == StartedReply(id) && runningTasks == old(runningTasks)[id := Running] &&
        taskOutputs == old(taskOutputs)[id := ""] && id in taskThreads &&
        taskThreads.Keys == old(taskThreads).Keys + {id}
      ensures spawn.Spawned? && !(background && EnableBackgroundTasks) && spawn.communication.Finished? ==>
        var c := spawn.communication;
        reply == FinishedReplyOf(c.stdout, c.stderr, c.exitCode) &&
        runningTasks == old(runningTasks)[id := Exited(c.exitCode)] &&
        taskOutputs == old(taskOutputs)[id := if c.exitCode == 0 then c.stdout else OrString(c.stderr, c.stdout)] &&
        taskThreads == old(taskThreads)
      ensures spawn.Spawned? && !(background && EnableBackgroundTasks) && spawn.communication.TimedOut? ==>
        reply == ErrorReply("Command timed out", -1) &&
        runningTasks == old(runningTasks)[id := Exited(KilledCode)] &&
        taskOutputs == old(taskOutputs)[id := ""] && taskThreads == old(taskThreads)
    {
      id := nextId;
      nextId := nextId + 1;
      var fullCommand := CommandVector(adbPath, command, serial);
      spawned := spawned + [fullCommand];
      match spawn {
        case SpawnRaised(message) =>
          reply := ErrorReply(message, -1);
        case Spawned(communication) =>
          if background && EnableBackgroundTasks {
            runningTasks := runningTasks[id := Running];
            taskOutputs := taskOutputs[id := ""];
            taskThreads := taskThreads[id := nextThread];
            nextThread := nextThread + 1;
            reply := StartedReply(id);
          } else {
            // The task is registered running with output "" and then, once
            // `communicate` returns, updated in place: only the final entry shows.
            var state: ProcState, output: string;
            match communication {
              case Finished(stdout, stderr, exitCode) =>
                state := Exited(exitCode);
                output := if exitCode == 0 then stdout else OrString(stderr, stdout);
                reply := FinishedReplyOf(stdout, stderr, exitCode);
              case TimedOut =>
                state, output := Exited(KilledCode), "";
                reply := ErrorReply("Command timed out", -1);
            }
            runningTasks := runningTasks[id := state];
            taskOutputs := taskOutputs[id := output];
          }
      }
    }

    /** A background process exiting on its own with `code`. */
    method ProcessExited(id: TaskId, code: int)
      requires Valid()
      modifies this
      ensures Valid()
      ensures id in old(runningTasks) && old(runningTasks)[id].Running? ==> runningTasks == old(runningTasks)[id := Exited(code)]
      ensures !(id in old(runningTasks) && old(runningTasks)[id].Running?) ==> runningTasks == old(runningTasks)
      ensures taskOutputs == old(taskOutputs) && taskThreads == old(taskThreads) && spawned == old(spawned)
    {
      if id in runningTasks && runningTasks[id].Running? {
        runningTasks := runningTasks[id := Exited(code)];
      }
    }

    /**
     * `get_task_status`: `not_found` for an unregistered id; otherwise running
     * while the process runs, and after it exited `completed` exactly when the
     * code is 0, else `error`, always with the stored output.
     */
    function GetTaskStatus(id: TaskId): (r: StatusReply)
      reads this
      requires Valid()
      ensures r.NotFoundReply? <==> id !in runningTasks
      ensures id in runningTasks ==> r == StatusOf(runningTasks[id], taskOutputs[id])
    {
      if id !in runningTasks then NotFoundReply else StatusOf(runningTasks[id], taskOutputs[id])
    }

    /**
     * `stop_task`: `Task not found` for an unregistered id; a running process
     * is terminated (killed if it does not end within 5 seconds), after which
     * `poll()` answers `signalCode`; an exited one is reported as
     * `Task already completed`. No entry is ever removed.
     */
    method StopTask(id: TaskId, signalCode: int) returns (reply: StopReply)
      requires Valid()
      modifies this
      ensures Valid()
      ensures id !in old(runningTasks) ==> reply == StopErrorReply("Task not found") && runningTasks == old(runningTasks)
      ensures id in old(runningTasks) && old(runningTasks)[id].Running? ==>
        reply == StoppedReply && runningTasks == old(runningTasks)[id := Exited(signalCode)]
      ensures id in old(runningTasks) && old(runningTasks)[id].Exited? ==>
        reply == StopErrorReply("Task already completed") && runningTasks == old(runningTasks)
      ensures runningTasks.Keys == old(runningTasks).Keys
      ensures taskOutputs == old(taskOutputs) && taskThreads == old(taskThreads) && spawned == old(spawned)
    {
      if id !in runningTasks {
        return StopErrorReply("Task not found");
      }
      if runningTasks[id].Running? {
        runningTasks := runningTasks[id := Exited(signalCode)];
        reply := StoppedReply;
      } else {
        reply := StopErrorReply("Task already completed");
      }
    }

    /** `cleanup_task`: the id leaves all three tables, whatever it was; other ids are untouched. */
    method CleanupTask(id: TaskId)
      requires Valid()
      modifies this
      ensures Valid()
      ensures runningTasks == old(runningTasks) - {id}
      ensures taskOutputs == old(taskOutputs) - {id}
      ensures taskThreads == old(taskThreads) - {id}
      ensures id !in runningTasks && id !in taskOutputs && id !in taskThreads
      ensures id !in old(runningTasks) && id !in old(taskOutputs) && id !in old(taskThreads) ==>
        runningTasks == old(runningTasks) && taskOutputs == old(taskOutputs) && taskThreads == old(taskThreads)
      ensures spawned == old(spawned) && nextId == old(nextId)
    {
      if id in runningTasks {
        runningTasks := runningTasks - {id};
      }
      if id in taskOutputs {
        taskOutputs := taskOutputs - {id};
      }
      if id in taskThreads {
        taskThreads := taskThreads - {id};
      }
    }
  }

  // ---------------------------------------------------------------------------
  // check_device_status

  /** What `subprocess.run([ADB_PATH, 'devices'], check=True)` gives. */
  datatype DevicesRun = Listed(stdout: string) | CalledProcessError(stderr: string) | Raised(message: string)

  datatype DeviceReply =
    | DevicesReply(devices: seq<Field>)
    | TargetReply(deviceStatus: string, allDevices: seq<Field>)
    | DeviceErrorReply(error: string)

  /** A line the loop accepts: blank, or exactly two words. */
  predicate GoodLine(line: string) {
    PyStrip(line) == "" || |PySplit(line)| == 2
  }

  /** Line `i` is the first line the loop does not accept. */
  predicate FirstBadLine(lines: seq<string>, i: nat)
    requires i < |lines|
  {
    !GoodLine(lines[i]) && forall j :: 0 <= j < i ==> GoodLine(lines[j])
  }

  /**
   * The `devices` dictionary after the lines in `lines`: blank lines are
   * skipped, every other line must split into exactly two words, the serial
   * and its status, and a later line for the same serial overwrites the
   * status in place. The error is the word count of the first bad line.
   */
  function ParseDevices(lines: seq<string>): (r: Result<seq<Field>, nat>)
    ensures r.Ok? <==> forall i :: 0 <= i < |lines| ==> GoodLine(lines[i])
    ensures r.Err? ==> exists i :: 0 <= i < |lines| && FirstBadLine(lines, i) && r.error == |PySplit(lines[i])|
    ensures r.Err? ==> r.error != 2
  {
    if |lines| == 0 then Ok([])
    else
      var init := lines[..|lines| - 1];
      assert forall i :: 0 <= i < |init| ==> init[i] == lines[i];
      var before := ParseDevices(init);
      var line := lines[|lines| - 1];
      if before.Err? then before
      else if PyStrip(line) == "" then before
      else
        var words := PySplit(line);
        if |words| != 2 then Err(|words|)
        else Ok(Put(before.value, words[0], JStr(words[1])))
  }

  /** The status the last non-blank line for `serial` gives it, if any. */
  function LastStatus(lines: seq<string>, serial: string): Option<string> {
    if |lines| == 0 then None
    else
      var line := lines[|lines| - 1];
      var words := PySplit(line);
      if PyStrip(line) != "" && |words| == 2 && words[0] == serial then Some(words[1])
      else LastStatus(lines[..|lines| - 1], serial)
  }

  /** When the listing parses, each serial maps to the status of its last line. */
  lemma {:induction false} ParseDevicesLookup(lines: seq<string>, serial: string)
    requires ParseDevices(lines).Ok?
    ensures Get(ParseDevices(lines).value, serial) ==
      match LastStatus(lines, serial)
      case None => None
      case Some(s) => Some(JStr(s))
  {
    if |lines| > 0 {
      var init := lines[..|lines| - 1];
      var line := lines[|lines| - 1];
      ParseDevicesLookup(init, serial);
      if PyStrip(line) != "" {
        var words := PySplit(line);
        GetPut(ParseDevices(init).value, words[0], JStr(words[1]), serial);
      }
    }
  }

  /**
   * `check_device_status`: the parsed devices, with the status of `serial`
   * (`not_found` when absent) if a non-empty serial is given; a failing
   * command or a malformed line turns into the error message.
   */
  method CheckDeviceStatus(serial: Option<string>, run: DevicesRun) returns (reply: DeviceReply)
    ensures run.CalledProcessError? ==> reply == DeviceErrorReply("Error checking device status: " + run.stderr)
    ensures run.Raised? ==> reply == DeviceErrorReply("Unexpected error: " + run.message)
    ensures run.Listed? && ParseDevices(DeviceLines(run.stdout)).Err? ==>
      reply == DeviceErrorReply("Unexpected error: " + UnpackMessage(ParseDevices(DeviceLines(run.stdout)).error))
    ensures run.Listed? && ParseDevices(DeviceLines(run.stdout)).Ok? ==>
      var devices := ParseDevices(DeviceLines(run.stdout)).value;
      if serial.Some? && serial.value != "" then
        var st := Get(devices, serial.value);
        reply == TargetReply(if st.Some? && st.value.JStr? then st.value.s else "not_found", devices)
      else reply == DevicesReply(devices)
  {
    match run {
      case CalledProcessError(stderr) =>
        return DeviceErrorReply("Error checking device status: " + stderr);
      case Raised(message) =>
        return DeviceErrorReply("Unexpected error: " + message);
      case Listed(stdout) =>
        var lines := DeviceLines(stdout);
        var devices: seq<Field> := [];
        for i := 0 to |lines|
          invariant ParseDevices(lines[..i]) == Ok(devices)
        {
          ParseStep(lines, i, devices);
          var line := lines[i];
          if PyStrip(line) != "" {
            var words := PySplit(line);
            if |words| != 2 {
              ParseErrorStays(lines, i + 1);
              assert lines[..|lines|] == lines;
              return DeviceErrorReply("Unexpected error: " + UnpackMessage(|words|));
            }
            devices := Put(devices, words[0], JStr(words[1]));
          }
        }
        assert lines[..|lines|] == lines;
        if serial.Some? && serial.value != "" {
          var st := Get(devices, serial.value);
          reply := TargetReply(if st.Some? && st.value.JStr? then st.value.s else "not_found", devices);
        } else {
          reply := DevicesReply(devices);
        }
    }
  }

  /** One more line of the listing: skipped when blank, rejected unless it has two words, else recorded. */
  lemma ParseStep(lines: seq<string>, i: nat, devices: seq<Field>)
    requires i < |lines| && ParseDevices(lines[..i]) == Ok(devices)
    ensures PyStrip(lines[i]) == "" ==> ParseDevices(lines[..i + 1]) == Ok(devices)
    ensures PyStrip(lines[i]) != "" && |PySplit(lines[i])| != 2 ==>
      ParseDevices(lines[..i + 1]) == Err(|PySplit(lines[i])|)
    ensures PyStrip(lines[i]) != "" && |PySplit(lines[i])| == 2 ==>
      ParseDevices(lines[..i + 1]) == Ok(Put(devices, PySplit(lines[i])[0], JStr(PySplit(lines[i])[1])))
  {
    assert lines[..i + 1][..i] == lines[..i];
  }

  /** A bad line decides the result: later lines do not change the error. */
  lemma {:induction false} ParseErrorStays(lines: seq<string>, k: nat)
    requires k <= |lines| && ParseDevices(lines[..k]).Err?
    ensures ParseDevices(lines) == ParseDevices(lines[..k])
    decreases |lines| - k
  {
    if k < |lines| {
      assert lines[..k + 1][..k] == lines[..k];
      ParseErrorStays(lines, k + 1);
    } else {
      assert lines[..k] == lines;
    }
  }

  /** The `devices` dictionary of well-formed listing lines, one property per device in listing order. */
  function DeviceFields(entries: seq<Entry>): (fields: seq<Field>)
    ensures |fields| == |entries|
    ensures forall i :: 0 <= i < |entries| ==> fields[i] == Field(entries[i].serial, JStr(entries[i].state))
  {
    seq(|entries|, i requires 0 <= i < |entries| => Field(entries[i].serial, JStr(entries[i].state)))
  }

  predicate DistinctSerials(entries: seq<Entry>) {
    forall i, j :: 0 <= i < j < |entries| ==> entries[i].serial != entries[j].serial
  }

  /** Device lines of distinct serials parse into one property per device, in order. */
  lemma {:induction false} EntryLinesParse(entries: seq<Entry>)
    requires WellFormed(entries) && DistinctSerials(entries)
    ensures ParseDevices(EntryLines(entries)) == Ok(DeviceFields(entries))
  {
    if |entries| > 0 {
      var n := |entries| - 1;
      WellFormedInit(entries);
      EntryLinesParse(entries[..n]);
      SerialNotYetListed(entries);
      ParseLast(entries);
    }
  }

  /** The last device line, for a serial not yet listed, adds one more property. */
  lemma ParseLast(entries: seq<Entry>)
    requires |entries| > 0
    requires ParseDevices(EntryLines(entries[..|entries| - 1])) == Ok(DeviceFields(entries[..|entries| - 1]))
    requires IsWord(entries[|entries| - 1].serial) && IsWord(entries[|entries| - 1].state)
    requires entries[|entries| - 1].serial !in Keys(DeviceFields(entries[..|entries| - 1]))
    ensures ParseDevices(EntryLines(entries)) == Ok(DeviceFields(entries))
  {
    var n := |entries| - 1;
    var e := entries[n];
    var lines := EntryLines(entries);
    var before := DeviceFields(entries[..n]);
    EntryLinesInit(entries);
    DeviceFieldsSnoc(entries);
    assert ParseDevices(lines) == Ok(Put(before, e.serial, JStr(e.state))) by {
      ParseDeviceLine(lines, before, e);
    }
  }

  /** Putting a serial not yet listed appends its property after the earlier ones. */
  lemma DeviceFieldsSnoc(entries: seq<Entry>)
    requires |entries| > 0
    requires entries[|entries| - 1].serial !in Keys(DeviceFields(entries[..|entries| - 1]))
    ensures Put(DeviceFields(entries[..|entries| - 1]), entries[|entries| - 1].serial,
                JStr(entries[|entries| - 1].state)) == DeviceFields(entries)
  {
    var n := |entries| - 1;
    var e := entries[n];
    var before := DeviceFields(entries[..n]);
    DeviceFieldsAppend(entries);
    PutAbsent(before, e.serial, JStr(e.state));
  }

  lemma DeviceFieldsAppend(entries: seq<Entry>)
    requires |entries| > 0
    ensures DeviceFields(entries) == DeviceFields(entries[..|entries| - 1]) +
      [Field(entries[|entries| - 1].serial, JStr(entries[|entries| - 1].state))]
  {
  }

  /** A device line after lines that parse sets that device's state. */
  lemma ParseDeviceLine(lines: seq<string>, before: seq<Field>, e: Entry)
    requires |lines| > 0 && ParseDevices(lines[..|lines| - 1]) == Ok(before)
    requires IsWord(e.serial) && IsWord(e.state) && lines[|lines| - 1] == EntryLine(e)
    ensures ParseDevices(lines) == Ok(Put(before, e.serial, JStr(e.state)))
  {
    EntryLineNotBlank(e);
    EntryLineWords(e);
  }

  /** With distinct serials, the last device's serial is not among the earlier ones. */
  lemma SerialNotYetListed(entries: seq<Entry>)
    requires |entries| > 0 && DistinctSerials(entries)
    ensures entries[|entries| - 1].serial !in Keys(DeviceFields(entries[..|entries| - 1]))
  {
    var n := |entries| - 1;
    assert forall k :: 0 <= k < n ==> Keys(DeviceFields(entries[..n]))[k] == entries[k].serial;
  }

  /**
   * `check_device_status` on the output of `adb devices`: every listed device
   * appears with its state, in listing order, and the trailing blank line is
   * skipped.
   */
  lemma ListingParses(entries: seq<Entry>)
    requires WellFormed(entries) && DistinctSerials(entries)
    ensures ParseDevices(DeviceLines(Listing(entries))) == Ok(DeviceFields(entries))
  {
    var lines := DeviceLines(Listing(entries));
    ListingLines(entries);
    var m := |entries|;
    assert lines[..m] == EntryLines(entries);
    assert lines[..m + 1][..m] == lines[..m];
    assert lines[..m + 2] == lines;
    EntryLinesParse(entries);
    assert PyStrip(lines[m]) == "" && PyStrip(lines[m + 1]) == "";
  }
}
