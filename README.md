# Remote-control server core, modelled in Dafny

This project models the core of a Node.js control server that runs shell
commands as background tasks, manages and analyses files and APKs, and drives
Android emulators over `adb`. Next to it sit a Python ADB proxy and a Flask
blueprint that also drive `adb`. The model covers:

- **The task supervisor.** The task registry (`services/TaskManager.js`) keeps
  tasks by id and settles `waitForTask` promises on the first `taskUpdate`
  that completes or fails the task. The dispatcher
  (`services/BackgroundWorker.js`) starts one worker thread per task and turns
  its messages into registry updates. The command worker
  (`services/workers/commandWorker.js`) runs a shell command and retries it
  once. The routes `POST /api/tasks/execute`, `GET /api/tasks/:taskId/status`,
  `GET /api/tasks/:taskId/wait` and `POST /api/tasks/:taskId/stop`, and the
  `getTaskLogs` helper, come from `index.js`.
- **The ADB glue.**
  - `proxy/handlers/adb_handler.py` has a task table of spawned `adb`
    processes and parses `adb devices`.
  - `flask-proxy/app/routes/emulator.py` lists devices and runs commands.
  - `services/EmulatorService.js` builds the `adb` command line and reads the
    device list. `index.js` builds the same command line and parses the
    listing the same way. On a malformed line, though, its copy throws inside
    the `exec` callback, where nothing catches it, so the process crashes
    instead of rejecting.
- **The algorithms of the file tools.**
  - `fileManager.js`: edit distance, similarity and text merge, the deep JSON
    merge, and the chunked reader and writer.
  - `FileAnalyzer.js`: extension tables, depth-limited structure summaries,
    XML counters, CSV column types, and the byte classes of `StreamAnalyzer`.
  - `AdvancedLogger.js`: size and interval parsing, and the message buffer.
  - `apkAnalyzer.js`: the round-robin worker pool, permission and resource
    classification, component extraction and the protection flags.

How the source is modelled:

- Objects whose fields the source updates in place are classes with
  `modifies` frames: `TaskManager`, `BackgroundWorker`, `AdbHandler`,
  `LogBuffer`, `StreamAnalyzer` and `WorkerPool`.
- Loops are methods proved against specification functions. The edit
  distance fills an `array2` matrix, as the source does.
- The outside world becomes parameters: processes, `exec`/`spawn`, worker
  threads, the clock, the file system and random UUIDs. Task ids are counter
  naturals.
- Each Node callback on the event loop is one atomic step. So a worker
  message, a worker error, a timer firing or a process exit is a method of
  its own.

In these places the code behaves differently from what its names and messages
suggest. The model follows the code:

- `updateTask` applies updates to a task whatever its status. A late
  `progress` message reopens a finished or stopped task.
- `waitForTask` treats only `completed` and `failed` as final. A stopped task
  leaves its waiters waiting until their timeout.
- The dispatcher has no branch for the `{type: 'error'}` message that the
  command worker posts from its `catch`. That message updates nothing.
- `inferColumnType` counts a blank cell (`" "`) as a number, because
  `Number(" ")` is 0. The empty string is not a number.
- The `AdvancedLogger` constructor returns the winston logger itself. So
  `log` and `flushLogs` are never reachable from the rest of the program.
  They are modelled as written.
- The `ApkAnalyzer` constructor hands the worker's code to `new Worker`
  without `{ eval: true }`, so Node takes it for a script path and throws
  `ERR_WORKER_PATH` on the first worker. On any machine with a CPU,
  `new ApkAnalyzer()` throws, and none of its instance methods (the
  classifiers and `getAvailableWorker` included) can be reached. The failing
  construction is modelled as written (`InitializeWorkerPool`). The classifiers
  are modelled as written, although nothing can reach them. The round-robin
  pool is the one the code evidently intends.

## Model

| member | source | states |
|---|---|---|
| Registry.Apply | services/TaskManager.js:33 | `Object.assign`: exactly the properties present in the update change; id, type, data and start time never do |
| Registry.Step | services/TaskManager.js:60-72 | a waiting listener settles on an update of its own task exactly when the status is completed (resolve with result) or failed (reject with the raw error); a settled wait never changes |
| Registry.Notify | services/TaskManager.js:34 | one `taskUpdate` reaches every registered wait and no wait is added or dropped |
| Registry.InitialWait | services/TaskManager.js:42-53 | unknown id rejects with `Task not found`; a completed or failed task settles at once; otherwise the wait listens |
| Registry.FirstSettling | services/TaskManager.js:60-72 | the position of the first event that completes or fails the task, with no earlier such event |
| Registry.ReplaySettled | services/TaskManager.js:63-69 | once settled, a wait is unaffected by any later sequence of updates |
| Registry.ReplayWaiting | services/TaskManager.js:60-74 | over any sequence of updates a wait settles on the first event finishing its task, with that event's result or error, and stays waiting if there is none (`stopped` included) |
| Registry.TaskManager.constructor | services/TaskManager.js:5-11 | the registry starts with no tasks, no waits and no events |
| Registry.TaskManager.CreateTask | services/TaskManager.js:13-28 | a fresh id maps to a pending task with progress 0, null result and error, start time `now` and no end time; nothing else changes |
| Registry.TaskManager.UpdateTask | services/TaskManager.js:30-38 | true iff the task exists; then the task is `Apply`d, one event carrying it is emitted and every wait is `Notify`d; otherwise nothing changes |
| Registry.TaskManager.WaitForTask | services/TaskManager.js:40-76 | a fresh wait in the state `InitialWait` gives; tasks and events unchanged |
| Registry.TaskManager.Timeout | services/TaskManager.js:55-58 | a still-waiting wait rejects with `Task timeout`; a settled one is untouched |
| Registry.TaskManager.GetTaskStatus | services/TaskManager.js:78-80 | the stored task, present exactly when the id is registered |
| Dispatcher.MessageUpdate | services/BackgroundWorker.js:20-34 | `progress` asks for running with exactly that progress; `complete` for completed with the result and end time; no other property is touched; any other type asks for nothing |
| Dispatcher.ErrorUpdate | services/BackgroundWorker.js:36-41 | a worker error asks for failed with the error message and the end time, and nothing else |
| Dispatcher.StopUpdate | services/BackgroundWorker.js:53-56 | a stop asks for stopped with the end time, and nothing else |
| Dispatcher.ScriptFor | services/BackgroundWorker.js:14 | the worker script name is the task type followed by `Worker.js` |
| Dispatcher.ScriptForInjective | services/BackgroundWorker.js:14 | different task types give different script names (before the directory join) |
| Dispatcher.CompleteResolvesWaiter | services/BackgroundWorker.js:26-32 | a `complete` message resolves every listening wait with the posted result |
| Dispatcher.ErrorRejectsWaiter | services/BackgroundWorker.js:36-41 | a worker error rejects every listening wait with the error message |
| Dispatcher.ProgressAndStopLeaveWaiter | services/BackgroundWorker.js:21-25 | a progress message or a stop leaves a listening wait listening |
| Dispatcher.Received | services/workers/commandWorker.js:32-64 | the command worker's progress and complete posts become those updates; its `error` post updates nothing |
| Dispatcher.LateProgressReopens | services/BackgroundWorker.js:21-25 | a progress message after completion, failure or stop sets the task back to running |
| Dispatcher.BackgroundWorker.constructor | services/BackgroundWorker.js:5-9 | no live workers, nothing launched or terminated |
| Dispatcher.BackgroundWorker.ExecuteTask | services/BackgroundWorker.js:11-18 | one new pending task, one worker on `<type>Worker.js` with `{taskId, taskData}` registered under its id; live workers stay on pending or running tasks; the waits are untouched |
| Dispatcher.BackgroundWorker.OnMessage | services/BackgroundWorker.js:20-34 | progress and complete update the task, emit exactly one event carrying the new task and notify every wait with it; complete also drops the worker; other types change nothing; id counters never move |
| Dispatcher.BackgroundWorker.OnError | services/BackgroundWorker.js:36-43 | the task fails with the error message and an end time, one event is emitted and every wait notified, and its worker is dropped |
| Dispatcher.BackgroundWorker.StopTask | services/BackgroundWorker.js:48-60 | true iff a live worker exists; then it is terminated and dropped, the task is stopped, one event is emitted and every wait notified; otherwise nothing changes |
| CommandWorker.ExecuteCommand | services/workers/commandWorker.js:6-24 | never throws: success with both streams, or failure with the message and the optional `stderr` |
| CommandWorker.ResultJson | services/workers/commandWorker.js:12-22 | `success` is true exactly for a successful run; a success carries stdout and stderr and no error; a failure carries the error message, and stderr exactly when the process produced some |
| CommandWorker.Run | services/workers/commandWorker.js:26-66 | posts progress 10 then one final message; retries once exactly when the first run failed without `permission denied`; reports the retry only if it succeeded, else the first result; a fault posts `error` |
| CommandWorker.PermissionDeniedNotRetried | services/workers/commandWorker.js:41 | any failure text containing `permission denied` is not retried |
| CommandWorker.FailureWithoutLowerPRetried | services/workers/commandWorker.js:41 | the test is case-sensitive: any failure text without a lower-case `p` (so `Permission denied` included) is retried |
| TaskApi.GetTaskLogs | index.js:712-719 | no file gives `[]`; otherwise exactly the lines with a non-space character, at most as many as there are lines |
| TaskApi.TaskLogsOneLine | index.js:718 | a file of one line gives that line, or nothing when it is blank |
| TaskApi.TaskLogsAppend | index.js:718 | the logs of two line blocks joined are the logs of the first followed by those of the second: order and repeats are kept |
| TaskApi.LogsRoundTrip | index.js:717-718 | non-blank lines joined by newlines read back as those lines |
| TaskApi.TrailingNewlineDropped | index.js:718 | a final newline adds no log line |
| TaskApi.StatusEndpointNamesTask | index.js:737 | different tasks get different status routes |
| TaskApi.StatusEndpoint | index.js:737 | the status URL is `/api/tasks/`, then the id, then `/status` |
| TaskApi.ExecuteRoute | index.js:726-738 | the body's command becomes a new pending `command` task; its worker is launched and registered under the id and the handle counter advances; waits, events and terminations are untouched; the reply is `accepted` with the task id and its status route |
| TaskApi.StatusBodyReadsBack | index.js:758-766 | every base property reads back as the task has it, and `endTime` is present exactly when the task has an end time |
| TaskApi.StatusBody | index.js:758-766 | the reply object has the keys taskId, status, progress, result, error and startTime in that order, and endTime after them exactly when the task has ended |
| TaskApi.ReadIdAndStatus | index.js:759-760 | the task id and status read back from the body |
| TaskApi.ReadProgressAndResult | index.js:761-762 | the progress and result read back from the body |
| TaskApi.ReadErrorAndStart | index.js:763-764 | the error and start time read back from the body |
| TaskApi.StatusReply | index.js:750-767 | a 404 `Task not found` exactly when no task exists, else 200 with the status body |
| TaskApi.StatusRoute | index.js:750-756 | 404 exactly for an id the registry does not hold |
| TaskApi.WaitReply | index.js:770-789 | resolved waits send the result; `Task timeout` is 202 pending; other rejections are 500 with the message; nothing is sent exactly for a null raw rejection |
| TaskApi.WaitTimeoutAndMissing | index.js:775-787 | a timed-out wait is 202 and an unknown task is 500 `Task not found` |
| TaskApi.FailedTaskErrorLost | index.js:784-786 | a task failed with an error string is answered 500 with body `{}` |
| TaskApi.WaitReplyFixed | index.js:784-786 | the intended reply: a raw rejection is 500 carrying the stored error; everything else as written |
| TaskApi.FailedTaskErrorReported | index.js:784-786 | with the fix a failed task's error reaches the client |
| TaskApi.CompletedTaskResult | index.js:775-776 | a completed task is still answered with its result |
| TaskApi.StopRoute | index.js:792-801 | 200 iff the task had a live worker (then the task is stopped, one event emitted and every wait notified), else 404 and nothing changes; afterwards no worker remains for the id; id counters never move |
| ProxyAdb.CommandVector | proxy/handlers/adb_handler.py:45-48 | the ADB path, then `-s <serial>` for a non-empty serial, then the whitespace words of the command |
| ProxyAdb.CommandWordsKeepText | proxy/handlers/adb_handler.py:46-48 | the command words are non-empty and concatenate to the command minus its whitespace |
| ProxyAdb.FinishedReplyOf | proxy/handlers/adb_handler.py:84-98 | exit 0 is completed with stdout; any other code is an error with `stderr or stdout` |
| ProxyAdb.StatusOf | proxy/handlers/adb_handler.py:150-165 | running iff the process runs; after exit `completed` iff the code is 0, else `error`, with the stored output and code |
| ProxyAdb.AdbHandler.constructor | proxy/handlers/adb_handler.py:18-21 | empty task, output and thread tables |
| ProxyAdb.AdbHandler.ExecuteCommand | proxy/handlers/adb_handler.py:35-114 | a fresh id; a raising spawn registers nothing (exit -1); background registers a running task with output `""` and a thread; foreground stores the finished or killed state and the output the reply carries |
| ProxyAdb.AdbHandler.ProcessExited | proxy/handlers/adb_handler.py:116-140 | a running process exits with its code; nothing else changes |
| ProxyAdb.AdbHandler.GetTaskStatus | proxy/handlers/adb_handler.py:142-165 | `not_found` exactly for unregistered ids, else `StatusOf` the process and its output |
| ProxyAdb.AdbHandler.StopTask | proxy/handlers/adb_handler.py:167-191 | unknown id is `Task not found`; a running process is stopped; an exited one is `Task already completed`; no entry is removed |
| ProxyAdb.AdbHandler.CleanupTask | proxy/handlers/adb_handler.py:193-200 | the id leaves all three tables and nothing else changes; for an id in none of them nothing changes at all, so a second cleanup is a no-op |
| ProxyAdb.ParseDevices | proxy/handlers/adb_handler.py:208-212 | succeeds iff every line is blank or splits into two words; a failure reports the word count of the first line that does not, which is never 2 |
| ProxyAdb.ParseDevicesLookup | proxy/handlers/adb_handler.py:209-212 | each serial maps to the status of its last line, and unlisted serials are absent |
| ProxyAdb.CheckDeviceStatus | proxy/handlers/adb_handler.py:202-235 | error messages for a failed command, an exception and a malformed line; otherwise the devices dictionary, with the serial's status or `not_found` when a serial is given |
| ProxyAdb.ParseErrorStays | proxy/handlers/adb_handler.py:211 | once a line fails to unpack, later lines do not change the outcome |
| ProxyAdb.EntryLinesParse | proxy/handlers/adb_handler.py:209-212 | device lines with distinct serials parse into one property per device, in order |
| ProxyAdb.ListingParses | proxy/handlers/adb_handler.py:205-212 | on a real `adb devices` listing every device appears with its state, in listing order |
| FlaskEmulator.ListedDevices | flask-proxy/app/routes/emulator.py:13-19 | succeeds iff every line is blank or has exactly two tab-separated fields; a failure never reports 2 fields; no more devices than lines |
| FlaskEmulator.ListedErrorIsFirst | flask-proxy/app/routes/emulator.py:13-15 | a failure reports the field count of the first line whose unpacking raises |
| FlaskEmulator.ListDevices | flask-proxy/app/routes/emulator.py:8-23 | 200 with one `{serial, status}` per kept line, or 500 with the exception's message |
| FlaskEmulator.DevicesJson | flask-proxy/app/routes/emulator.py:16-19 | one `{serial, status}` object per parsed line, in order |
| FlaskEmulator.ListedErrorStays | flask-proxy/app/routes/emulator.py:15 | once a line fails to unpack, later lines do not change the outcome |
| FlaskEmulator.EntryLinesListed | flask-proxy/app/routes/emulator.py:13-19 | device lines list every device, duplicates included, in order |
| FlaskEmulator.ListingListed | flask-proxy/app/routes/emulator.py:11-20 | on a real listing each device is reported with its state, in order |
| FlaskEmulator.BadLineRejected | flask-proxy/app/routes/emulator.py:15 | a non-blank line without exactly one tab makes the whole route fail, whatever follows |
| FlaskEmulator.RunReply | flask-proxy/app/routes/emulator.py:40-48 | a completed run is 200 with stdout, stderr and return code verbatim; an exception is 500 |
| FlaskEmulator.ExecuteAdb | flask-proxy/app/routes/emulator.py:25-48 | a falsy command is 400 and runs nothing; non-string command or device fail with Python's messages; otherwise exactly the proxy's argument vector is run and its outcome replied |
| EmulatorService.AdbCommandLine | services/EmulatorService.js:11-13 | the line starts with `adb ` and ends with the command |
| EmulatorService.SerialIsOption | services/EmulatorService.js:11-13 | giving a serial equals prefixing the command with `-s <serial>` |
| EmulatorService.CommandLineWords | index.js:626-628 | for a serial without whitespace the line's words are exactly the proxy's argument vector |
| EmulatorService.ExecuteAdbCommand | services/EmulatorService.js:10-22 | resolves with both streams iff `exec` succeeded on the command line; otherwise rejects with its message |
| EmulatorService.NonBlankLines | services/EmulatorService.js:29 | keeps exactly the lines whose trim is non-empty |
| EmulatorService.NonBlankLinesOne | services/EmulatorService.js:29 | one line is kept iff it is not blank |
| EmulatorService.NonBlankLinesAppend | services/EmulatorService.js:29 | filtering distributes over concatenation, so order and repeats are kept |
| EmulatorService.DeviceOf | services/EmulatorService.js:30-37 | throws the trim TypeError iff the line has no tab; `isTarget` iff the trimmed serial equals the one asked for |
| EmulatorService.DevicesOf | services/EmulatorService.js:27-37 | succeeds iff every kept line has a tab, mapping line by line |
| EmulatorService.FindTarget | services/EmulatorService.js:41 | the first device flagged as target, none iff no device is |
| EmulatorService.CheckEmulatorStatus | services/EmulatorService.js:24-43 | succeeds iff every non-blank line after the header has a tab; device i is the i-th such line; the target is the first listed device with the serial asked for, or null when none matches |
| EmulatorService.IndexCheckEmulatorStatus | index.js:683-710 | an `exec` failure rejects; a listing the service would refuse crashes the process instead (the throw escapes the callback); otherwise it resolves with the service's answer |
| EmulatorService.StatusOfListing | services/EmulatorService.js:24-43 | on a real listing: one device per listed device in order, and the target is absent iff no serial matches |
| Logging.ConvertSize | AdvancedLogger.js:107-112 | fails with `Invalid size format` iff the lower-cased text is not digits with an optional k/m/g; digits alone are bytes |
| Logging.SizeRoundTrip | AdvancedLogger.js:107-112 | a rendered number with an optional unit reads back as that many bytes |
| Logging.SizeOfDigits | AdvancedLogger.js:107-112 | any digits, leading zeros included, with an optional unit in either case, give the digits' value times the unit's multiplier |
| Logging.UpperUnitAccepted | AdvancedLogger.js:109 | units are case-insensitive |
| Logging.SizeRejections | AdvancedLogger.js:109-110 | the empty string, a bare unit and an unknown unit are rejected |
| Logging.ParseInterval | AdvancedLogger.js:132-137 | fails with `Invalid interval format` iff the lower-cased text is not digits plus s/m/h/d |
| Logging.IntervalRoundTrip | AdvancedLogger.js:132-137 | a rendered number with a unit reads back as that many milliseconds |
| Logging.IntervalOfDigits | AdvancedLogger.js:132-137 | any digits, leading zeros included, with a unit in either case, give the digits' value times the unit's milliseconds |
| Logging.IntervalNeedsUnit | AdvancedLogger.js:134 | a bare number is rejected |
| Logging.Defaults | AdvancedLogger.js:14-19 | `10m` is 10485760 bytes and `1d` is 86400000 ms |
| Logging.LogBuffer.constructor | AdvancedLogger.js:27 | the buffer starts empty |
| Logging.LogBuffer.FlushLogs | AdvancedLogger.js:165-170 | every buffered message goes to the logger once, in order, and the buffer empties |
| Logging.LogBuffer.Log | AdvancedLogger.js:158-163 | the message is buffered; reaching 100 flushes the whole buffer; nothing is lost or repeated |
| ApkAnalysis.Rotate | apkAnalyzer.js:122-127 | takes the front worker and puts it at the back; an empty pool becomes `[undefined]` |
| ApkAnalysis.RoundRobin | apkAnalyzer.js:122-127 | k calls on a non-empty pool hand out the first k workers in order and rotate the pool by k |
| ApkAnalysis.FullRoundRestores | apkAnalyzer.js:122-127 | a full round hands out each worker once and restores the pool |
| ApkAnalysis.NewWorker | apkAnalyzer.js:21-48 | `new Worker` succeeds iff it is asked to eval, or the text is an absolute or `./`/`../` path; otherwise it throws `ERR_WORKER_PATH` |
| ApkAnalysis.InitializeWorkerPool | apkAnalyzer.js:19-50 | the loop's pool, or the error of the first `new Worker` that throws, as `PoolOf` gives |
| ApkAnalysis.PoolErrorStays | apkAnalyzer.js:19-50 | once a creation throws, further slots do not change the outcome |
| ApkAnalysis.PoolBuilt | apkAnalyzer.js:19-50 | with a usable script, the pool is workers `0 .. n - 1` in order |
| ApkAnalysis.InlineCodePoolThrows | apkAnalyzer.js:14-16 | as written, construction throws `ERR_WORKER_PATH` whenever there is at least one CPU, and builds an empty pool otherwise |
| ApkAnalysis.EvalPoolBuilt | apkAnalyzer.js:19-50 | run with `{ eval: true }`, the inline code builds the full pool |
| ApkAnalysis.WorkerPool.constructor | apkAnalyzer.js:14-16 | the intended pool: `maxWorkers` workers numbered in order, the pool `EvalPoolBuilt` gives |
| ApkAnalysis.WorkerPool.GetAvailableWorker | apkAnalyzer.js:122-127 | the `Rotate` result; a non-empty pool keeps its size and members |
| ApkAnalysis.DangerousByInfix | apkAnalyzer.js:241-260 | any text containing a listed name in any ASCII case is dangerous |
| ApkAnalysis.DangerousIffInfix | apkAnalyzer.js:241-260 | for ASCII text, dangerous exactly when one of the twelve names occurs in it in some case |
| ApkAnalysis.KindOf | apkAnalyzer.js:168-177 | custom iff no `android.permission.` prefix; dangerous iff the prefix and a listed name |
| ApkAnalysis.AnalyzePermissions | apkAnalyzer.js:158-180 | requested is the list or `[]`; custom, dangerous and normal are its order-preserving filters by kind |
| ApkAnalysis.PermissionsPartition | apkAnalyzer.js:168-177 | the three lists together are a permutation of the requested list |
| ApkAnalysis.FilterMembers | apkAnalyzer.js:168-177 | an element is filed under a kind iff it was requested and has that kind |
| ApkAnalysis.Filter | apkAnalyzer.js:168-177 | every kept permission was requested and has the kind of its list, and no list is longer than the request |
| ApkAnalysis.OrElse | apkAnalyzer.js:266-267 | JavaScript `a \|\| b`: a truthy `a`, else `b` |
| ApkAnalysis.ComponentOf | apkAnalyzer.js:264-269 | throws iff the component is null; otherwise name and permission as given, `exported` defaults to false, `intentFilters` to `[]` |
| ApkAnalysis.ComponentsOf | apkAnalyzer.js:264 | succeeds iff no entry is null, mapping entry by entry |
| ApkAnalysis.ExtractComponents | apkAnalyzer.js:262-270 | the `<type>s` list (or `[]`) mapped; a truthy non-list throws |
| ApkAnalysis.ComponentDefaults | apkAnalyzer.js:263-268 | absent list gives no components; absent `exported`/`intentFilters` give false/`[]` |
| ApkAnalysis.CheckStrongProtection | apkAnalyzer.js:272-278 | each flag is set iff the property is exactly `false` (network: iff present) |
| ApkAnalysis.HasNetworkSecurityConfig | apkAnalyzer.js:306-308 | true iff the property is present, whatever its value (`null` included) |
| ApkAnalysis.ResourceKindOf | apkAnalyzer.js:204-214 | drawable, layout, raw by the first matching `res/` prefix |
| ApkAnalysis.AnalyzeResources | apkAnalyzer.js:191-221 | on a failed archive all lists are empty; otherwise each list is the order-preserving filter of entries of its kind |
| ApkAnalysis.OtherResourcesDropped | apkAnalyzer.js:204-214 | entries outside the three folders land in no list |
| FileAnalyzer.Lookup | FileAnalyzer.js:161 | answers none iff the extension is not in the table, else a listed pair |
| FileAnalyzer.GetFileType | FileAnalyzer.js:144-163 | a listed extension gets its listed type; any other gets `application/octet-stream` |
| FileAnalyzer.FileTypeListed | FileAnalyzer.js:144-163 | `application/octet-stream` exactly for unlisted extensions |
| FileAnalyzer.TextFileTypes | FileAnalyzer.js:139-163 | of the twelve text extensions exactly `.py`, `.java`, `.cpp` and `.cs` have no MIME type of their own |
| FileAnalyzer.AnalyzeJson | FileAnalyzer.js:193-216 | past the depth limit the marker; arrays become type, length and three summarised samples; objects keep their keys; others their `typeof` |
| FileAnalyzer.AnalyzeJsonItems | FileAnalyzer.js:199 | the first three items summarised, in order |
| FileAnalyzer.AnalyzeJsonFields | FileAnalyzer.js:207-211 | same keys, each value summarised |
| FileAnalyzer.AnalyzeXml | FileAnalyzer.js:492-508 | like the JSON summary, arrays become the list of their first three summaries |
| FileAnalyzer.AnalyzeXmlBounded | FileAnalyzer.js:492-508 | the summary nests at most `maxDepth - depth` levels |
| FileAnalyzer.TraverseElements | FileAnalyzer.js:510-522 | the walk adds the element count of the tree to the counter |
| FileAnalyzer.CountXmlElements | FileAnalyzer.js:510-522 | the number of non-array objects in the tree |
| FileAnalyzer.TraverseAttributes | FileAnalyzer.js:524-538 | the walk adds the attribute count of the tree to the counter |
| FileAnalyzer.CountXmlAttributes | FileAnalyzer.js:524-538 | the total key count of object-valued `$` properties |
| FileAnalyzer.AttributesNeedElements | FileAnalyzer.js:524-538 | a tree without elements has no attributes |
| FileAnalyzer.AttributeCountItemsAppend | FileAnalyzer.js:526-528 | the attributes of two lists walked in turn are the sum of their counts |
| FileAnalyzer.DepthWithinElements | FileAnalyzer.js:540-549 | the depth is at most the element count, and zero iff there are no elements |
| FileAnalyzer.XmlDepth | FileAnalyzer.js:540-549 | a scalar has depth 0 and an object at least 1 |
| FileAnalyzer.ItemsDepthIsMax | FileAnalyzer.js:540-549 | the depth of a list is the largest depth among its items |
| FileAnalyzer.FieldsDepthIsMax | FileAnalyzer.js:540-549 | an object is one deeper than its deepest value, and depth 1 when it has none |
| FileAnalyzer.Classify | FileAnalyzer.js:601-607 | number iff `Number(v)` is not NaN and v is not empty; date iff v starts with `dddd-dd-dd`; boolean iff v is `true` or `false` in any case; string otherwise; never mixed |
| FileAnalyzer.InferColumnType | FileAnalyzer.js:600-610 | a single class iff there are values and all share it; `mixed` otherwise |
| FileAnalyzer.InferColumnTypeUnique | FileAnalyzer.js:608-609 | the answer is a single class iff the set of classes has exactly one member, which is it |
| FileAnalyzer.AllSpaceIsNumber | FileAnalyzer.js:603 | any non-empty all-whitespace cell is a number |
| FileAnalyzer.HexLiteralIsNumber | FileAnalyzer.js:603 | every `0x` literal with hexadecimal digits is a number |
| FileAnalyzer.DateIsNotNumber | FileAnalyzer.js:603-604 | no text starting with a date is numeric, so the number test never hides a date |
| FileAnalyzer.BooleanWordIsPlain | FileAnalyzer.js:603-605 | a boolean word is neither numeric nor a date, so the earlier tests never hide it |
| FileAnalyzer.DanglingExponentIsText | FileAnalyzer.js:603 | digits followed by a bare `e` are a string, not a number |
| FileAnalyzer.CountsPartition | FileAnalyzer.js:675-685 | null, text and control counts add up to the byte count |
| FileAnalyzer.StreamAnalyzer.constructor | FileAnalyzer.js:655-668 | all counters start at zero |
| FileAnalyzer.StreamAnalyzer.ProcessChunk | FileAnalyzer.js:670-687 | size and chunk count grow; each byte counts in exactly one class |
| FileAnalyzer.StreamAnalyzer.InferFileType | FileAnalyzer.js:701-709 | `Binary` iff under 70% of the bytes are text, else `Text` |
| FileManager.Min3 | fileManager.js:437-441 | the least of three and one of them |
| FileManager.DistPrefixStep | fileManager.js:432-443 | the distance of prefixes follows the matrix recurrence |
| FileManager.FillRow | fileManager.js:433-443 | row `j` holds the prefix distances; no other row changes |
| FileManager.EditDistance | fileManager.js:425-445 | the result is the Levenshtein distance |
| FileManager.DistSelf | fileManager.js:425-445 | a string is at distance 0 from itself |
| FileManager.DistEmpty | fileManager.js:428-431 | the distance to the empty string is the length |
| FileManager.DistUpper | fileManager.js:425-445 | at most the longer length |
| FileManager.DistLower | fileManager.js:425-445 | at least the length difference |
| FileManager.DistZeroIff | fileManager.js:425-445 | zero iff the strings are equal |
| FileManager.DistSymmetric | fileManager.js:425-445 | symmetric |
| FileManager.Similarity | fileManager.js:416-423 | a ratio in [0, 1] that is 1 iff the strings are equal |
| FileManager.ShortLinesSimilarIffEqual | fileManager.js:410-423 | lines of at most ten characters are very similar only when equal |
| FileManager.SelfVerySimilar | fileManager.js:410-414 | every line is very similar to itself |
| FileManager.VerySimilarByDistance | fileManager.js:410-423 | very similar iff the distance is under a tenth of the longer length |
| FileManager.Dedup | fileManager.js:398 | a `Set` of lines keeps exactly the lines |
| FileManager.DedupNoDuplicates | fileManager.js:398 | the set has no repeated line |
| FileManager.MergeTextContent | fileManager.js:396-408 | the result is `MergeText` |
| FileManager.AddAllProperties | fileManager.js:400-405 | the merged prefix stays, each added line was new when added, and every update line has a very similar merged line |
| FileManager.MergeLinesNoDuplicates | fileManager.js:396-408 | the merged lines never repeat |
| FileManager.MergeLinesProperties | fileManager.js:396-408 | the original's distinct lines come first, in order; every original line is kept; every update line has a very similar merged line; every later line comes from the update |
| FileManager.MergeTextSplits | fileManager.js:407 | splitting the merged text gives back the merged lines |
| FileManager.ArrayIndexOfKey | fileManager.js:383 | array indices enumerate as their decimal key |
| FileManager.Spread | fileManager.js:381 | arrays and objects copy themselves, a string spreads to its characters under index keys, any other primitive or null to `{}` |
| FileManager.DeepMerge | fileManager.js:376-394 | a primitive or null source wins outright |
| FileManager.DeepMergeWithValidation | fileManager.js:376-394 | the loop computes `DeepMerge` |
| FileManager.MergeFromFails | fileManager.js:385-386 | a property whose value cannot be merged ends the loop with that error |
| FileManager.MergeFromIsPutAll | fileManager.js:383-391 | merging object properties is assigning the new values in order |
| FileManager.DeepMergeObjectKeys | fileManager.js:376-394 | the merged object has the target's keys and the source's keys |
| FileManager.DeepMergeObjectValue | fileManager.js:376-394 | each source key holds the merge of its value (deep for objects found in the target) |
| FileManager.DeepMergePrimitiveTarget | fileManager.js:385 | merging into a primitive fails iff the source nests an object or array (`in` throws) |
| FileManager.DeepMergeArrays | fileManager.js:376-394 | an array merged into an array is as long as the longer and keeps the target's tail |
| FileManager.MergeContent | fileManager.js:344-357 | JSON merge when both parse, text merge otherwise; a merge that throws gives `Content merge failed`; an object merged into an array is the one case left unmodelled |
| FileManager.ChunkCount | fileManager.js:184 | the fewest 50 MiB chunks that hold the file |
| FileManager.ChunkRanges | fileManager.js:187-191 | the intended ranges are non-empty, at most a chunk, and meet end to start from 0 to the size |
| FileManager.IntendedChunksConcat | fileManager.js:187-191 | the intended chunks concatenate to the file |
| FileManager.ChunkAsReadOverlaps | fileManager.js:202-204 | every chunk but the last is read one byte too long |
| FileManager.LastChunkAsIntended | fileManager.js:189 | the last chunk is read as intended |
| FileManager.ChunksAsReadDuplicateByte | fileManager.js:187-204 | a file one byte over a chunk is read with one byte twice |
| FileManager.ProcessFileInChunks | fileManager.js:182-200 | one processor result per chunk, on the chunk as read |
| FileManager.Chop | fileManager.js:160-164 | at least one piece |
| FileManager.ChopProperties | fileManager.js:157-180 | the pieces concatenate to the data, each at most a chunk, none empty unless the data is |
| FileManager.WriteStreamData | fileManager.js:157-180 | the written pieces are the chopped data in order; the stream ends once, last; a write is followed by a wait for `drain` exactly when the stream refused it |
| JsonValue.GetPut | proxy/handlers/adb_handler.py:212 | setting a key changes that key's value and no other |

## Left out

- I/O is not modelled; each becomes a parameter. This covers processes, `exec`/`spawn`/`subprocess`, worker threads, the clock, the file system, sockets, random UUIDs and timers. The ADB path and the `ENABLE_BACKGROUND_TASKS` setting are constants.
- Task ids are counter naturals, not random UUIDs.
- Task records are values in a map, so aliasing of the task object between the registry and the listeners is not modelled.
- The unused `taskResults` and `taskTimeouts` maps of `TaskManager` are left out.
- ApkAnalysis.NewWorker: only POSIX path prefixes are modelled. Windows separators and `URL` objects are not, and neither is whether the script file exists.
- Dispatcher.ScriptFor: the `path.join` of the script name onto the `workers` directory is not modelled. Its normalisation of `.` and `..` segments can send two different task types (`command`, `./command`) to the same file.
- The retry's five-second pause and the `maxBuffer` limit of the command worker are not modelled.
- The `execute-adb` route of `index.js` streams the process output. Only the command line it builds is modelled.
- The status route's `:taskId` text is modelled as the task's id.
- A request body that is not a JSON object, an absent `command`, the failing branch of `executeTask`, and `parseInt` of a non-numeric `timeout` are not modelled.
- The log file path `logs/<taskId>.log` of `getTaskLogs` is not modelled. The file's content is a parameter.
- A `null` raw rejection makes the wait route's `catch` throw. The model sends nothing then, and what Express does next is not modelled.
- The proxy's background monitor thread is reduced to the `ProcessExited` step. Its line-by-line output collection is not modelled.
- The foreground `execute_command` stores the final state at once. The brief `running` entry is never observable under the global interpreter lock.
- The `kill()` code is the POSIX `-9`. The code after `terminate()` is a parameter.
- Python and V8 error texts are modelled as those runtimes word them. No other wording is covered.
- `deepMergeWithValidation` does not model prototype keys, inherited properties found by `in`, or the integer-first order of object keys.
- MergeContent: merging an object source into an array target ends in `NotModelled`. JavaScript completes that merge with an array carrying named properties, which the JSON values here cannot hold.
- Floating point is avoided. `calculateSimilarity > 0.9` is compared as a ratio, and `isBinary` as `10 * text < 7 * total`.
- String lengths count characters, not UTF-16 code units.
- `parseInt` precision above 2^53 is not modelled.
- The parts of `AdvancedLogger` outside the buffer and the parsers are left out: winston transports and formats, the rotation timer, `logSystemInfo` and `enableFullLogging`.
- `apkAnalyzer` is left out beyond its classifiers:
  - the worker scripts, the APK parser and the archive reader (the entry names are a parameter);
  - the certificate and native-library stubs;
  - `analyzeSecurityFeatures`, which is defined twice; the later definition wins.
- `StreamAnalyzer` is partly left out: `lineCount`, `wordCount` and `charCount`, `getResults`, `inferEncoding` and `calculateConfidence`.
- `fileManager.js` file I/O is left out: `readFile`, `writeFile`, `copyFile`, `moveFile`, `calculateHash`, `backupFile`, `listFiles`, `updateFile` and the `readLargeFile` back-pressure.
- `FileAnalyzer.js` leaves out analyzers that need a parser: JavaScript, Python, YAML, Word and PDF.
- `FileAnalyzer.Lookup`: an extension naming an inherited property of the type table (`constructor`) is not modelled, since extensions begin with `.`.
- ApkAnalysis.AnalyzePermissions: a truthy `permissions` value that is not a list of strings is not modelled.
- ProxyAdb.ParseDevices: the error is the word count of the bad line, not CPython's full `ValueError` text.

## Findings

| source | as written | input that shows it | evidently intended | confidence | as-written member | corrected member |
|---|---|---|---|---|---|---|
| fileManager.js:187-204 | `readChunk` passes the exclusive chunk end to `createReadStream`, whose `end` is inclusive | a file of 50 MiB + 1 bytes: chunk 0 is read as bytes 0..50 MiB inclusive, so byte 50 MiB is processed twice | chunks that meet end to start and concatenate to the file | not executed | FileManager.ChunksAsReadDuplicateByte | FileManager.IntendedChunksConcat |
| apkAnalyzer.js:19-50 | `new Worker` is given the worker's code as its file name without `{ eval: true }` | any machine where `os.cpus()` is non-empty: the first `new Worker` throws `ERR_WORKER_PATH`, so `new ApkAnalyzer()` throws | a pool of one worker per CPU running the inline code | not executed | ApkAnalysis.InlineCodePoolThrows | ApkAnalysis.EvalPoolBuilt |
| index.js:784-786 | the wait route answers a failed task with `error.message`, but the task rejects with its raw error string | a task whose worker raised `boom`: the wait route answers 500 with body `{}` | a 500 carrying the task's error | not executed | TaskApi.FailedTaskErrorLost | TaskApi.FailedTaskErrorReported |
