/**
 * `flask-proxy/app/routes/emulator.py`: the `/emulator/devices` route, which
 * lists the devices `adb devices` reports, and the `/emulator/execute` route,
 * which runs an `adb` command given in the request body.
 *
 * `subprocess.run` is not modelled: what it produced (or raised) is passed
 * in, for `execute_adb` as a function of the argument vector.
 */
module FlaskEmulator {
  import opened Wrappers
  import opened Strings
  import opened JsonValue
  import opened DeviceListing
  import opened Http
  import ProxyAdb

  /** What `subprocess.run` produced: the completed process, or the exception it raised. */
  datatype RunOutcome = Completed(stdout: string, stderr: string, returncode: int) | RunRaised(message: string)

  // ---------------------------------------------------------------------------
  // list_devices

  /** A line the loop gets past: blank, or exactly two tab-separated fields. */
  predicate ListableLine(line: string) {
    PyStrip(line) == "" || |Split(line, '\t')| == 2
  }

  /** Line `i` is the first line whose unpacking raises. */
  predicate FirstUnlistable(lines: seq<string>, i: nat)
    requires i < |lines|
  {
    !ListableLine(lines[i]) && forall j :: 0 <= j < i ==> ListableLine(lines[j])
  }

  /**
   * The devices of the lines after the header: blank lines are skipped, every
   * other line must split on tabs into exactly two fields, which are stripped.
   * The error is the field count of the first line that does not.
   */
  function ListedDevices(lines: seq<string>): (r: Result<seq<Entry>, nat>)
    ensures r.Ok? <==> forall i :: 0 <= i < |lines| ==> ListableLine(lines[i])
    ensures r.Err? ==> r.error != 2
    ensures r.Ok? ==> |r.value| <= |lines|
  {
    if |lines| == 0 then Ok([])
    else
      var init := lines[..|lines| - 1];
      assert forall i :: 0 <= i < |init| ==> init[i] == lines[i];
      var before := ListedDevices(init);
      var line := lines[|lines| - 1];
      if before.Err? then before
      else if PyStrip(line) == "" then before
      else
        var fields := Split(line, '\t');
        if |fields| != 2 then Err(|fields|)
        else Ok(before.value + [Entry(PyStrip(fields[0]), PyStrip(fields[1]))])
  }

  /** A failure reports the field count of the first line whose unpacking raises. */
  lemma {:induction false} ListedErrorIsFirst(lines: seq<string>)
    ensures ListedDevices(lines).Err? ==>
      exists i :: 0 <= i < |lines| && FirstUnlistable(lines, i) && ListedDevices(lines).error == |Split(lines[i], '\t')|
  {
    if |lines| > 0 && ListedDevices(lines).Err? {
      var init := lines[..|lines| - 1];
      assert forall i :: 0 <= i < |init| ==> init[i] == lines[i];
      ListedErrorIsFirst(init);
      if ListedDevices(init).Err? {
        var i :| 0 <= i < |init| && FirstUnlistable(init, i) && ListedDevices(init).error == |Split(init[i], '\t')|;
        assert FirstUnlistable(lines, i);
      } else {
        assert FirstUnlistable(lines, |lines| - 1);
      }
    }
  }

  /** `{'serial': …, 'status': …}`. */
  function DeviceJson(e: Entry): Json {
    JObj([Field("serial", JStr(e.serial)), Field("status", JStr(e.state))])
  }

  function DevicesJson(entries: seq<Entry>): (js: seq<Json>)
    ensures |js| == |entries| && forall i :: 0 <= i < |entries| ==> js[i] == DeviceJson(entries[i])
  {
    seq(|entries|, i requires 0 <= i < |entries| => DeviceJson(entries[i]))
  }

  lemma DevicesJsonAppend(entries: seq<Entry>, e: Entry)
    ensures DevicesJson(entries + [e]) == DevicesJson(entries) + [DeviceJson(e)]
  {
  }

  /** Once a line fails to unpack, later lines do not change the outcome. */
  lemma {:induction false} ListedErrorStays(lines: seq<string>, k: nat)
    requires k <= |lines| && ListedDevices(lines[..k]).Err?
    ensures ListedDevices(lines) == ListedDevices(lines[..k])
    decreases |lines| - k
  {
    if k < |lines| {
      assert lines[..k + 1][..k] == lines[..k];
      ListedErrorStays(lines, k + 1);
    } else {
      assert lines[..k] == lines;
    }
  }

  /**
   * `list_devices`: `{'devices': [...]}` with one object per kept line, or a
   * 500 carrying the message of the exception `subprocess.run` or the
   * unpacking raised.
   */
  method ListDevices(run: RunOutcome) returns (reply: Response)
    ensures run.RunRaised? ==> reply == Response(500, ErrorBody(run.message))
    ensures run.Completed? ==>
      match ListedDevices(DeviceLines(run.stdout))
      case Ok(entries) => reply == Response(200, JObj([Field("devices", JArr(DevicesJson(entries)))]))
      case Err(n) => reply == Response(500, ErrorBody(UnpackMessage(n)))
  {
    match run {
      case RunRaised(message) =>
        return Response(500, ErrorBody(message));
      case Completed(stdout, _, _) =>
        var lines := DeviceLines(stdout);
        ghost var entries: seq<Entry> := [];
        var devices: seq<Json> := [];
        for i := 0 to |lines|
          invariant ListedDevices(lines[..i]) == Ok(entries) && devices == DevicesJson(entries)
        {
          ListedStep(lines, i, entries);
          var line := lines[i];
          if PyStrip(line) != "" {
            var fields := Split(line, '\t');
            if |fields| != 2 {
              ListedErrorStays(lines, i + 1);
              assert lines[..|lines|] == lines;
              return Response(500, ErrorBody(UnpackMessage(|fields|)));
            }
            var e := Entry(PyStrip(fields[0]), PyStrip(fields[1]));
            DevicesJsonAppend(entries, e);
            devices := devices + [DeviceJson(e)];
            entries := entries + [e];
          }
        }
        assert lines[..|lines|] == lines;
        reply := Response(200, JObj([Field("devices", JArr(devices))]));
    }
  }

  /** One more line: skipped when blank, rejected unless it has exactly two tab-separated fields, else listed. */
  lemma ListedStep(lines: seq<string>, i: nat, entries: seq<Entry>)
    requires i < |lines| && ListedDevices(lines[..i]) == Ok(entries)
    ensures PyStrip(lines[i]) == "" ==> ListedDevices(lines[..i + 1]) == Ok(entries)
    ensures PyStrip(lines[i]) != "" && |Split(lines[i], '\t')| != 2 ==>
      ListedDevices(lines[..i + 1]) == Err(|Split(lines[i], '\t')|)
    ensures PyStrip(lines[i]) != "" && |Split(lines[i], '\t')| == 2 ==>
      var fields := Split(lines[i], '\t');
      ListedDevices(lines[..i + 1]) == Ok(entries + [Entry(PyStrip(fields[0]), PyStrip(fields[1]))])
  {
    assert lines[..i + 1][..i] == lines[..i];
  }

  /** The lines of `adb devices` output list every device, duplicates included, in order. */
  lemma {:induction false} EntryLinesListed(entries: seq<Entry>)
    requires WellFormed(entries)
    ensures ListedDevices(EntryLines(entries)) == Ok(entries)
  {
    if |entries| > 0 {
      var n := |entries| - 1;
      WellFormedInit(entries);
      EntryLinesListed(entries[..n]);
      ListedLast(entries);
    }
  }

  /** The last device line appends the last device. */
  lemma ListedLast(entries: seq<Entry>)
    requires |entries| > 0
    requires ListedDevices(EntryLines(entries[..|entries| - 1])) == Ok(entries[..|entries| - 1])
    requires IsWord(entries[|entries| - 1].serial) && IsWord(entries[|entries| - 1].state)
    ensures ListedDevices(EntryLines(entries)) == Ok(entries)
  {
    var n := |entries| - 1;
    EntryLinesInit(entries);
    ListedDeviceLine(EntryLines(entries), entries[..n], entries[n]);
  }

  /** A device line after lines that list cleanly appends that device. */
  lemma ListedDeviceLine(lines: seq<string>, before: seq<Entry>, e: Entry)
    requires |lines| > 0 && ListedDevices(lines[..|lines| - 1]) == Ok(before)
    requires IsWord(e.serial) && IsWord(e.state) && lines[|lines| - 1] == EntryLine(e)
    ensures ListedDevices(lines) == Ok(before + [e])
  {
    EntryLineNotBlank(e);
    EntryLineFields(e);
    WordTrimsToItself(e.serial);
    WordTrimsToItself(e.state);
  }

  /** `list_devices` on the output of `adb devices` reports each listed device with its state, in order. */
  lemma ListingListed(entries: seq<Entry>)
    requires WellFormed(entries)
    ensures ListedDevices(DeviceLines(Listing(entries))) == Ok(entries)
  {
    var lines := DeviceLines(Listing(entries));
    ListingLines(entries);
    var m := |entries|;
    assert lines[..m] == EntryLines(entries);
    assert lines[..m + 1][..m] == lines[..m];
    assert lines[..m + 2] == lines;
    EntryLinesListed(entries);
    assert PyStrip(lines[m]) == "" && PyStrip(lines[m + 1]) == "";
  }

  /** A line with no tab, or with two, is a 500 however the rest of the listing looks. */
  lemma BadLineRejected(before: seq<string>, line: string, after: seq<string>)
    requires ListedDevices(before).Ok? && PyStrip(line) != "" && |Split(line, '\t')| != 2
    ensures ListedDevices(before + [line] + after) == Err(|Split(line, '\t')|)
  {
    var lines := before + [line] + after;
    var k := |before| + 1;
    assert lines[..k] == before + [line];
    assert lines[..k][..k - 1] == before;
    ListedErrorStays(lines, k);
  }

  // ---------------------------------------------------------------------------
  // execute_adb

  /** `data.get(key)`: the property's value, or `None`, written `JNull`. */
  function PyGet(data: seq<Field>, key: string): Json {
    match Get(data, key)
    case None => JNull
    case Some(v) => v
  }

  /** Python truthiness of a decoded JSON value. */
  predicate PyTruthy(j: Json) {
    match j
    case JNull => false
    case JBool(b) => b
    case JNum(n) => n != 0
    case JStr(s) => s != ""
    case JArr(items) => |items| > 0
    case JObj(fields) => |fields| > 0
  }

  /** The Python type name of a decoded JSON value. */
  function PyTypeName(j: Json): string {
    match j
    case JNull => "NoneType"
    case JBool(_) => "bool"
    case JNum(_) => "int"
    case JStr(_) => "str"
    case JArr(_) => "list"
    case JObj(_) => "dict"
  }

  /** The reply for a command that ran: its streams and return code, verbatim. */
  function RunReply(o: RunOutcome): (r: Response)
    ensures r.Response? && (r.status == 200 <==> o.Completed?)
    ensures o.Completed? ==> r.body == JObj([
      Field("stdout", JStr(o.stdout)), Field("stderr", JStr(o.stderr)), Field("returncode", JNum(o.returncode))])
    ensures o.RunRaised? ==> r == Response(500, ErrorBody(o.message))
  {
    match o
    case Completed(stdout, stderr, code) =>
      Response(200, JObj([Field("stdout", JStr(stdout)), Field("stderr", JStr(stderr)), Field("returncode", JNum(code))]))
    case RunRaised(message) => Response(500, ErrorBody(message))
  }

  /**
   * `execute_adb` for a JSON object body. A falsy `command` is a 400 and runs
   * nothing; a truthy command that is not a string fails in `split` with a
   * 500. Otherwise `adb`, then `-s <device>` for a truthy string device, then
   * the command's words are run. A truthy device that is not a string makes
   * `subprocess.run` raise its `TypeError`.
   */
  method ExecuteAdb(data: seq<Field>, run: seq<string> -> RunOutcome) returns (ran: Option<seq<string>>, reply: Response)
    ensures var command := PyGet(data, "command");
      !PyTruthy(command) ==> ran == None && reply == Response(400, ErrorBody("No command provided"))
    ensures var command := PyGet(data, "command");
      PyTruthy(command) && !command.JStr? ==>
        ran == None && reply == Response(500, ErrorBody("'" + PyTypeName(command) + "' object has no attribute 'split'"))
    ensures var command := PyGet(data, "command");
      var device := PyGet(data, "device");
      PyTruthy(command) && command.JStr? && PyTruthy(device) && !device.JStr? ==>
        ran == None &&
        reply == Response(500, ErrorBody("expected str, bytes or os.PathLike object, not " + PyTypeName(device)))
    ensures var command := PyGet(data, "command");
      var device := PyGet(data, "device");
      PyTruthy(command) && command.JStr? && (device.JStr? || !PyTruthy(device)) ==>
        var argv := ProxyAdb.CommandVector("adb", command.s, if device.JStr? then Some(device.s) else None);
        ran == Some(argv) && reply == RunReply(run(argv))
  {
    var command := PyGet(data, "command");
    var device := PyGet(data, "device");
    if !PyTruthy(command) {
      return None, Response(400, ErrorBody("No command provided"));
    }
    var cmd := ["adb"];
    if PyTruthy(device) {
      if !device.JStr? {
        if !command.JStr? {
          return None, Response(500, ErrorBody("'" + PyTypeName(command) + "' object has no attribute 'split'"));
        }
        return None, Response(500, ErrorBody("expected str, bytes or os.PathLike object, not " + PyTypeName(device)));
      }
      cmd := cmd + ["-s", device.s];
    }
    if !command.JStr? {
      return None, Response(500, ErrorBody("'" + PyTypeName(command) + "' object has no attribute 'split'"));
    }
    cmd := cmd + PySplit(command.s);
    assert cmd == ProxyAdb.CommandVector("adb", command.s, if device.JStr? then Some(device.s) else None);
    ran := Some(cmd);
    reply := RunReply(run(cmd));
  }
}
