/**
 * `services/EmulatorService.js`: the shell command line `executeAdbCommand`
 * runs, and the device list `checkEmulatorStatus` reads from `adb devices`.
 * `index.js` builds the same command line for its `execute-adb` route and
 * parses the listing with the same chain in its own `checkEmulatorStatus`.
 * The two differ where the chain throws: the service method is `async`, so
 * the throw rejects its promise, while `index.js` runs the chain inside the
 * `exec` callback, where nothing catches it and the process goes down.
 * `IndexCheckEmulatorStatus` models that second variant.
 *
 * Running the shell is not modelled: what `exec` produced for the command
 * line is passed in.
 */
module EmulatorService {
  import opened Wrappers
  import opened Strings
  import opened DeviceListing
  import ProxyAdb

  // ---------------------------------------------------------------------------
  // The command line

  /** `adb -s <serial> <command>` when the serial is a non-empty string, `adb <command>` otherwise. */
  function AdbCommandLine(command: string, serial: Option<string>): (line: string)
    ensures |line| >= 4 + |command| && line[..4] == "adb " && line[|line| - |command|..] == command
  {
    if serial.Some? && serial.value != "" then "adb -s " + serial.value + " " + command
    else "adb " + command
  }

  /** Giving a serial is the same as putting `-s <serial>` in front of the command. */
  lemma SerialIsOption(command: string, serial: string)
    requires serial != ""
    ensures AdbCommandLine(command, Some(serial)) == AdbCommandLine("-s " + serial + " " + command, None)
  {
  }

  /**
   * When the serial has no whitespace, the words of the shell command line
   * are exactly the argument vector the Python proxy builds for `adb`.
   */
  lemma CommandLineWords(command: string, serial: Option<string>)
    requires serial.Some? ==> forall i :: 0 <= i < |serial.value| ==> !IsPySpace(serial.value[i])
    ensures PySplit(AdbCommandLine(command, serial)) == ProxyAdb.CommandVector("adb", command, serial)
  {
    if serial.Some? && serial.value != "" {
      SerialLineWords(command, serial.value);
    } else {
      BareLineWords(command);
    }
  }

  /** The words of `adb <command>`. */
  lemma BareLineWords(command: string)
    ensures PySplit("adb " + command) == ["adb"] + PySplit(command)
  {
    AdbWords();
    PySplitAtSpace("adb", ' ', command);
    assert "adb" + [' '] + command == "adb " + command;
  }

  /** The words of `adb -s <serial> <command>` for a serial without whitespace. */
  lemma SerialLineWords(command: string, s: string)
    requires |s| > 0 && forall i :: 0 <= i < |s| ==> !IsPySpace(s[i])
    ensures PySplit("adb -s " + s + " " + command) == ["adb", "-s", s] + PySplit(command)
  {
    var t1 := s + [' '] + command;
    var t2 := "-s" + [' '] + t1;
    var t3 := "adb" + [' '] + t2;
    assert PySplit(t1) == [s] + PySplit(command) by {
      PySplitWord(s);
      PySplitAtSpace(s, ' ', command);
    }
    assert PySplit(t2) == ["-s"] + PySplit(t1) by {
      AdbWords();
      PySplitAtSpace("-s", ' ', t1);
    }
    assert PySplit(t3) == ["adb"] + PySplit(t2) by {
      AdbWords();
      PySplitAtSpace("adb", ' ', t2);
    }
    SerialLineShape(command, s);
  }

  /** The fixed words of the command line are single words. */
  lemma AdbWords()
    ensures PySplit("adb") == ["adb"] && PySplit("-s") == ["-s"]
  {
    PySplitWord("adb");
    PySplitWord("-s");
  }

  /** The command line with a serial, spelled as words and single spaces. */
  lemma SerialLineShape(command: string, s: string)
    ensures "adb" + [' '] + ("-s" + [' '] + (s + [' '] + command)) == "adb -s " + s + " " + command
  {
  }

  /** What `exec` gave for a command line: its two output streams, or the error it rejected with. */
  datatype ExecOutcome = ExecDone(stdout: string, stderr: string) | ExecFailed(message: string)

  /** The object `executeAdbCommand` resolves with. */
  datatype CommandOutput = CommandOutput(output: string, error: string)

  /** `executeAdbCommand`: the streams of the command line, or the rejection passed on. */
  function ExecuteAdbCommand(command: string, serial: Option<string>, exec: string -> ExecOutcome)
    : (r: Result<CommandOutput, string>)
    ensures var o := exec(AdbCommandLine(command, serial));
      (r.Ok? <==> o.ExecDone?) &&
      (r.Ok? ==> r.value == CommandOutput(o.stdout, o.stderr)) &&
      (r.Err? ==> r.error == o.message)
  {
    match exec(AdbCommandLine(command, serial))
    case ExecDone(stdout, stderr) => Ok(CommandOutput(stdout, stderr))
    case ExecFailed(message) => Err(message)
  }

  // ---------------------------------------------------------------------------
  // The device list

  /** One element of `devices`. */
  datatype Device = Device(serial: string, status: string, isTarget: bool)

  /** The object `checkEmulatorStatus` resolves with; a missing target is `null`. */
  datatype EmulatorStatus = EmulatorStatus(devices: seq<Device>, targetDevice: Option<Device>)

  /** The `TypeError` V8 raises for `status.trim()` when `status` is `undefined`. */
  const UndefinedTrim := "Cannot read properties of undefined (reading 'trim')"

  /** `.filter(line => line.trim())`: the lines with a non-space character, in order. */
  function NonBlankLines(lines: seq<string>): (kept: seq<string>)
    ensures |kept| <= |lines|
    ensures forall l :: l in kept <==> l in lines && JsTrim(l) != ""
  {
    if |lines| == 0 then []
    else
      var rest := NonBlankLines(lines[1..]);
      assert forall l :: l in lines <==> l == lines[0] || l in lines[1..];
      if JsTrim(lines[0]) != "" then [lines[0]] + rest else rest
  }

  /** A single line is kept exactly when it is not blank. */
  lemma NonBlankLinesOne(line: string)
    ensures NonBlankLines([line]) == if JsTrim(line) != "" then [line] else []
  {
  }

  /**
   * The filter works line by line: filtering two runs of lines one after the
   * other is filtering each run. With `NonBlankLinesOne` this pins down the
   * result completely, order and repeated lines included.
   */
  lemma {:induction false} NonBlankLinesAppend(a: seq<string>, b: seq<string>)
    ensures NonBlankLines(a + b) == NonBlankLines(a) + NonBlankLines(b)
  {
    if |a| > 0 {
      assert (a + b)[0] == a[0] && (a + b)[1..] == a[1..] + b;
      NonBlankLinesAppend(a[1..], b);
    } else {
      assert a + b == b;
    }
  }

  /**
   * The `.map` callback: the trimmed first and second tab-separated fields,
   * and whether the serial is the one asked for. A line without a tab has no
   * second field, and trimming it throws.
   */
  function DeviceOf(line: string, serial: Option<string>): (r: Result<Device, string>)
    ensures r.Err? <==> '\t' !in line
    ensures r.Err? ==> r.error == UndefinedTrim
    ensures r.Ok? ==> (r.value.isTarget <==> serial == Some(r.value.serial))
    ensures r.Ok? ==> '\t' !in r.value.serial && '\t' !in r.value.status
  {
    var fields := Split(line, '\t');
    if |fields| < 2 then Err(UndefinedTrim)
    else
      var id := JsTrim(fields[0]);
      assert forall k :: 0 <= k < |id| ==> id[k] in fields[0];
      assert forall k :: 0 <= k < |JsTrim(fields[1])| ==> JsTrim(fields[1])[k] in fields[1];
      Ok(Device(id, JsTrim(fields[1]), serial == Some(id)))
  }

  /** The whole `.map`: one device per line in order, or the first line's error. */
  function DevicesOf(lines: seq<string>, serial: Option<string>): (r: Result<seq<Device>, string>)
    ensures r.Ok? <==> forall i :: 0 <= i < |lines| ==> '\t' in lines[i]
    ensures r.Err? ==> r.error == UndefinedTrim
    ensures r.Ok? ==> |r.value| == |lines|
    ensures r.Ok? ==> forall i :: 0 <= i < |lines| ==> r.value[i] == DeviceOf(lines[i], serial).value
  {
    if |lines| == 0 then Ok([])
    else
      var first := DeviceOf(lines[0], serial);
      if first.Err? then Err(first.error)
      else
        var rest := DevicesOf(lines[1..], serial);
        assert forall i :: 1 <= i < |lines| ==> lines[i] == lines[1..][i - 1];
        if rest.Err? then rest else Ok([first.value] + rest.value)
  }

  /** `devices.find(d => d.isTarget) || null`. */
  function FindTarget(devices: seq<Device>): (r: Option<Device>)
    ensures r.None? <==> forall i :: 0 <= i < |devices| ==> !devices[i].isTarget
    ensures r.Some? ==> r.value.isTarget
    ensures r.Some? ==> exists i :: 0 <= i < |devices| && devices[i] == r.value &&
                          forall j :: 0 <= j < i ==> !devices[j].isTarget
  {
    if |devices| == 0 then None
    else if devices[0].isTarget then Some(devices[0])
    else
      var r := FindTarget(devices[1..]);
      assert forall i :: 1 <= i < |devices| ==> devices[i] == devices[1..][i - 1];
      r
  }

  /**
   * `checkEmulatorStatus` on the text `adb devices` printed: one device per
   * non-blank line after the header, in order, and the first device whose
   * serial is the one asked for as the target; a non-blank line without a
   * tab makes the whole call fail with the `trim` TypeError.
   */
  function CheckEmulatorStatus(serial: Option<string>, stdout: string): (r: Result<EmulatorStatus, string>)
    ensures var lines := NonBlankLines(DeviceLines(stdout));
      (r.Ok? <==> forall i :: 0 <= i < |lines| ==> '\t' in lines[i]) &&
      (r.Err? ==> r.error == UndefinedTrim) &&
      (r.Ok? ==> |r.value.devices| == |lines|) &&
      (r.Ok? ==> forall i :: 0 <= i < |lines| ==> r.value.devices[i] == DeviceOf(lines[i], serial).value)
    ensures r.Ok? && r.value.targetDevice.None? ==>
      forall i :: 0 <= i < |r.value.devices| ==> serial != Some(r.value.devices[i].serial)
    ensures r.Ok? && r.value.targetDevice.Some? ==>
      serial == Some(r.value.targetDevice.value.serial) &&
      exists i :: 0 <= i < |r.value.devices| && r.value.devices[i] == r.value.targetDevice.value &&
        forall j :: 0 <= j < i ==> serial != Some(r.value.devices[j].serial)
  {
    var lines := NonBlankLines(DeviceLines(stdout));
    match DevicesOf(lines, serial)
    case Err(e) => Err(e)
    case Ok(devices) => Ok(EmulatorStatus(devices, FindTarget(devices)))
  }

  /**
   * How `index.js`'s own `checkEmulatorStatus` ends: the promise rejects with
   * `exec`'s error, resolves with the parsed listing, or, when the listing
   * has a non-blank line without a tab, never settles because the `trim`
   * TypeError escapes the `exec` callback and the process crashes.
   */
  datatype CallbackOutcome = Resolves(status: EmulatorStatus) | Rejects(reason: string) | Crashes(error: string)

  /** `checkEmulatorStatus` of `index.js`, given what `exec('adb devices')` produced. */
  function IndexCheckEmulatorStatus(serial: string, exec: ExecOutcome): (r: CallbackOutcome)
    ensures r.Rejects? <==> exec.ExecFailed?
    ensures r.Rejects? ==> r.reason == exec.message
    ensures exec.ExecDone? ==> (r.Crashes? <==> CheckEmulatorStatus(Some(serial), exec.stdout).Err?)
    ensures r.Crashes? ==> r.error == UndefinedTrim
    ensures r.Resolves? ==> Ok(r.status) == CheckEmulatorStatus(Some(serial), exec.stdout)
  {
    match exec
    case ExecFailed(message) => Rejects(message)
    case ExecDone(stdout, _) =>
      var parsed := CheckEmulatorStatus(Some(serial), stdout);
      if parsed.Ok? then Resolves(parsed.value) else Crashes(parsed.error)
  }

  /** The devices a well-formed listing describes, in order, flagged against `serial`. */
  function DevicesFor(entries: seq<Entry>, serial: Option<string>): (ds: seq<Device>)
    ensures |ds| == |entries|
    ensures forall i :: 0 <= i < |entries| ==>
      ds[i] == Device(entries[i].serial, entries[i].state, serial == Some(entries[i].serial))
  {
    seq(|entries|, i requires 0 <= i < |entries| =>
      Device(entries[i].serial, entries[i].state, serial == Some(entries[i].serial)))
  }

  /** The filter drops the trailing empty strings and keeps every device line. */
  lemma {:induction false} NonBlankDropsTail(lines: seq<string>)
    requires forall i :: 0 <= i < |lines| ==> JsTrim(lines[i]) != ""
    ensures NonBlankLines(lines + ["", ""]) == lines
  {
    if |lines| == 0 {
      assert JsTrim("") == "";
      assert ["", ""][1..] == [""];
    } else {
      assert (lines + ["", ""])[1..] == lines[1..] + ["", ""];
      NonBlankDropsTail(lines[1..]);
      assert lines == [lines[0]] + lines[1..];
    }
  }

  /**
   * `checkEmulatorStatus` on the output of `adb devices`: one device per
   * listed device, in order, with its serial and state; the target is the
   * first device whose serial is the one asked for, and there is none when no
   * listed serial matches.
   */
  lemma StatusOfListing(entries: seq<Entry>, serial: Option<string>)
    requires WellFormed(entries)
    ensures CheckEmulatorStatus(serial, Listing(entries)) ==
      Ok(EmulatorStatus(DevicesFor(entries, serial), FindTarget(DevicesFor(entries, serial))))
    ensures FindTarget(DevicesFor(entries, serial)).None? <==>
      forall i :: 0 <= i < |entries| ==> serial != Some(entries[i].serial)
  {
    ListingLines(entries);
    var lines := EntryLines(entries);
    forall i | 0 <= i < |lines|
      ensures JsTrim(lines[i]) != "" && '\t' in lines[i]
      ensures DeviceOf(lines[i], serial) == Ok(DevicesFor(entries, serial)[i])
    {
      var e := entries[i];
      EntryLineNotBlank(e);
      EntryLineFields(e);
      WordTrimsToItself(e.serial);
      WordTrimsToItself(e.state);
      assert EntryLine(e)[|e.serial|] == '\t';
    }
    NonBlankDropsTail(lines);
    var r := DevicesOf(lines, serial);
    assert r.Ok?;
    assert r.value == DevicesFor(entries, serial);
  }
}
