/**
 * The text `adb devices` prints, which three parsers in the repository read:
 * a header line, one `<serial><TAB><state>` line per device, each ended by a
 * newline, and a final empty line. The lemmas say what each parser's line
 * handling (JavaScript `trim` and `split('\t')`, Python `strip`, `split('\t')`
 * and `split()`) does with such text.
 */
module DeviceListing {
  import opened Strings

  const Header := "List of devices attached"

  /** One attached device as adb reports it. */
  datatype Entry = Entry(serial: string, state: string)

  /** A serial or a state as adb prints it: non-empty and free of whitespace in either language's sense. */
  predicate IsWord(s: string) {
    |s| > 0 && Unspaced(s)
  }

  /** No character of `s` is whitespace for JavaScript or Python. */
  predicate Unspaced(s: string)
    decreases |s|
  {
    |s| == 0 || (!IsJsSpace(s[0]) && !IsPySpace(s[0]) && Unspaced(s[1..]))
  }

  lemma {:induction false} UnspacedChars(s: string)
    requires Unspaced(s)
    ensures forall i :: 0 <= i < |s| ==> !IsJsSpace(s[i]) && !IsPySpace(s[i])
    decreases |s|
  {
    if |s| > 0 {
      UnspacedChars(s[1..]);
      assert forall i :: 1 <= i < |s| ==> s[i] == s[1..][i - 1];
    }
  }

  predicate WellFormed(entries: seq<Entry>) {
    forall i :: 0 <= i < |entries| ==> IsWord(entries[i].serial) && IsWord(entries[i].state)
  }

  lemma WellFormedInit(entries: seq<Entry>)
    requires |entries| > 0 && WellFormed(entries)
    ensures WellFormed(entries[..|entries| - 1])
    ensures IsWord(entries[|entries| - 1].serial) && IsWord(entries[|entries| - 1].state)
  {
  }

  /** The lines of all but the last device are the first lines of the whole listing. */
  lemma EntryLinesInit(entries: seq<Entry>)
    requires |entries| > 0
    ensures EntryLines(entries)[..|entries| - 1] == EntryLines(entries[..|entries| - 1])
    ensures entries[..|entries| - 1] + [entries[|entries| - 1]] == entries
  {
  }

  function EntryLine(e: Entry): string {
    e.serial + "\t" + e.state
  }

  function EntryLines(entries: seq<Entry>): (lines: seq<string>)
    ensures |lines| == |entries|
    ensures forall i :: 0 <= i < |entries| ==> lines[i] == EntryLine(entries[i])
  {
    seq(|entries|, i requires 0 <= i < |entries| => EntryLine(entries[i]))
  }

  /** The whole output: the header, the device lines, each line ended by a newline, then an empty line. */
  function Listing(entries: seq<Entry>): string {
    Join([Header] + EntryLines(entries) + ["", ""], '\n')
  }

  /** The lines after the header, which every parser skips. */
  function DeviceLines(stdout: string): seq<string> {
    Split(stdout, '\n')[1..]
  }

  /** A word has no newline and no tab. */
  lemma WordHasNoSeparators(s: string)
    requires IsWord(s)
    ensures '\n' !in s && '\t' !in s
  {
    UnspacedChars(s);
  }

  /** A device line holds no newline. */
  lemma EntryLineOneLine(e: Entry)
    requires IsWord(e.serial) && IsWord(e.state)
    ensures '\n' !in EntryLine(e)
  {
    WordHasNoSeparators(e.serial);
    WordHasNoSeparators(e.state);
  }

  /** No part of the listing holds a newline. */
  lemma ListingPartsOneLine(entries: seq<Entry>)
    requires WellFormed(entries)
    ensures var parts := [Header] + EntryLines(entries) + ["", ""];
      forall i :: 0 <= i < |parts| ==> '\n' !in parts[i]
  {
    var parts := [Header] + EntryLines(entries) + ["", ""];
    forall i | 0 <= i < |parts|
      ensures '\n' !in parts[i]
    {
      if 1 <= i <= |entries| {
        assert parts[i] == EntryLine(entries[i - 1]);
        EntryLineOneLine(entries[i - 1]);
      }
    }
  }

  /** The lines after the header are the device lines followed by two empty strings. */
  lemma ListingLines(entries: seq<Entry>)
    requires WellFormed(entries)
    ensures DeviceLines(Listing(entries)) == EntryLines(entries) + ["", ""]
  {
    var parts := [Header] + EntryLines(entries) + ["", ""];
    assert Split(Listing(entries), '\n') == parts by {
      ListingPartsOneLine(entries);
      SplitJoin(parts, '\n');
    }
    assert parts[1..] == EntryLines(entries) + ["", ""];
  }

  /** A word is left alone by JavaScript `trim()` and Python `strip()`. */
  lemma WordTrimsToItself(s: string)
    requires IsWord(s)
    ensures JsTrim(s) == s && PyStrip(s) == s
  {
    UnspacedChars(s);
    TrimUnspaced(s, IsJsSpace);
    TrimUnspaced(s, IsPySpace);
  }

  /** A device line is not blank for either language. */
  lemma EntryLineNotBlank(e: Entry)
    requires IsWord(e.serial) && IsWord(e.state)
    ensures JsTrim(EntryLine(e)) != "" && PyStrip(EntryLine(e)) != ""
  {
    var line := EntryLine(e);
    UnspacedChars(e.serial);
    UnspacedChars(e.state);
    assert line[0] == e.serial[0];
    assert line[|line| - 1] == e.state[|e.state| - 1];
    TrimUnspaced(line, IsJsSpace);
    TrimUnspaced(line, IsPySpace);
  }

  /** `line.split('\t')` on a device line gives the serial and the state. */
  lemma EntryLineFields(e: Entry)
    requires IsWord(e.serial) && IsWord(e.state)
    ensures Split(EntryLine(e), '\t') == [e.serial, e.state]
  {
    WordHasNoSeparators(e.serial);
    WordHasNoSeparators(e.state);
    var parts := [e.serial, e.state];
    assert Join(parts, '\t') == e.serial + ['\t'] + Join(parts[1..], '\t');
    assert parts[1..] == [e.state];
    assert Join(parts, '\t') == EntryLine(e);
    SplitJoin(parts, '\t');
  }

  /** `line.split()` on a device line gives the serial and the state. */
  lemma EntryLineWords(e: Entry)
    requires IsWord(e.serial) && IsWord(e.state)
    ensures PySplit(EntryLine(e)) == [e.serial, e.state]
  {
    UnspacedChars(e.serial);
    UnspacedChars(e.state);
    PySplitAtSpace(e.serial, '\t', e.state);
    assert e.serial + ['\t'] + e.state == EntryLine(e);
    PySplitWord(e.serial);
    PySplitWord(e.state);
  }

  /** CPython's message when unpacking `n` values into two names fails. */
  function UnpackMessage(n: nat): string
    requires n != 2
  {
    if n < 2 then "not enough values to unpack (expected 2, got " + NatToString(n) + ")"
    else "too many values to unpack (expected 2)"
  }
}
