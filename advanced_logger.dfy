/**
 * The unit parsers and the message buffer of `AdvancedLogger.js`.
 *
 * `convertSize` reads sizes such as `10m` and `parseInterval` durations such
 * as `1d`; both lower-case their argument first and reject anything else with
 * an error naming the original text. `log` collects messages and hands the
 * whole buffer to the logger once it holds `bufferSize` (100) of them;
 * `flushLogs` hands over whatever is buffered.
 */
module Logging {
  import opened Wrappers
  import opened Strings

  // ---------------------------------------------------------------------------
  // Sizes

  /** The multiplier `unitMap` gives a size unit. */
  function SizeFactor(unit: char): nat
    requires unit in "kmg"
  {
    if unit == 'k' then 1024 else if unit == 'm' then 1024 * 1024 else 1024 * 1024 * 1024
  }

  /** The regular expression `^(\d+)([kmg])?$` on the lower-cased text. */
  predicate IsSizeText(l: string) {
    (|l| > 0 && AllDigits(l)) ||
    (|l| >= 2 && AllDigits(l[..|l| - 1]) && l[|l| - 1] in "kmg")
  }

  /**
   * `convertSize`: the digits' value times the unit's multiplier (1 without a
   * unit), or `Invalid size format: <size>`.
   */
  function ConvertSize(size: string): (r: Result<nat, string>)
    ensures r.Err? <==> !IsSizeText(LowerStringForMatch(size))
    ensures r.Err? ==> r.error == "Invalid size format: " + size
    ensures r.Ok? && AllDigits(LowerStringForMatch(size)) ==> r.value == DigitsValue(LowerStringForMatch(size))
  {
    var l := LowerStringForMatch(size);
    if |l| > 0 && AllDigits(l) then Ok(DigitsValue(l))
    else if |l| >= 2 && AllDigits(l[..|l| - 1]) && l[|l| - 1] in "kmg" then
      Ok(DigitsValue(l[..|l| - 1]) * SizeFactor(l[|l| - 1]))
    else Err("Invalid size format: " + size)
  }

  /** Lower-casing leaves digits and lower-case letters alone. */
  lemma LowerOfDigitsAndUnit(digits: string, unit: string)
    requires AllDigits(digits)
    requires forall i :: 0 <= i < |unit| ==> 'a' <= unit[i] <= 'z'
    ensures LowerStringForMatch(digits + unit) == digits + unit
  {
  }

  /** A rendered number with or without a unit reads back as that many bytes. */
  lemma {:induction false} SizeRoundTrip(n: nat, unit: string)
    requires unit == "" || (|unit| == 1 && unit[0] in "kmg")
    ensures ConvertSize(NatToString(n) + unit) == Ok(n * (if unit == "" then 1 else SizeFactor(unit[0])))
  {
    var s := NatToString(n) + unit;
    LowerOfDigitsAndUnit(NatToString(n), unit);
    DigitsValueOfNatToString(n);
    if unit != "" {
      assert s[..|s| - 1] == NatToString(n);
      assert !IsDigit(s[|s| - 1]);
    } else {
      assert s == NatToString(n);
    }
  }

  /**
   * Any run of digits, leading zeros included, read in base 10, times the
   * multiplier of a unit written in either case (`007m`, `10M`, `2G`).
   */
  lemma {:induction false} SizeOfDigits(digits: string, unit: string)
    requires |digits| > 0 && AllDigits(digits)
    requires unit == "" || (|unit| == 1 && LowerForMatch(unit[0]) in "kmg")
    ensures ConvertSize(digits + unit) ==
      Ok(DigitsValue(digits) * (if unit == "" then 1 else SizeFactor(LowerForMatch(unit[0]))))
  {
    var s := digits + unit;
    var l := LowerStringForMatch(s);
    assert l[..|digits|] == digits by {
      forall i | 0 <= i < |digits|
        ensures l[..|digits|][i] == digits[i]
      {
        assert s[i] == digits[i] && IsDigit(digits[i]);
      }
    }
    if unit == "" {
      assert l == l[..|digits|];
    } else {
      assert l[|l| - 1] == LowerForMatch(unit[0]);
      assert !IsDigit(l[|l| - 1]);
    }
  }

  /** The unit is case-insensitive: `10M` is the same size as `10m`. */
  lemma UpperUnitAccepted(n: nat)
    ensures ConvertSize(NatToString(n) + "M") == ConvertSize(NatToString(n) + "m")
  {
    var d := NatToString(n);
    assert LowerStringForMatch(d + "M") == d + "m" by {
      assert forall i :: 0 <= i < |d| ==> (d + "M")[i] == d[i];
    }
    LowerOfDigitsAndUnit(d, "m");
  }

  /** Text without digits before the unit, or with a unit outside k/m/g, is rejected. */
  lemma SizeRejections(n: nat)
    ensures ConvertSize("").Err? && ConvertSize("m").Err?
    ensures ConvertSize(NatToString(n) + "t") == Err("Invalid size format: " + NatToString(n) + "t")
  {
    var s := NatToString(n) + "t";
    LowerOfDigitsAndUnit(NatToString(n), "t");
    assert !AllDigits(s) by { assert !IsDigit(s[|s| - 1]); }
    assert s[|s| - 1] == 't' && 't' !in "kmg";
    assert LowerStringForMatch("m") == "m";
    assert !IsDigit("m"[0]);
    assert "Invalid size format: " + NatToString(n) + "t" == "Invalid size format: " + s;
  }

  // ---------------------------------------------------------------------------
  // Intervals

  /** The milliseconds `units` gives an interval unit. */
  function IntervalFactor(unit: char): nat
    requires unit in "smhd"
  {
    match unit
    case 's' => 1000
    case 'm' => 60000
    case 'h' => 3600000
    case _ => 86400000
  }

  /** The regular expression `^(\d+)([smhd])$` on the lower-cased text: the unit is required. */
  predicate IsIntervalText(l: string) {
    |l| >= 2 && AllDigits(l[..|l| - 1]) && l[|l| - 1] in "smhd"
  }

  /** `parseInterval`: the digits' value times the unit in milliseconds, or `Invalid interval format: <interval>`. */
  function ParseInterval(interval: string): (r: Result<nat, string>)
    ensures r.Err? <==> !IsIntervalText(LowerStringForMatch(interval))
    ensures r.Err? ==> r.error == "Invalid interval format: " + interval
  {
    var l := LowerStringForMatch(interval);
    if IsIntervalText(l) then Ok(DigitsValue(l[..|l| - 1]) * IntervalFactor(l[|l| - 1]))
    else Err("Invalid interval format: " + interval)
  }

  /** A rendered number with a unit reads back as that many milliseconds. */
  lemma {:induction false} IntervalRoundTrip(n: nat, unit: char)
    requires unit in "smhd"
    ensures ParseInterval(NatToString(n) + [unit]) == Ok(n * IntervalFactor(unit))
  {
    var s := NatToString(n) + [unit];
    LowerOfDigitsAndUnit(NatToString(n), [unit]);
    DigitsValueOfNatToString(n);
    assert s[..|s| - 1] == NatToString(n);
  }

  /**
   * Any run of digits, leading zeros included, read in base 10, times the
   * milliseconds of a unit written in either case (`007m`, `1D`).
   */
  lemma {:induction false} IntervalOfDigits(digits: string, unit: char)
    requires |digits| > 0 && AllDigits(digits)
    requires LowerForMatch(unit) in "smhd"
    ensures ParseInterval(digits + [unit]) == Ok(DigitsValue(digits) * IntervalFactor(LowerForMatch(unit)))
  {
    var s := digits + [unit];
    var l := LowerStringForMatch(s);
    assert l[..|l| - 1] == digits by {
      forall i | 0 <= i < |digits|
        ensures l[..|l| - 1][i] == digits[i]
      {
        assert s[i] == digits[i] && IsDigit(digits[i]);
      }
    }
    assert l[|l| - 1] == LowerForMatch(unit);
  }

  /** A bare number is not an interval: the unit cannot be left out. */
  lemma {:induction false} IntervalNeedsUnit(n: nat)
    ensures ParseInterval(NatToString(n)) == Err("Invalid interval format: " + NatToString(n))
  {
    var s := NatToString(n);
    LowerOfDigitsAndUnit(s, "");
    assert s + "" == s;
  }

  /** The defaults: `maxSize` `10m` is 10485760 bytes and `rotateInterval` `1d` is 86400000 ms. */
  lemma Defaults()
    ensures ConvertSize("10m") == Ok(10485760)
    ensures ParseInterval("1d") == Ok(86400000)
  {
    LowerOfDigitsAndUnit("10", "m");
    assert "10" + "m" == "10m" && !IsDigit("10m"[2]);
    assert "10m"[..2] == "10" && "10"[..1] == "1" && "1"[..0] == "";
    assert DigitsValue("10") == 10;
    assert SizeFactor('m') == 1048576;
    LowerOfDigitsAndUnit("1", "d");
    assert "1" + "d" == "1d";
    assert "1d"[..1] == "1";
    assert DigitsValue("1") == 1;
  }

  // ---------------------------------------------------------------------------
  // Message buffer

  const BufferSize := 100

  class LogBuffer {
    /** `logBuffer`. */
    var buffer: seq<string>
    /** The messages handed to `logger.info`, in order. */
    var emitted: seq<string>
    /** Every message passed to `log`, in order. */
    ghost var logged: seq<string>

    /** Nothing is lost or repeated, and a full buffer never stays full. */
    ghost predicate Valid()
      reads this
    {
      emitted + buffer == logged && |buffer| < BufferSize
    }

    constructor ()
      ensures Valid() && buffer == [] && emitted == [] && logged == []
    {
      buffer, emitted, logged := [], [], [];
    }

    /** `flushLogs`: each buffered message goes to the logger once, in order, and the buffer empties. */
    method FlushLogs()
      requires emitted + buffer == logged
      modifies this
      ensures Valid()
      ensures emitted == old(emitted) + old(buffer) && buffer == [] && logged == old(logged)
    {
      var pending := buffer;
      for i := 0 to |pending|
        invariant emitted == old(emitted) + pending[..i] && logged == old(logged)
      {
        assert pending[..i + 1] == pending[..i] + [pending[i]];
        emitted := emitted + [pending[i]];
      }
      assert pending[..|pending|] == pending;
      buffer := [];
    }

    /** `log`: the message is buffered, and a buffer that reaches 100 messages is flushed whole. */
    method Log(message: string)
      requires Valid()
      modifies this
      ensures Valid()
      ensures logged == old(logged) + [message]
      ensures |old(buffer)| + 1 < BufferSize ==> buffer == old(buffer) + [message] && emitted == old(emitted)
      ensures |old(buffer)| + 1 == BufferSize ==> buffer == [] && emitted == old(emitted) + old(buffer) + [message]
    {
      buffer := buffer + [message];
      logged := logged + [message];
      if |buffer| >= BufferSize {
        FlushLogs();
      }
    }
  }
}
