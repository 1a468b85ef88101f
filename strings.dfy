/**
 * String helpers shared by the models: single-character split and join, the
 * whitespace sets of JavaScript and Python, trimming, Python's `str.split()`
 * without arguments, the part of case mapping that can produce ASCII, and
 * decimal numerals.
 */
module Strings {

  // ---------------------------------------------------------------------------
  // Prefixes and infixes

  predicate StartsWith(s: string, prefix: string) {
    |prefix| <= |s| && s[..|prefix|] == prefix
  }

  /** `s.includes(p)` in JavaScript, `p in s` in Python. */
  predicate Contains(s: string, p: string) {
    exists i | 0 <= i <= |s| :: StartsWith(s[i..], p)
  }

  // ---------------------------------------------------------------------------
  // Splitting on one separator character and joining back

  /** The first position of `c` in `s`. */
  function IndexOf(s: string, c: char): (i: nat)
    requires c in s
    ensures i < |s| && s[i] == c && c !in s[..i]
  {
    if s[0] == c then 0
    else
      var j := IndexOf(s[1..], c);
      assert s[..1 + j] == [s[0]] + s[1..][..j];
      1 + j
  }

  /** `s.split(sep)` in JavaScript and Python for a one-character separator. */
  function Split(s: string, sep: char): (parts: seq<string>)
    ensures |parts| >= 1
    ensures forall i :: 0 <= i < |parts| ==> sep !in parts[i]
    decreases |s|
  {
    if sep !in s then [s]
    else
      var i := IndexOf(s, sep);
      [s[..i]] + Split(s[i + 1..], sep)
  }

  /** `parts.join(sep)`. */
  function Join(parts: seq<string>, sep: char): string
  {
    if |parts| == 0 then ""
    else if |parts| == 1 then parts[0]
    else parts[0] + [sep] + Join(parts[1..], sep)
  }

  /** Joining the pieces of a split gives the original string back. */
  lemma {:induction false} JoinSplit(s: string, sep: char)
    ensures Join(Split(s, sep), sep) == s
    decreases |s|
  {
    if sep in s {
      var i := IndexOf(s, sep);
      var rest := Split(s[i + 1..], sep);
      JoinSplit(s[i + 1..], sep);
      assert Split(s, sep) == [s[..i]] + rest;
      assert ([s[..i]] + rest)[1..] == rest;
      assert s == s[..i] + [sep] + s[i + 1..];
    }
  }

  /** The first separator in `a + [sep] + b` is the one after `a` when `a` has none. */
  lemma {:induction false} IndexOfAfterPiece(a: string, sep: char, b: string)
    requires sep !in a
    ensures IndexOf(a + [sep] + b, sep) == |a|
  {
    if |a| > 0 {
      assert (a + [sep] + b)[1..] == a[1..] + [sep] + b;
      IndexOfAfterPiece(a[1..], sep, b);
    }
  }

  /** A separator-free piece followed by the separator splits off as the first piece. */
  lemma SplitAtFirst(a: string, sep: char, b: string)
    requires sep !in a
    ensures Split(a + [sep] + b, sep) == [a] + Split(b, sep)
  {
    var s := a + [sep] + b;
    IndexOfAfterPiece(a, sep, b);
    assert s[|a|] == sep;
    assert s[..|a|] == a;
    assert s[|a| + 1..] == b;
  }

  /** Splitting a join of separator-free pieces gives the pieces back. */
  lemma {:induction false} SplitJoin(parts: seq<string>, sep: char)
    requires |parts| >= 1
    requires forall i :: 0 <= i < |parts| ==> sep !in parts[i]
    ensures Split(Join(parts, sep), sep) == parts
  {
    if |parts| > 1 {
      var rest := Join(parts[1..], sep);
      assert Join(parts, sep) == parts[0] + [sep] + rest;
      SplitAtFirst(parts[0], sep, rest);
      SplitJoin(parts[1..], sep);
      assert parts == [parts[0]] + parts[1..];
    }
  }

  // ---------------------------------------------------------------------------
  // Whitespace

  /** JavaScript's WhiteSpace and LineTerminator characters, which `trim()` removes. */
  predicate IsJsSpace(c: char) {
    c == '\t' || c == '\n' || c == '\U{B}' || c == '\U{C}' || c == '\r' || c == ' '
    || c == '\U{A0}' || c == '\U{1680}' || ('\U{2000}' <= c <= '\U{200A}')
    || c == '\U{2028}' || c == '\U{2029}' || c == '\U{202F}' || c == '\U{205F}'
    || c == '\U{3000}' || c == '\U{FEFF}'
  }

  /** Python's `str.isspace()` characters, which `strip()` and `split()` use. */
  predicate IsPySpace(c: char) {
    ('\t' <= c <= '\r') || ('\U{1C}' <= c <= ' ') || c == '\U{85}' || c == '\U{A0}'
    || c == '\U{1680}' || ('\U{2000}' <= c <= '\U{200A}') || c == '\U{2028}'
    || c == '\U{2029}' || c == '\U{202F}' || c == '\U{205F}' || c == '\U{3000}'
  }

  /** The number of leading characters of `s` that `isSpace` accepts. */
  function LeadingSpaces(s: string, isSpace: char -> bool): (n: nat)
    ensures n <= |s|
    ensures forall i :: 0 <= i < n ==> isSpace(s[i])
    ensures n < |s| ==> !isSpace(s[n])
  {
    if |s| > 0 && isSpace(s[0]) then
      var m := LeadingSpaces(s[1..], isSpace);
      assert forall i :: 1 <= i < 1 + m ==> s[i] == s[1..][i - 1];
      1 + m
    else 0
  }

  /** The number of trailing characters of `s` that `isSpace` accepts. */
  function TrailingSpaces(s: string, isSpace: char -> bool): (n: nat)
    ensures n <= |s|
    ensures forall i :: |s| - n <= i < |s| ==> isSpace(s[i])
    ensures n < |s| ==> !isSpace(s[|s| - n - 1])
  {
    if |s| > 0 && isSpace(s[|s| - 1]) then
      var m := TrailingSpaces(s[..|s| - 1], isSpace);
      assert forall i :: |s| - 1 - m <= i < |s| - 1 ==> s[i] == s[..|s| - 1][i];
      1 + m
    else 0
  }

  function TrimStart(s: string, isSpace: char -> bool): string {
    s[LeadingSpaces(s, isSpace)..]
  }

  function TrimEnd(s: string, isSpace: char -> bool): string {
    s[..|s| - TrailingSpaces(s, isSpace)]
  }

  /** Both ends stripped of the characters `isSpace` accepts. */
  function Trim(s: string, isSpace: char -> bool): string {
    TrimEnd(TrimStart(s, isSpace), isSpace)
  }

  /** JavaScript `s.trim()`. */
  function JsTrim(s: string): string { Trim(s, IsJsSpace) }

  /** Python `s.strip()`. */
  function PyStrip(s: string): string { Trim(s, IsPySpace) }

  /** A string that neither starts nor ends with a space trims to itself. */
  lemma TrimUnspaced(s: string, isSpace: char -> bool)
    requires |s| > 0 && !isSpace(s[0]) && !isSpace(s[|s| - 1])
    ensures Trim(s, isSpace) == s
  {
    assert LeadingSpaces(s, isSpace) == 0;
    assert TrailingSpaces(s, isSpace) == 0;
  }

  predicate AllSpace(s: string, isSpace: char -> bool) {
    forall i :: 0 <= i < |s| ==> isSpace(s[i])
  }

  /** A trimmed string is empty exactly when every character was a space. */
  lemma TrimEmptyIff(s: string, isSpace: char -> bool)
    ensures |Trim(s, isSpace)| == 0 <==> AllSpace(s, isSpace)
  {
    var n := LeadingSpaces(s, isSpace);
    if n < |s| {
      var t := s[n..];
      var m := TrailingSpaces(t, isSpace);
      assert m < |t| by { assert !isSpace(t[0]); }
      assert !isSpace(s[n]);
    }
  }

  // ---------------------------------------------------------------------------
  // Python's str.split() with no argument

  /** The length of the run of non-space characters that starts `s`. */
  function TokenLength(s: string): (n: nat)
    requires |s| > 0 && !IsPySpace(s[0])
    ensures 0 < n <= |s|
    ensures forall k :: 0 <= k < n ==> !IsPySpace(s[k])
    ensures n < |s| ==> IsPySpace(s[n])
  {
    if |s| == 1 || IsPySpace(s[1]) then 1 else 1 + TokenLength(s[1..])
  }

  /** `s.split()`: the maximal runs of non-space characters, in order. */
  function PySplit(s: string): (tokens: seq<string>)
    ensures forall i :: 0 <= i < |tokens| ==> |tokens[i]| > 0
    ensures forall i, k :: 0 <= i < |tokens| && 0 <= k < |tokens[i]| ==> !IsPySpace(tokens[i][k])
    decreases |s|
  {
    if |s| == 0 then []
    else if IsPySpace(s[0]) then PySplit(s[1..])
    else
      var n := TokenLength(s);
      [s[..n]] + PySplit(s[n..])
  }

  /** A token that ends at a space ends at the same place when more text follows the space. */
  lemma {:induction false} TokenLengthExtend(a: string, rest: string)
    requires |a| > 0 && !IsPySpace(a[0])
    requires |rest| > 0 && IsPySpace(rest[0])
    ensures TokenLength(a + rest) == TokenLength(a)
  {
    var s := a + rest;
    if |a| == 1 {
      assert s[1] == rest[0];
    } else {
      assert s[1] == a[1];
      if !IsPySpace(a[1]) {
        assert s[1..] == a[1..] + rest;
        TokenLengthExtend(a[1..], rest);
      }
    }
  }

  /** Splitting on whitespace around one space character splits the two sides separately. */
  lemma {:induction false} PySplitAtSpace(a: string, c: char, b: string)
    requires IsPySpace(c)
    ensures PySplit(a + [c] + b) == PySplit(a) + PySplit(b)
    decreases |a|
  {
    if |a| == 0 {
      SpaceHead(c, b);
      assert a + [c] + b == [c] + b;
    } else if IsPySpace(a[0]) {
      SpaceHead(a[0], a[1..] + [c] + b);
      SpaceHead(a[0], a[1..]);
      assert a + [c] + b == [a[0]] + (a[1..] + [c] + b);
      assert a == [a[0]] + a[1..];
      PySplitAtSpace(a[1..], c, b);
    } else {
      PySplitAtSpace(a[TokenLength(a)..], c, b);
      TokenAtSpace(a, c, b);
    }
  }

  /** A leading space contributes no word. */
  lemma SpaceHead(c: char, rest: string)
    requires IsPySpace(c)
    ensures PySplit([c] + rest) == PySplit(rest)
  {
    assert ([c] + rest)[1..] == rest;
  }

  /** When the text after the first word of `a` splits around the space, so does `a` itself. */
  lemma TokenAtSpace(a: string, c: char, b: string)
    requires IsPySpace(c) && |a| > 0 && !IsPySpace(a[0])
    requires PySplit(a[TokenLength(a)..] + [c] + b) == PySplit(a[TokenLength(a)..]) + PySplit(b)
    ensures PySplit(a + [c] + b) == PySplit(a) + PySplit(b)
  {
    var n := TokenLength(a);
    var w, p, q := a[..n], PySplit(a[n..]), PySplit(b);
    WordBeforeSpace(a, c, b);
    FirstWord(a);
    assert [w] + (p + q) == ([w] + p) + q;
  }

  /** The first word of `a + [c] + b` is the first word of `a`. */
  lemma WordBeforeSpace(a: string, c: char, b: string)
    requires IsPySpace(c) && |a| > 0 && !IsPySpace(a[0])
    ensures PySplit(a + [c] + b) == [a[..TokenLength(a)]] + PySplit(a[TokenLength(a)..] + [c] + b)
  {
    var s := a + [c] + b;
    var n := TokenLength(a);
    assert TokenLength(s) == n by {
      TokenLengthExtend(a, [c] + b);
      assert s == a + ([c] + b);
    }
    assert s[..n] == a[..n];
    assert s[n..] == a[n..] + [c] + b;
    FirstWord(s);
  }

  /** The first word comes first. */
  lemma FirstWord(s: string)
    requires |s| > 0 && !IsPySpace(s[0])
    ensures PySplit(s) == [s[..TokenLength(s)]] + PySplit(s[TokenLength(s)..])
  {
  }

  /** A non-empty run without whitespace is a single word. */
  lemma PySplitWord(t: string)
    requires |t| > 0 && forall i :: 0 <= i < |t| ==> !IsPySpace(t[i])
    ensures PySplit(t) == [t]
  {
    var n := TokenLength(t);
    assert n == |t|;
    assert t[n..] == [];
    assert t[..n] == t;
  }

  function Concat(parts: seq<string>): string {
    if |parts| == 0 then "" else parts[0] + Concat(parts[1..])
  }

  /** `s` with its Python whitespace removed. */
  function RemovePySpace(s: string): string {
    if |s| == 0 then ""
    else (if IsPySpace(s[0]) then "" else [s[0]]) + RemovePySpace(s[1..])
  }

  lemma {:induction false} RemovePySpaceOfToken(t: string, r: string)
    requires forall k :: 0 <= k < |t| ==> !IsPySpace(t[k])
    ensures RemovePySpace(t + r) == t + RemovePySpace(r)
  {
    if |t| > 0 {
      var tr := t + r;
      assert tr[0] == t[0] && !IsPySpace(tr[0]);
      assert tr[1..] == t[1..] + r;
      RemovePySpaceOfToken(t[1..], r);
      calc {
        RemovePySpace(tr);
        [t[0]] + RemovePySpace(t[1..] + r);
        [t[0]] + (t[1..] + RemovePySpace(r));
        { assert [t[0]] + t[1..] == t; }
        t + RemovePySpace(r);
      }
    } else {
      assert t + r == r;
    }
  }

  /** The tokens of `s.split()` together hold exactly the non-space characters of `s`. */
  lemma {:induction false} PySplitKeepsNonSpace(s: string)
    ensures Concat(PySplit(s)) == RemovePySpace(s)
    decreases |s|
  {
    if |s| > 0 {
      if IsPySpace(s[0]) {
        PySplitKeepsNonSpace(s[1..]);
      } else {
        var n := TokenLength(s);
        PySplitKeepsNonSpace(s[n..]);
        assert ([s[..n]] + PySplit(s[n..]))[1..] == PySplit(s[n..]);
        RemovePySpaceOfToken(s[..n], s[n..]);
        assert s[..n] + s[n..] == s;
      }
    }
  }

  // ---------------------------------------------------------------------------
  // Case mapping, as far as ASCII patterns can tell

  /**
   * The character JavaScript's `toLowerCase()` gives for `c`, for matching
   * against patterns made of ASCII digits and the letters k, m, g, s, h, d.
   * A-Z and the Kelvin sign (U+212A, whose lower case is 'k') become ASCII
   * letters; every other character is kept, because its lower case is either
   * itself or lies outside ASCII (U+0130 becomes 'i' and a combining dot, and
   * no pattern here contains 'i'), so keeping it decides every such match the
   * same way.
   */
  function LowerForMatch(c: char): char {
    if 'A' <= c <= 'Z' then (c as int + 32) as char
    else if c == '\U{212A}' then 'k'
    else c
  }

  function LowerStringForMatch(s: string): (r: string)
    ensures |r| == |s| && forall i :: 0 <= i < |s| ==> r[i] == LowerForMatch(s[i])
  {
    seq(|s|, i requires 0 <= i < |s| => LowerForMatch(s[i]))
  }

  /**
   * The characters JavaScript's `toUpperCase()` gives for `c`, for searching
   * ASCII names in the result: a-z become A-Z, and the characters whose upper
   * case contains an ASCII letter (sharp s, dotless i, long s, the Latin
   * ligatures and the letters that take a combining mark) expand as Unicode's
   * special casing says. Every other character is kept: its upper case is
   * itself or lies outside ASCII, so it cannot take part in an ASCII match.
   */
  function UpperForMatch(c: char): string {
    if 'a' <= c <= 'z' then [(c as int - 32) as char]
    else if c == '\U{DF}' then "SS"
    else if c == '\U{131}' then "I"
    else if c == '\U{17F}' then "S"
    else if c == '\U{149}' then "\U{2BC}N"
    else if c == '\U{1F0}' then "J\U{30C}"
    else if c == '\U{1E96}' then "H\U{331}"
    else if c == '\U{1E97}' then "T\U{308}"
    else if c == '\U{1E98}' then "W\U{30A}"
    else if c == '\U{1E99}' then "Y\U{30A}"
    else if c == '\U{1E9A}' then "A\U{2BE}"
    else if c == '\U{FB00}' then "FF"
    else if c == '\U{FB01}' then "FI"
    else if c == '\U{FB02}' then "FL"
    else if c == '\U{FB03}' then "FFI"
    else if c == '\U{FB04}' then "FFL"
    else if c == '\U{FB05}' || c == '\U{FB06}' then "ST"
    else [c]
  }

  function UpperStringForMatch(s: string): string {
    if |s| == 0 then "" else UpperForMatch(s[0]) + UpperStringForMatch(s[1..])
  }

  // ---------------------------------------------------------------------------
  // Decimal numerals

  predicate IsDigit(c: char) { '0' <= c <= '9' }

  predicate AllDigits(s: string) { forall i :: 0 <= i < |s| ==> IsDigit(s[i]) }

  function DigitChar(d: nat): (c: char)
    requires d < 10
    ensures IsDigit(c) && c as int - '0' as int == d
  {
    ('0' as int + d) as char
  }

  /** The decimal numeral of `n`, without leading zeros. */
  function NatToString(n: nat): (s: string)
    ensures |s| > 0 && AllDigits(s)
    decreases n
  {
    if n < 10 then [DigitChar(n)] else NatToString(n / 10) + [DigitChar(n % 10)]
  }

  /** The value of a string of decimal digits (`parseInt(s, 10)` on such a string). */
  function DigitsValue(s: string): nat
    requires AllDigits(s)
  {
    if |s| == 0 then 0
    else DigitsValue(s[..|s| - 1]) * 10 + (s[|s| - 1] as int - '0' as int)
  }

  /** Reading back a numeral gives the number. */
  lemma {:induction false} DigitsValueOfNatToString(n: nat)
    ensures DigitsValue(NatToString(n)) == n
    decreases n
  {
    if n >= 10 {
      var s := NatToString(n);
      assert s[..|s| - 1] == NatToString(n / 10);
      DigitsValueOfNatToString(n / 10);
    }
  }

  /** Numerals of different numbers differ. */
  lemma NatToStringInjective(a: nat, b: nat)
    requires NatToString(a) == NatToString(b)
    ensures a == b
  {
    DigitsValueOfNatToString(a);
    DigitsValueOfNatToString(b);
  }
}
