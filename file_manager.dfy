/**
 * The text and structure algorithms of `fileManager.js`: Levenshtein edit
 * distance filled into a matrix, the similarity threshold used to merge text
 * line by line, the recursive JSON deep merge, the dispatch between the two,
 * and the chunk arithmetic of reading and writing large files.
 *
 * Strings are sequences of characters; JavaScript measures them in UTF-16 code
 * units, and the model counts one unit per character.
 */
module FileManager {
  import opened Wrappers
  import opened JsonValue
  import opened Strings

  // ---------------------------------------------------------------------------
  // Edit distance

  function Min3(a: nat, b: nat, c: nat): (m: nat)
    ensures m <= a && m <= b && m <= c && (m == a || m == b || m == c)
  {
    if a <= b && a <= c then a else if b <= c then b else c
  }

  /**
   * Levenshtein distance between `a` and `b`, defined on their last
   * characters: substitute (free when they match), drop the last of `b`, or
   * drop the last of `a`.
   */
  function Dist(a: string, b: string): nat
    decreases |a| + |b|
  {
    if |a| == 0 then |b|
    else if |b| == 0 then |a|
    else
      Min3(Dist(a[..|a| - 1], b[..|b| - 1]) + (if a[|a| - 1] == b[|b| - 1] then 0 else 1),
           Dist(a, b[..|b| - 1]) + 1,
           Dist(a[..|a| - 1], b) + 1)
  }

  /** The recurrence of `Dist` read on prefixes, the form the matrix fill uses. */
  lemma DistPrefixStep(a: string, b: string, i: nat, j: nat)
    requires 1 <= i <= |a| && 1 <= j <= |b|
    ensures Dist(a[..i], b[..j]) ==
      Min3(Dist(a[..i - 1], b[..j - 1]) + (if a[i - 1] == b[j - 1] then 0 else 1),
           Dist(a[..i], b[..j - 1]) + 1,
           Dist(a[..i - 1], b[..j]) + 1)
  {
    assert a[..i][..i - 1] == a[..i - 1];
    assert b[..j][..j - 1] == b[..j - 1];
  }

  /** Fills row `j` of the matrix from row `j - 1`, left to right. */
  method FillRow(matrix: array2<nat>, str1: string, str2: string, j: nat)
    requires matrix.Length0 == |str2| + 1 && matrix.Length1 == |str1| + 1
    requires 1 <= j <= |str2|
    requires forall c :: 0 <= c <= |str1| ==> matrix[j - 1, c] == Dist(str1[..c], str2[..j - 1])
    requires matrix[j, 0] == Dist([], str2[..j])
    modifies matrix
    ensures forall c :: 0 <= c <= |str1| ==> matrix[j, c] == Dist(str1[..c], str2[..j])
    ensures forall r, c :: 0 <= r < matrix.Length0 && 0 <= c < matrix.Length1 && r != j ==>
      matrix[r, c] == old(matrix[r, c])
  {
    assert str1[..0] == [];
    for i := 1 to |str1| + 1
      invariant forall c :: 0 <= c < i ==> matrix[j, c] == Dist(str1[..c], str2[..j])
      invariant forall r, c :: 0 <= r < matrix.Length0 && 0 <= c < matrix.Length1 && r != j ==>
        matrix[r, c] == old(matrix[r, c])
    {
      var substitute := matrix[j - 1, i - 1] + (if str1[i - 1] == str2[j - 1] then 0 else 1);
      var cell := Min3(substitute, matrix[j - 1, i] + 1, matrix[j, i - 1] + 1);
      assert cell == Dist(str1[..i], str2[..j]) by {
        DistPrefixStep(str1, str2, i, j);
      }
      matrix[j, i] := cell;
    }
  }

  /**
   * `editDistance`: row 0 and column 0 of the matrix hold their indices and
   * every other cell the cheapest of substitute, delete and insert; the
   * bottom-right cell is the Levenshtein distance.
   */
  method EditDistance(str1: string, str2: string) returns (d: nat)
    ensures d == Dist(str1, str2)
  {
    var matrix := new nat[|str2| + 1, |str1| + 1];
    for i := 0 to |str1| + 1
      invariant forall c :: 0 <= c < i ==> matrix[0, c] == Dist(str1[..c], [])
    {
      matrix[0, i] := i;
    }
    for j := 0 to |str2| + 1
      invariant forall c :: 0 <= c <= |str1| ==> matrix[0, c] == Dist(str1[..c], [])
      invariant forall r :: 0 <= r < j ==> matrix[r, 0] == Dist([], str2[..r])
    {
      matrix[j, 0] := j;
    }
    assert str2[..0] == [];
    for j := 1 to |str2| + 1
      invariant forall c :: 0 <= c <= |str1| ==> matrix[j - 1, c] == Dist(str1[..c], str2[..j - 1])
      invariant forall r :: j <= r <= |str2| ==> matrix[r, 0] == Dist([], str2[..r])
    {
      FillRow(matrix, str1, str2, j);
    }
    assert str1[..|str1|] == str1 && str2[..|str2|] == str2;
    d := matrix[|str2|, |str1|];
  }

  /** A string is at distance 0 from itself. */
  lemma {:induction false} DistSelf(a: string)
    ensures Dist(a, a) == 0
    decreases |a|
  {
    if |a| > 0 {
      DistSelf(a[..|a| - 1]);
    }
  }

  /** `editDistance("", t)` is the length of `t`, and symmetrically. */
  lemma DistEmpty(t: string)
    ensures Dist([], t) == |t| && Dist(t, []) == |t|
  {
  }

  /** The distance is at most the longer length. */
  lemma {:induction false} DistUpper(a: string, b: string)
    ensures Dist(a, b) <= if |a| >= |b| then |a| else |b|
    decreases |a| + |b|
  {
    if |a| > 0 && |b| > 0 {
      DistUpper(a[..|a| - 1], b[..|b| - 1]);
    }
  }

  /** The distance is at least the difference of the lengths. */
  lemma {:induction false} DistLower(a: string, b: string)
    ensures Dist(a, b) >= if |a| >= |b| then |a| - |b| else |b| - |a|
    decreases |a| + |b|
  {
    if |a| > 0 && |b| > 0 {
      DistLower(a[..|a| - 1], b[..|b| - 1]);
      DistLower(a, b[..|b| - 1]);
      DistLower(a[..|a| - 1], b);
    }
  }

  /** Only equal strings are at distance zero. */
  lemma {:induction false} DistZeroEqual(a: string, b: string)
    requires Dist(a, b) == 0
    ensures a == b
    decreases |a| + |b|
  {
    DistLower(a, b);
    if |a| > 0 {
      var a', b' := a[..|a| - 1], b[..|b| - 1];
      DistZeroEqual(a', b');
      assert a == a' + [a[|a| - 1]] && b == b' + [b[|b| - 1]];
    }
  }

  /** The distance is zero exactly for equal strings. */
  lemma DistZeroIff(a: string, b: string)
    ensures Dist(a, b) == 0 <==> a == b
  {
    if a == b {
      DistSelf(a);
    } else if Dist(a, b) == 0 {
      DistZeroEqual(a, b);
    }
  }

  /** The distance does not depend on the order of its arguments. */
  lemma {:induction false} DistSymmetric(a: string, b: string)
    ensures Dist(a, b) == Dist(b, a)
    decreases |a| + |b|
  {
    if |a| > 0 && |b| > 0 {
      DistSymmetric(a[..|a| - 1], b[..|b| - 1]);
      DistSymmetric(a, b[..|b| - 1]);
      DistSymmetric(a[..|a| - 1], b);
    }
  }

  // ---------------------------------------------------------------------------
  // Similarity

  /** A ratio `num / den` with a positive denominator. */
  datatype Ratio = Ratio(num: int, den: nat)

  /**
   * `calculateSimilarity`: 1 when both strings are empty, otherwise the share
   * of the longer length that the edit distance leaves, between 0 and 1.
   */
  function Similarity(str1: string, str2: string): (r: Ratio)
    ensures 0 < r.den && 0 <= r.num <= r.den
    ensures r.num == r.den <==> str1 == str2
  {
    var longer := if |str1| > |str2| then str1 else str2;
    var shorter := if |str1| > |str2| then str2 else str1;
    DistUpper(longer, shorter);
    DistZeroIff(longer, shorter);
    if |longer| == 0 then Ratio(1, 1)
    else Ratio(|longer| - Dist(longer, shorter), |longer|)
  }

  /** Similarity above 0.9, compared without division. */
  predicate VerySimilar(str1: string, str2: string) {
    var r := Similarity(str1, str2);
    10 * r.num > 9 * r.den
  }

  /** `hasVerySimilarLine`: some line of `lines` is very similar to `newLine`. */
  predicate HasVerySimilarLine(lines: seq<string>, newLine: string) {
    exists line :: line in lines && VerySimilar(line, newLine)
  }

  /** Lines of at most ten characters are very similar only when equal. */
  lemma ShortLinesSimilarIffEqual(a: string, b: string)
    requires |a| <= 10 && |b| <= 10
    ensures VerySimilar(a, b) <==> a == b
  {
    var longer := if |a| > |b| then a else b;
    var shorter := if |a| > |b| then b else a;
    if |longer| > 0 && a != b {
      DistZeroIff(longer, shorter);
    }
  }

  /** Every line is very similar to itself, so a line already merged is never added again. */
  lemma SelfVerySimilar(a: string)
    ensures VerySimilar(a, a)
  {
  }
  /**
   * Very similar means `10 * (L - d) > 9 * L`, with `L` the longer length and
   * `d` the edit distance in either order; two empty strings are very similar.
   */
  lemma VerySimilarByDistance(a: string, b: string)
    ensures var L := if |a| >= |b| then |a| else |b|;
      VerySimilar(a, b) <==> L == 0 || 10 * (L - Dist(a, b)) > 9 * L
  {
    DistSymmetric(a, b);
  }

  // ---------------------------------------------------------------------------
  // Merging text line by line

  /** The distinct elements of `s` in the order of their first occurrence, as a `Set` keeps them. */
  function Dedup(s: seq<string>): (r: seq<string>)
    ensures forall x :: x in r <==> x in s
  {
    if |s| == 0 then []
    else
      var d := Dedup(s[..|s| - 1]);
      if s[|s| - 1] in d then d else d + [s[|s| - 1]]
  }

  /** One update line: added unless a very similar line is already merged. */
  function AddLine(merged: seq<string>, line: string): seq<string> {
    if HasVerySimilarLine(merged, line) then merged else merged + [line]
  }

  /** All update lines, in order. */
  function AddAll(merged: seq<string>, lines: seq<string>): seq<string>
  {
    if |lines| == 0 then merged else AddLine(AddAll(merged, lines[..|lines| - 1]), lines[|lines| - 1])
  }

  /** The merged lines of `mergeTextContent`. */
  function MergeLines(originalLines: seq<string>, updateLines: seq<string>): seq<string> {
    AddAll(Dedup(originalLines), updateLines)
  }

  /** The text `mergeTextContent` returns. */
  function MergeText(original: string, update: string): string {
    Join(MergeLines(Split(original, '\n'), Split(update, '\n')), '\n')
  }

  /**
   * `mergeTextContent`: the set of original lines, then each update line that
   * no merged line is very similar to, joined with newlines.
   */
  method MergeTextContent(original: string, update: string) returns (r: string)
    ensures r == MergeText(original, update)
  {
    var originalLines := Split(original, '\n');
    var updateLines := Split(update, '\n');
    var merged: seq<string> := [];
    for k := 0 to |originalLines|
      invariant merged == Dedup(originalLines[..k])
    {
      assert originalLines[..k + 1][..k] == originalLines[..k];
      if originalLines[k] !in merged {
        merged := merged + [originalLines[k]];
      }
    }
    assert originalLines[..|originalLines|] == originalLines;
    for k := 0 to |updateLines|
      invariant merged == AddAll(Dedup(originalLines), updateLines[..k])
    {
      assert updateLines[..k + 1][..k] == updateLines[..k];
      if !HasVerySimilarLine(merged, updateLines[k]) {
        merged := merged + [updateLines[k]];
      }
    }
    assert updateLines[..|updateLines|] == updateLines;
    r := Join(merged, '\n');
  }

  predicate NoDuplicates(s: seq<string>) {
    forall i, j :: 0 <= i < j < |s| ==> s[i] != s[j]
  }

  /** The distinct lines come out without repetition. */
  lemma {:induction false} DedupNoDuplicates(s: seq<string>)
    ensures NoDuplicates(Dedup(s))
  {
    if |s| > 0 {
      DedupNoDuplicates(s[..|s| - 1]);
    }
  }

  /**
   * The update lines only ever extend the merged lines: what was merged stays
   * a prefix, every added line comes from the update and was not very similar
   * to any line merged before it, and every update line ends up with a very
   * similar line among the merged ones.
   */
  lemma {:induction false} AddAllProperties(merged: seq<string>, lines: seq<string>)
    ensures var r := AddAll(merged, lines);
      |r| >= |merged| && r[..|merged|] == merged &&
      (forall k :: |merged| <= k < |r| ==> r[k] in lines && !HasVerySimilarLine(r[..k], r[k])) &&
      (forall line :: line in lines ==> HasVerySimilarLine(r, line))
  {
    if |lines| > 0 {
      var init := lines[..|lines| - 1];
      var last := lines[|lines| - 1];
      AddAllProperties(merged, init);
      assert lines == init + [last];
      AddLineKeepsPrefix(merged, init, AddAll(merged, init), last);
      AddLineCovers(init, AddAll(merged, init), last);
    }
  }

  /** One more update line: the merged prefix stays and each added line was new when added. */
  lemma AddLineKeepsPrefix(merged: seq<string>, init: seq<string>, p: seq<string>, last: string)
    requires |p| >= |merged| && p[..|merged|] == merged
    requires forall k :: |merged| <= k < |p| ==> p[k] in init && !HasVerySimilarLine(p[..k], p[k])
    ensures var r := AddLine(p, last);
      |r| >= |merged| && r[..|merged|] == merged &&
      (forall k :: |merged| <= k < |r| ==> r[k] in init + [last] && !HasVerySimilarLine(r[..k], r[k]))
  {
    var r := AddLine(p, last);
    if r != p {
      assert r == p + [last];
      assert r[..|merged|] == merged by {
        assert r[..|merged|] == p[..|merged|];
      }
      forall k | |merged| <= k < |r|
        ensures r[k] in init + [last] && !HasVerySimilarLine(r[..k], r[k])
      {
        if k < |p| {
          assert r[..k] == p[..k];
        } else {
          assert r[..k] == p;
        }
      }
    }
  }

  /** One more update line: every update line so far has a very similar merged line. */
  lemma AddLineCovers(init: seq<string>, p: seq<string>, last: string)
    requires forall line :: line in init ==> HasVerySimilarLine(p, line)
    ensures forall line :: line in init + [last] ==> HasVerySimilarLine(AddLine(p, last), line)
  {
    var r := AddLine(p, last);
    forall line | line in init + [last]
      ensures HasVerySimilarLine(r, line)
    {
      if line in init {
        var w :| w in p && VerySimilar(w, line);
        assert w in r;
      } else {
        if !HasVerySimilarLine(p, last) {
          SelfVerySimilar(last);
          assert r[|r| - 1] == last;
        }
      }
    }
  }

  /** The merged lines never repeat a line. */
  lemma MergeLinesNoDuplicates(originalLines: seq<string>, updateLines: seq<string>)
    ensures NoDuplicates(MergeLines(originalLines, updateLines))
  {
    var d := Dedup(originalLines);
    var r := MergeLines(originalLines, updateLines);
    DedupNoDuplicates(originalLines);
    AddAllProperties(d, updateLines);
    forall i, j | 0 <= i < j < |r|
      ensures r[i] != r[j]
    {
      if j >= |d| {
        assert r[i] in r[..j];
        if r[i] == r[j] {
          SelfVerySimilar(r[j]);
          assert HasVerySimilarLine(r[..j], r[j]);
        }
      } else {
        assert r[i] == d[i] && r[j] == d[j];
      }
    }
  }

  /**
   * The merged lines start with the distinct original lines in first-occurrence
   * order, keep every original line, and have a very similar line for every
   * update line; each line added after them comes from the update.
   */
  lemma MergeLinesProperties(originalLines: seq<string>, updateLines: seq<string>)
    ensures var r := MergeLines(originalLines, updateLines);
      |r| >= |Dedup(originalLines)| && r[..|Dedup(originalLines)|] == Dedup(originalLines) &&
      (forall line :: line in originalLines ==> line in r) &&
      (forall line :: line in updateLines ==> HasVerySimilarLine(r, line)) &&
      (forall k :: |Dedup(originalLines)| <= k < |r| ==> r[k] in updateLines)
  {
    var d := Dedup(originalLines);
    var r := MergeLines(originalLines, updateLines);
    AddAllProperties(d, updateLines);
    forall line | line in originalLines
      ensures line in r
    {
      assert line in d;
      var i :| 0 <= i < |d| && d[i] == line;
      assert r[i] == line;
    }
  }
  // ---------------------------------------------------------------------------
  // Deep merge of parsed JSON

  /** Why `deepMergeWithValidation` did not produce a value. */
  datatype MergeError =
    /** `key in target` on a primitive or null target throws a TypeError. */
    | TypeError(key: string)
    /** An object merged into an array: outside this model. */
    | Unmodelled

  /** The property name of array index `i`. */
  function IndexKey(i: nat): string {
    NatToString(i)
  }

  /** The array index a property name denotes, if it is a canonical index. */
  function ArrayIndex(key: string): (r: Option<nat>)
    ensures r.Some? ==> key == IndexKey(r.value)
  {
    if |key| > 0 && AllDigits(key) && NatToString(DigitsValue(key)) == key then Some(DigitsValue(key)) else None
  }

  lemma ArrayIndexOfKey(i: nat)
    ensures ArrayIndex(IndexKey(i)) == Some(i)
  {
    DigitsValueOfNatToString(i);
  }

  function EntryKey(source: Json, k: nat): string
    requires k < EntryCount(source)
  {
    if source.JArr? then IndexKey(k) else source.fields[k].key
  }

  function EntryValue(source: Json, k: nat): Json
    requires k < EntryCount(source)
  {
    if source.JArr? then source.items[k] else source.fields[k].value
  }

  /**
   * The copy the merge starts from: `[...target]` for an array, `{...target}`
   * otherwise, where spreading a string gives its characters under index
   * keys and spreading any other primitive or null gives `{}`.
   */
  function Spread(target: Json): (r: Json)
    ensures target.JArr? ==> r == target
    ensures target.JObj? ==> r == target
    ensures !target.JArr? ==> r.JObj?
  {
    match target
    case JArr(_) => target
    case JObj(_) => target
    case JStr(s) => JObj(seq(|s|, i requires 0 <= i < |s| => Field(IndexKey(i), JStr([s[i]]))))
    case _ => JObj([])
  }

  /** `target[key]` for a key that `key in target` finds (own properties only). */
  function Lookup(target: Json, key: string): Option<Json>
    requires IsObjectLike(target)
  {
    if target.JObj? then Get(target.fields, key)
    else
      var i := ArrayIndex(key);
      if i.Some? && i.value < |target.items| then Some(target.items[i.value]) else None
  }

  /** `output[key] = value`: an object property, or an array element at or just past the end. */
  function Assign(out: Json, key: string, value: Json): Json {
    match out
    case JObj(fields) => JObj(Put(fields, key, value))
    case JArr(items) =>
      var i := ArrayIndex(key);
      if i.Some? && i.value < |items| then JArr(items[i.value := value])
      else if i.Some? && i.value == |items| then JArr(items + [value])
      else out
    case _ => out
  }

  /**
   * The new value for one source property: a non-object is copied; an object
   * is merged into the target's value under the same key when there is one,
   * and copied otherwise; asking a primitive or null target throws.
   */
  function MergeValue(target: Json, key: string, v: Json): Result<Json, MergeError>
    decreases v, 3
  {
    if !IsObjectLike(v) then Ok(v)
    else if !IsObjectLike(target) then Err(TypeError(key))
    else
      match Lookup(target, key)
      case None => Ok(v)
      case Some(tv) => DeepMerge(tv, v)
  }

  /** The loop over the source's properties from the `k`-th on, assigning into `out`. */
  function MergeFrom(target: Json, out: Json, source: Json, k: nat): Result<Json, MergeError>
    requires k <= EntryCount(source)
    decreases source, 1, EntryCount(source) - k
  {
    if k == EntryCount(source) then Ok(out)
    else
      var key := EntryKey(source, k);
      var v := if source.JArr? then source.items[k] else source.fields[k].value;
      var nv := MergeValue(target, key, v);
      if nv.Err? then Err(nv.error) else MergeFrom(target, Assign(out, key, nv.value), source, k + 1)
  }

  /** `deepMergeWithValidation`: a primitive or null source wins outright. */
  function DeepMerge(target: Json, source: Json): (r: Result<Json, MergeError>)
    ensures !IsObjectLike(source) ==> r == Ok(source)
    decreases source, 2
  {
    if !IsObjectLike(source) then Ok(source)
    else if target.JArr? && source.JObj? then Err(Unmodelled)
    else MergeFrom(target, Spread(target), source, 0)
  }

  /** `deepMergeWithValidation`, property by property into a copy of the target. */
  method DeepMergeWithValidation(target: Json, source: Json) returns (r: Result<Json, MergeError>)
    ensures r == DeepMerge(target, source)
    decreases source
  {
    if !IsObjectLike(source) {
      return Ok(source);
    }
    if target.JArr? && source.JObj? {
      return Err(Unmodelled);
    }
    var output := Spread(target);
    var k := 0;
    while k < EntryCount(source)
      invariant k <= EntryCount(source)
      invariant MergeFrom(target, output, source, k) == DeepMerge(target, source)
      decreases EntryCount(source) - k
    {
      var key := EntryKey(source, k);
      var v := EntryValue(source, k);
      var nv := v;
      if IsObjectLike(v) {
        if !IsObjectLike(target) {
          MergeFromFails(target, output, source, k);
          return Err(TypeError(key));
        }
        var tv := Lookup(target, key);
        if tv.Some? {
          var merged := DeepMergeWithValidation(tv.value, v);
          if merged.Err? {
            MergeFromFails(target, output, source, k);
            return Err(merged.error);
          }
          nv := merged.value;
        }
      }
      assert MergeValue(target, key, v) == Ok(nv);
      output := Assign(output, key, nv);
      k := k + 1;
    }
    return Ok(output);
  }

  /** A property whose new value cannot be made ends the loop with that error. */
  lemma MergeFromFails(target: Json, out: Json, source: Json, k: nat)
    requires k < EntryCount(source)
    requires MergeValue(target, EntryKey(source, k), EntryValue(source, k)).Err?
    ensures MergeFrom(target, out, source, k) == Err(MergeValue(target, EntryKey(source, k), EntryValue(source, k)).error)
  {
  }

  /** `fields` after setting `keys[i]` to `vals[i]` for each `i` in order. */
  function PutAll(fields: seq<Field>, keys: seq<string>, vals: seq<Json>): seq<Field>
    requires |keys| == |vals|
    decreases |keys|
  {
    if |keys| == 0 then fields else PutAll(Put(fields, keys[0], vals[0]), keys[1..], vals[1..])
  }

  /** The keys after a run of assignments: the old ones and the assigned ones. */
  lemma {:induction false} PutAllKeys(fields: seq<Field>, keys: seq<string>, vals: seq<Json>, key: string)
    requires |keys| == |vals|
    ensures key in Keys(PutAll(fields, keys, vals)) <==> key in Keys(fields) || key in keys
    decreases |keys|
  {
    if |keys| > 0 {
      PutAllKeys(Put(fields, keys[0], vals[0]), keys[1..], vals[1..], key);
      assert key in keys <==> key == keys[0] || key in keys[1..] by {
        assert keys == [keys[0]] + keys[1..];
      }
    }
  }

  /** A key that is never assigned keeps its value. */
  lemma {:induction false} PutAllOthers(fields: seq<Field>, keys: seq<string>, vals: seq<Json>, key: string)
    requires |keys| == |vals| && key !in keys
    ensures Get(PutAll(fields, keys, vals), key) == Get(fields, key)
    decreases |keys|
  {
    if |keys| > 0 {
      assert key != keys[0] && key !in keys[1..];
      PutAllOthers(Put(fields, keys[0], vals[0]), keys[1..], vals[1..], key);
      GetPut(fields, keys[0], vals[0], key);
    }
  }

  /** A key holds the value of its last assignment. */
  lemma {:induction false} PutAllLast(fields: seq<Field>, keys: seq<string>, vals: seq<Json>, j: nat)
    requires |keys| == |vals| && j < |keys|
    requires forall i :: j < i < |keys| ==> keys[i] != keys[j]
    ensures Get(PutAll(fields, keys, vals), keys[j]) == Some(vals[j])
    decreases |keys|
  {
    var fields' := Put(fields, keys[0], vals[0]);
    if j == 0 {
      assert keys[0] !in keys[1..] by {
        forall i | 0 <= i < |keys| - 1
          ensures keys[1..][i] != keys[0]
        {
          assert keys[1..][i] == keys[i + 1];
        }
      }
      PutAllOthers(fields', keys[1..], vals[1..], keys[0]);
      GetPut(fields, keys[0], vals[0], keys[0]);
    } else {
      forall i | j - 1 < i < |keys| - 1
        ensures keys[1..][i] != keys[1..][j - 1]
      {
        assert keys[1..][i] == keys[i + 1];
      }
      PutAllLast(fields', keys[1..], vals[1..], j - 1);
    }
  }

  /** The new value of each object property from the `k`-th on, or the first error. */
  function NewValues(target: Json, source: Json, k: nat): (r: Result<seq<Json>, MergeError>)
    requires source.JObj? && k <= |source.fields|
    ensures r.Ok? ==> |r.value| == |source.fields| - k
    decreases |source.fields| - k
  {
    if k == |source.fields| then Ok([])
    else
      var nv := MergeValue(target, source.fields[k].key, source.fields[k].value);
      if nv.Err? then Err(nv.error)
      else
        var rest := NewValues(target, source, k + 1);
        if rest.Err? then rest else Ok([nv.value] + rest.value)
  }

  /** The `j`-th new value is `MergeValue` of the `j`-th property. */
  lemma {:induction false} NewValuesAt(target: Json, source: Json, k: nat, j: nat)
    requires source.JObj? && k <= j < |source.fields|
    requires NewValues(target, source, k).Ok?
    ensures MergeValue(target, source.fields[j].key, source.fields[j].value).Ok?
    ensures NewValues(target, source, k).value[j - k] == MergeValue(target, source.fields[j].key, source.fields[j].value).value
    decreases j - k
  {
    if k < j {
      NewValuesAt(target, source, k + 1, j);
    }
  }

  /**
   * The loop over an object source into an object output is a run of `Put`s
   * of the new values, or stops at the first property whose new value is an
   * error.
   */
  lemma {:induction false} MergeFromIsPutAll(target: Json, out: Json, source: Json, k: nat)
    requires source.JObj? && k <= |source.fields| && out.JObj?
    ensures MergeFrom(target, out, source, k) ==
      match NewValues(target, source, k)
      case Ok(vs) => Ok(JObj(PutAll(out.fields, Keys(source.fields)[k..], vs)))
      case Err(e) => Err(e)
    decreases |source.fields| - k
  {
    var ks := Keys(source.fields)[k..];
    if k < |source.fields| {
      var f := source.fields[k];
      assert EntryKey(source, k) == f.key;
      var nv := MergeValue(target, f.key, f.value);
      if nv.Ok? {
        MergeFromIsPutAll(target, JObj(Put(out.fields, f.key, nv.value)), source, k + 1);
        assert ks[0] == f.key && ks[1..] == Keys(source.fields)[k + 1..];
      }
    } else {
      assert ks == [];
    }
  }

  /**
   * Merging a parsed object into anything but an array gives an object that
   * has exactly the keys of (the spread of) the target and of the source,
   * and keeps every key the source does not name with its value.
   */
  lemma DeepMergeObjectKeys(target: Json, source: Json, key: string)
    requires source.JObj? && !target.JArr?
    requires DeepMerge(target, source).Ok?
    ensures var res := DeepMerge(target, source).value;
      res.JObj? &&
      (key in Keys(res.fields) <==> key in Keys(Spread(target).fields) || key in Keys(source.fields)) &&
      (key !in Keys(source.fields) ==> Get(res.fields, key) == Get(Spread(target).fields, key))
  {
    var ks := Keys(source.fields);
    MergeFromIsPutAll(target, Spread(target), source, 0);
    assert ks[0..] == ks;
    var vs := NewValues(target, source, 0).value;
    PutAllKeys(Spread(target).fields, ks, vs, key);
    if key !in ks {
      PutAllOthers(Spread(target).fields, ks, vs, key);
    }
  }

  /**
   * Under each source key the output holds the value of its last occurrence:
   * a non-object is copied; an object is copied when the target object lacks
   * the key and merged recursively into the target's value when it has it.
   */
  lemma DeepMergeObjectValue(target: Json, source: Json, j: nat)
    requires source.JObj? && !target.JArr?
    requires DeepMerge(target, source).Ok?
    requires j < |source.fields|
    requires forall i :: j < i < |source.fields| ==> source.fields[i].key != source.fields[j].key
    ensures var res := DeepMerge(target, source).value;
      var f := source.fields[j];
      res.JObj? &&
      (!IsObjectLike(f.value) ==> Get(res.fields, f.key) == Some(f.value)) &&
      (IsObjectLike(f.value) ==> target.JObj?) &&
      (IsObjectLike(f.value) && Get(target.fields, f.key).None? ==> Get(res.fields, f.key) == Some(f.value)) &&
      (IsObjectLike(f.value) && Get(target.fields, f.key).Some? ==>
        DeepMerge(Get(target.fields, f.key).value, f.value).Ok? &&
        Get(res.fields, f.key) == Some(DeepMerge(Get(target.fields, f.key).value, f.value).value))
  {
    var ks := Keys(source.fields);
    MergeFromIsPutAll(target, Spread(target), source, 0);
    assert ks[0..] == ks;
    NewValuesAt(target, source, 0, j);
    PutAllLast(Spread(target).fields, ks, NewValues(target, source, 0).value, j);
  }

  /** A primitive or null target throws exactly when some source property holds an object or array. */
  lemma {:induction false} MergeFromPrimitiveTarget(target: Json, out: Json, source: Json, k: nat)
    requires k <= EntryCount(source) && !IsObjectLike(target)
    ensures MergeFrom(target, out, source, k).Err? <==>
      exists j :: k <= j < EntryCount(source) && IsObjectLike(EntryValue(source, j))
    decreases EntryCount(source) - k
  {
    if k < EntryCount(source) {
      var key := EntryKey(source, k);
      var nv := MergeValue(target, key, EntryValue(source, k));
      if nv.Ok? {
        MergeFromPrimitiveTarget(target, Assign(out, key, nv.value), source, k + 1);
        if exists j :: k <= j < EntryCount(source) && IsObjectLike(EntryValue(source, j)) {
          var j :| k <= j < EntryCount(source) && IsObjectLike(EntryValue(source, j));
          assert j != k;
        }
      }
    }
  }

  /** Merging an object or array into a primitive or null fails iff the source nests an object or array. */
  lemma DeepMergePrimitiveTarget(target: Json, source: Json)
    requires IsObjectLike(source) && !IsObjectLike(target)
    ensures DeepMerge(target, source).Err? <==>
      exists j :: 0 <= j < EntryCount(source) && IsObjectLike(EntryValue(source, j))
  {
    MergeFromPrimitiveTarget(target, Spread(target), source, 0);
  }

  /**
   * Merging an array into an array output of at least `k` elements: the
   * result has as many elements as the longer of the two, and elements past
   * the source's end stay as they were.
   */
  lemma {:induction false} MergeFromArrays(target: Json, out: Json, source: Json, k: nat)
    requires source.JArr? && out.JArr? && k <= |source.items| && k <= |out.items|
    requires MergeFrom(target, out, source, k).Ok?
    ensures var res := MergeFrom(target, out, source, k).value;
      res.JArr? &&
      |res.items| == (if |out.items| >= |source.items| then |out.items| else |source.items|) &&
      (forall i :: |source.items| <= i < |out.items| ==> res.items[i] == out.items[i])
    decreases |source.items| - k
  {
    if k < |source.items| {
      var key := EntryKey(source, k);
      var nv := MergeValue(target, key, EntryValue(source, k));
      assert nv.Ok?;
      ArrayIndexOfKey(k);
      var out' := Assign(out, key, nv.value);
      MergeFromArrays(target, out', source, k + 1);
    }
  }

  /** An array merged into an array is as long as the longer one and keeps the target's tail. */
  lemma DeepMergeArrays(target: Json, source: Json)
    requires target.JArr? && source.JArr?
    requires DeepMerge(target, source).Ok?
    ensures var res := DeepMerge(target, source).value;
      res.JArr? &&
      |res.items| == (if |target.items| >= |source.items| then |target.items| else |source.items|) &&
      (forall i :: |source.items| <= i < |target.items| ==> res.items[i] == target.items[i])
  {
    MergeFromArrays(target, target, source, 0);
  }
  /** Splitting the merged text on newlines gives back exactly the merged lines. */
  lemma MergeTextSplits(original: string, update: string)
    ensures Split(MergeText(original, update), '\n') == MergeLines(Split(original, '\n'), Split(update, '\n'))
  {
    var o, u := Split(original, '\n'), Split(update, '\n');
    var r := MergeLines(o, u);
    var d := Dedup(o);
    MergeLinesProperties(o, u);
    assert o[0] in d;
    forall i | 0 <= i < |r|
      ensures '\n' !in r[i]
    {
      if i < |d| {
        assert r[i] == d[i] && d[i] in o;
      } else {
        assert r[i] in u;
      }
    }
    SplitJoin(r, '\n');
  }

  // ---------------------------------------------------------------------------
  // Choosing between the JSON and the text merge

  /**
   * How `mergeContent` ends: with the merged text, by throwing `Content merge
   * failed`, or in a case this model does not cover (an object merged into
   * an array, which JavaScript completes with an array carrying named
   * properties).
   */
  datatype ContentMerge = Merged(text: string) | MergeFailed(message: string) | NotModelled

  /**
   * `mergeContent`: the JSON merge, pretty-printed, when both texts parse as
   * JSON, otherwise the text merge. A merge that throws is reported as
   * `Content merge failed`. `JSON.parse` and `JSON.stringify` are parameters.
   */
  function MergeContent(original: string, update: string,
                        parse: string -> Option<Json>, stringify: Json -> string): (r: ContentMerge)
    ensures !(parse(original).Some? && parse(update).Some?) ==> r == Merged(MergeText(original, update))
    ensures parse(original).Some? && parse(update).Some? ==>
      var m := DeepMerge(parse(original).value, parse(update).value);
      (r.Merged? <==> m.Ok?) &&
      (r.Merged? ==> r.text == stringify(m.value)) &&
      (r.MergeFailed? <==> m.Err? && m.error.TypeError?) &&
      (r.NotModelled? <==> m == Err(Unmodelled))
    ensures r.MergeFailed? ==> r.message == "Content merge failed"
  {
    if parse(original).Some? && parse(update).Some? then
      match DeepMerge(parse(original).value, parse(update).value)
      case Ok(merged) => Merged(stringify(merged))
      case Err(TypeError(_)) => MergeFailed("Content merge failed")
      case Err(Unmodelled) => NotModelled
    else Merged(MergeText(original, update))
  }

  // ---------------------------------------------------------------------------
  // Chunked reading and writing

  const CHUNK_SIZE: nat := 50 * 1024 * 1024

  /** `Math.ceil(size / CHUNK_SIZE)`: the fewest chunks that hold `size` bytes. */
  function ChunkCount(size: nat): (n: nat)
    ensures n * CHUNK_SIZE >= size
    ensures n == 0 || (n - 1) * CHUNK_SIZE < size
  {
    (size + CHUNK_SIZE - 1) / CHUNK_SIZE
  }

  /** The exclusive end `Math.min((i + 1) * CHUNK_SIZE, size)` of chunk `i`. */
  function ChunkEnd(size: nat, i: nat): nat {
    if (i + 1) * CHUNK_SIZE < size then (i + 1) * CHUNK_SIZE else size
  }

  /** The ranges `[i * CHUNK_SIZE, ChunkEnd(size, i))` are non-empty, at most a chunk long, and meet end to start from 0 to `size`. */
  lemma ChunkRanges(size: nat, i: nat)
    requires i < ChunkCount(size)
    ensures i * CHUNK_SIZE < ChunkEnd(size, i) <= size
    ensures ChunkEnd(size, i) - i * CHUNK_SIZE <= CHUNK_SIZE
    ensures i + 1 < ChunkCount(size) ==> ChunkEnd(size, i) == (i + 1) * CHUNK_SIZE
    ensures i + 1 == ChunkCount(size) ==> ChunkEnd(size, i) == size
  {
  }

  /** The bytes chunk `i` was meant to hold: `[start, end)`. */
  function ChunkIntended<T>(content: seq<T>, i: nat): seq<T>
    requires i < ChunkCount(|content|)
  {
    content[i * CHUNK_SIZE .. ChunkEnd(|content|, i)]
  }

  /**
   * The bytes `readChunk` reads for chunk `i`: `createReadStream` treats `end`
   * as inclusive, so it reads `[start, end]`, cut at the end of the file.
   */
  function ChunkAsRead<T>(content: seq<T>, i: nat): seq<T>
    requires i < ChunkCount(|content|)
  {
    var end := ChunkEnd(|content|, i);
    content[i * CHUNK_SIZE .. if end + 1 < |content| then end + 1 else |content|]
  }

  function Flatten<T>(parts: seq<seq<T>>): seq<T> {
    if |parts| == 0 then [] else parts[0] + Flatten(parts[1..])
  }

  /** The intended chunks from the `i`-th on. */
  function IntendedFrom<T>(content: seq<T>, i: nat): seq<seq<T>>
    decreases ChunkCount(|content|) - i
  {
    if i >= ChunkCount(|content|) then [] else [ChunkIntended(content, i)] + IntendedFrom(content, i + 1)
  }

  /** The intended chunks, in order, put back together give the file. */
  lemma {:induction false} IntendedChunksCover<T>(content: seq<T>, i: nat)
    requires i <= ChunkCount(|content|)
    ensures i * CHUNK_SIZE >= |content| ==> Flatten(IntendedFrom(content, i)) == []
    ensures i * CHUNK_SIZE < |content| ==> Flatten(IntendedFrom(content, i)) == content[i * CHUNK_SIZE..]
    decreases ChunkCount(|content|) - i
  {
    if i < ChunkCount(|content|) {
      ChunkRanges(|content|, i);
      IntendedChunksCover(content, i + 1);
      var rest := IntendedFrom(content, i + 1);
      assert IntendedFrom(content, i)[1..] == rest;
      if i + 1 < ChunkCount(|content|) {
        ChunkRanges(|content|, i + 1);
        assert content[i * CHUNK_SIZE..] == ChunkIntended(content, i) + content[(i + 1) * CHUNK_SIZE..];
      } else {
        assert ChunkIntended(content, i) == content[i * CHUNK_SIZE..];
      }
    }
  }

  /** All intended chunks of a file, concatenated, are the file. */
  lemma IntendedChunksConcat<T>(content: seq<T>)
    ensures Flatten(IntendedFrom(content, 0)) == content
  {
    IntendedChunksCover(content, 0);
  }

  /**
   * Every chunk but the last is read with one byte too many: the first byte
   * of the next chunk, which is then read again.
   */
  lemma ChunkAsReadOverlaps<T>(content: seq<T>, i: nat)
    requires i + 1 < ChunkCount(|content|)
    ensures |ChunkAsRead(content, i)| == CHUNK_SIZE + 1
    ensures ChunkAsRead(content, i) == ChunkIntended(content, i) + [ChunkIntended(content, i + 1)[0]]
  {
    ChunkRanges(|content|, i);
    ChunkRanges(|content|, i + 1);
  }

  /** The last chunk is read as intended. */
  lemma LastChunkAsIntended<T>(content: seq<T>)
    requires ChunkCount(|content|) > 0
    ensures ChunkAsRead(content, ChunkCount(|content|) - 1) == ChunkIntended(content, ChunkCount(|content|) - 1)
  {
    ChunkRanges(|content|, ChunkCount(|content|) - 1);
  }

  /** A file one byte longer than a chunk is read as `CHUNK_SIZE + 2` bytes: its byte `CHUNK_SIZE` twice. */
  lemma ChunksAsReadDuplicateByte<T>(content: seq<T>)
    requires |content| == CHUNK_SIZE + 1
    ensures ChunkCount(|content|) == 2
    ensures |ChunkAsRead(content, 0) + ChunkAsRead(content, 1)| == CHUNK_SIZE + 2
    ensures ChunkAsRead(content, 0) + ChunkAsRead(content, 1) != content
  {
    ChunkAsReadOverlaps(content, 0);
    LastChunkAsIntended(content);
    ChunkRanges(|content|, 1);
  }

  /**
   * `processFileInChunks`: `ChunkCount(size)` reads, one per range in order,
   * each handed to `processor`, whose results are collected in chunk order.
   */
  method ProcessFileInChunks<T, R>(content: seq<T>, processor: seq<T> -> R) returns (results: seq<R>)
    ensures |results| == ChunkCount(|content|)
    ensures forall i :: 0 <= i < |results| ==> results[i] == processor(ChunkAsRead(content, i))
  {
    var chunks := ChunkCount(|content|);
    results := [];
    for i := 0 to chunks
      invariant |results| == i
      invariant forall k :: 0 <= k < i ==> results[k] == processor(ChunkAsRead(content, k))
    {
      var start := i * CHUNK_SIZE;
      var end := if (i + 1) * CHUNK_SIZE < |content| then (i + 1) * CHUNK_SIZE else |content|;
      ChunkRanges(|content|, i);
      var chunk := content[start .. if end + 1 < |content| then end + 1 else |content|];
      results := results + [processor(chunk)];
    }
  }

  /** `data` cut into `CHUNK_SIZE` pieces, in order; empty data is one empty piece. */
  function Chop<T>(data: seq<T>): (pieces: seq<seq<T>>)
    ensures |pieces| >= 1
    decreases |data|
  {
    if |data| <= CHUNK_SIZE then [data] else [data[..CHUNK_SIZE]] + Chop(data[CHUNK_SIZE..])
  }

  /** The first piece is at most a chunk; the rest, if any, are the pieces of what follows it. */
  lemma ChopStep<T>(data: seq<T>)
    ensures var n := if |data| < CHUNK_SIZE then |data| else CHUNK_SIZE;
      Chop(data) == [data[..n]] + (if |data| <= CHUNK_SIZE then [] else Chop(data[n..]))
  {
    if |data| <= CHUNK_SIZE {
      assert data[..|data|] == data;
    }
  }

  /** The pieces put back together are the data; each is at most a chunk, and none is empty unless the data is. */
  lemma {:induction false} ChopProperties<T>(data: seq<T>)
    ensures Flatten(Chop(data)) == data
    ensures forall p :: p in Chop(data) ==> |p| <= CHUNK_SIZE
    ensures data != [] ==> forall p :: p in Chop(data) ==> p != []
    decreases |data|
  {
    if |data| > CHUNK_SIZE {
      ChopProperties(data[CHUNK_SIZE..]);
      var rest := Chop(data[CHUNK_SIZE..]);
      assert Chop(data)[1..] == rest;
      assert data == data[..CHUNK_SIZE] + data[CHUNK_SIZE..];
    } else {
      assert Chop(data)[1..] == [];
    }
  }

  /** What `writeStreamData` does to the stream. */
  datatype WriteEvent<T> = Write(piece: seq<T>) | AwaitDrain | End(piece: seq<T>)

  function Pieces<T>(events: seq<WriteEvent<T>>): seq<seq<T>> {
    if |events| == 0 then []
    else (if events[0].AwaitDrain? then [] else [events[0].piece]) + Pieces(events[1..])
  }

  lemma {:induction false} PiecesAppend<T>(events: seq<WriteEvent<T>>, e: WriteEvent<T>)
    ensures Pieces(events + [e]) == Pieces(events) + (if e.AwaitDrain? then [] else [e.piece])
  {
    if |events| > 0 {
      assert (events + [e])[1..] == events[1..] + [e];
      PiecesAppend(events[1..], e);
    }
  }

  /** Only the last event may end the stream, and every wait for `drain` follows a write. */
  predicate EventsOrdered<T>(events: seq<WriteEvent<T>>) {
    (forall i :: 0 <= i < |events| - 1 ==> !events[i].End?) &&
    (forall i :: 0 <= i < |events| && events[i].AwaitDrain? ==> i > 0 && events[i - 1].Write?)
  }

  lemma OrderedAppend<T>(events: seq<WriteEvent<T>>, e: WriteEvent<T>)
    requires EventsOrdered(events) && (|events| > 0 ==> !events[|events| - 1].End?)
    requires e.AwaitDrain? ==> |events| > 0 && events[|events| - 1].Write?
    ensures EventsOrdered(events + [e])
  {
  }

  /** How many of `events` are writes: the count `accepts` is asked with next. */
  function WriteCount<T>(events: seq<WriteEvent<T>>): nat {
    if |events| == 0 then 0
    else WriteCount(events[..|events| - 1]) + (if events[|events| - 1].Write? then 1 else 0)
  }

  /** A write is followed by a wait for `drain` exactly when `accepts` refused it. */
  predicate DrainsAsAnswered<T>(events: seq<WriteEvent<T>>, accepts: nat -> bool) {
    forall i :: 0 <= i < |events| - 1 && events[i].Write? ==>
      (events[i + 1].AwaitDrain? <==> !accepts(WriteCount(events[..i])))
  }

  lemma DrainsAppend<T>(events: seq<WriteEvent<T>>, e: WriteEvent<T>, accepts: nat -> bool)
    requires DrainsAsAnswered(events, accepts)
    requires |events| > 0 && events[|events| - 1].Write? ==>
      (e.AwaitDrain? <==> !accepts(WriteCount(events[..|events| - 1])))
    ensures DrainsAsAnswered(events + [e], accepts)
    ensures WriteCount(events + [e]) == WriteCount(events) + (if e.Write? then 1 else 0)
  {
    var ev := events + [e];
    assert ev[..|events|] == events;
    forall i | 0 <= i < |ev| - 1 && ev[i].Write?
      ensures ev[i + 1].AwaitDrain? <==> !accepts(WriteCount(ev[..i]))
    {
      assert ev[..i] == events[..i];
    }
  }

  /** The loop state of `WriteStreamData`: `writes` counts the writes, and the last write, if not yet answered by a wait, was accepted. */
  predicate DrainState<T>(events: seq<WriteEvent<T>>, writes: nat, accepts: nat -> bool) {
    writes == WriteCount(events) && DrainsAsAnswered(events, accepts) &&
    (|events| > 0 && events[|events| - 1].Write? ==> accepts(WriteCount(events[..|events| - 1])))
  }

  lemma WriteAnswered<T>(events: seq<WriteEvent<T>>, chunk: seq<T>, writes: nat, accepts: nat -> bool)
    requires DrainState(events, writes, accepts)
    ensures DrainsAsAnswered(events + [Write(chunk)], accepts)
    ensures WriteCount(events + [Write(chunk)]) == writes + 1
    ensures (events + [Write(chunk)])[..|events|] == events
    ensures accepts(writes) ==> DrainState(events + [Write(chunk)], writes + 1, accepts)
  {
    DrainsAppend(events, Write(chunk), accepts);
    assert (events + [Write(chunk)])[..|events|] == events;
  }

  lemma DrainAfterRefusal<T>(events: seq<WriteEvent<T>>, writes: nat, accepts: nat -> bool)
    requires |events| > 0 && events[|events| - 1].Write?
    requires DrainsAsAnswered(events, accepts) && writes == WriteCount(events)
    requires !accepts(WriteCount(events[..|events| - 1]))
    ensures DrainState(events + [AwaitDrain], writes, accepts)
  {
    DrainsAppend(events, AwaitDrain, accepts);
  }

  /** The events of `WriteStreamData` so far: ordered, and every refused write answered by a wait. */
  predicate WriterState<T>(events: seq<WriteEvent<T>>, writes: nat, accepts: nat -> bool) {
    EventsOrdered(events) && DrainState(events, writes, accepts)
  }

  /** One write, followed by a wait for `drain` when it is refused, keeps the loop state of `WriteStreamData`. */
  lemma WriteStep<T>(events: seq<WriteEvent<T>>, chunk: seq<T>, step: seq<WriteEvent<T>>, writes: nat, accepts: nat -> bool)
    requires WriterState(events, writes, accepts) && (|events| > 0 ==> !events[|events| - 1].End?)
    requires step == if accepts(writes) then [Write(chunk)] else [Write(chunk), AwaitDrain]
    ensures Pieces(events + step) == Pieces(events) + [chunk]
    ensures |events + step| > 0 && !(events + step)[|events + step| - 1].End?
    ensures WriterState(events + step, writes + 1, accepts)
  {
    PiecesAppend(events, Write(chunk));
    OrderedAppend(events, Write(chunk));
    WriteAnswered(events, chunk, writes, accepts);
    var written := events + [Write(chunk)];
    if !accepts(writes) {
      PiecesAppend(written, AwaitDrain);
      OrderedAppend(written, AwaitDrain);
      DrainAfterRefusal(written, writes + 1, accepts);
      assert events + step == written + [AwaitDrain];
    } else {
      assert events + step == written;
    }
  }

  /** Taking the next piece off `rest` moves it from the pieces still to come to the pieces done. */
  lemma ChopAdvance<T>(done: seq<seq<T>>, rest: seq<T>, data: seq<T>)
    requires done + Chop(rest) == Chop(data)
    ensures var n := if |rest| < CHUNK_SIZE then |rest| else CHUNK_SIZE;
      if |rest| <= CHUNK_SIZE then done + [rest[..n]] == Chop(data)
      else (done + [rest[..n]]) + Chop(rest[n..]) == Chop(data)
  {
    ChopStep(rest);
  }

  /** Ending the stream with the last piece keeps the loop state of `WriteStreamData`. */
  lemma EndStep<T>(events: seq<WriteEvent<T>>, chunk: seq<T>, writes: nat, accepts: nat -> bool)
    requires WriterState(events, writes, accepts) && (|events| > 0 ==> !events[|events| - 1].End?)
    ensures Pieces(events + [End(chunk)]) == Pieces(events) + [chunk]
    ensures WriterState(events + [End(chunk)], writes, accepts)
  {
    PiecesAppend(events, End(chunk));
    OrderedAppend(events, End(chunk));
    DrainsAppend(events, End(chunk), accepts);
  }

  /**
   * `writeStreamData`: the data goes out as the pieces of `Chop`, in order;
   * every piece but the last is written, the last is passed to `end`, and a
   * write is followed by waiting for `drain` before the next piece exactly
   * when `accepts` refuses it (its k-th answer, k counting earlier writes).
   */
  method WriteStreamData<T>(data: seq<T>, accepts: nat -> bool) returns (events: seq<WriteEvent<T>>)
    ensures Pieces(events) == Chop(data)
    ensures |events| > 0 && events[|events| - 1].End?
    ensures forall i :: 0 <= i < |events| - 1 ==> !events[i].End?
    ensures forall i :: 0 <= i < |events| - 1 && events[i].AwaitDrain? ==> i > 0 && events[i - 1].Write?
    ensures DrainsAsAnswered(events, accepts)
  {
    events := [];
    var rest := data;
    var writes := 0;
    var first := true;
    while first || |rest| > 0
      invariant first ==> events == []
      invariant !first ==> |events| > 0
      invariant first || |rest| > 0 ==> Pieces(events) + Chop(rest) == Chop(data)
      invariant !first && |rest| == 0 ==> Pieces(events) == Chop(data) && events[|events| - 1].End?
      invariant |rest| > 0 && |events| > 0 ==> !events[|events| - 1].End?
      invariant WriterState(events, writes, accepts)
      decreases |rest|, if first then 1 else 0
    {
      first := false;
      var n := if |rest| < CHUNK_SIZE then |rest| else CHUNK_SIZE;
      var chunk := rest[..n];
      ChopAdvance(Pieces(events), rest, data);
      rest := rest[n..];
      if |rest| == 0 {
        EndStep(events, chunk, writes, accepts);
        events := events + [End(chunk)];
      } else {
        var ok := accepts(writes);
        var step := if ok then [Write(chunk)] else [Write(chunk), AwaitDrain];
        WriteStep(events, chunk, step, writes, accepts);
        writes := writes + 1;
        events := events + step;
      }
    }
  }
}
