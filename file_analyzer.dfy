/**
 * The pure classifiers and summaries of `FileAnalyzer.js`: extension lookups,
 * depth-limited summaries of parsed JSON and XML, the XML element, attribute
 * and depth counters, CSV column-type inference, and the byte-class counters
 * of `StreamAnalyzer` with its binary/text verdict.
 *
 * Parsed XML is what xml2js builds: objects whose `$` property holds the
 * attributes, arrays of child elements, and strings.
 */
module FileAnalyzer {
  import opened Wrappers
  import opened JsonValue
  import opened Strings

  // ---------------------------------------------------------------------------
  // Extensions

  const TextExtensions: seq<string> :=
    [".txt", ".md", ".js", ".py", ".java", ".cpp", ".cs", ".json", ".xml", ".yaml", ".yml", ".csv"]

  /** The extension-to-type table of `getFileType`, in the source's order. */
  const MimeTypes: seq<(string, string)> := [
    (".txt", "text/plain"),
    (".js", "application/javascript"),
    (".json", "application/json"),
    (".yml", "application/yaml"),
    (".yaml", "application/yaml"),
    (".xml", "application/xml"),
    (".csv", "text/csv"),
    (".md", "text/markdown"),
    (".jpg", "image/jpeg"),
    (".png", "image/png"),
    (".gif", "image/gif"),
    (".pdf", "application/pdf"),
    (".zip", "application/zip"),
    (".tar", "application/x-tar"),
    (".gz", "application/gzip")]

  const OctetStream := "application/octet-stream"

  /** `isTextFile`: one of the twelve listed extensions. */
  predicate IsTextFile(ext: string) {
    ext in TextExtensions
  }

  function TableKeys(table: seq<(string, string)>): (ks: seq<string>)
    ensures |ks| == |table| && forall i :: 0 <= i < |table| ==> ks[i] == table[i].0
  {
    seq(|table|, i requires 0 <= i < |table| => table[i].0)
  }

  /** The type the table lists for `ext`, if any. */
  function Lookup(table: seq<(string, string)>, ext: string): (r: Option<string>)
    ensures r.None? <==> ext !in TableKeys(table)
    ensures r.Some? ==> (ext, r.value) in table
  {
    if |table| == 0 then None
    else if table[0].0 == ext then Some(table[0].1)
    else Lookup(table[1..], ext)
  }

  /** `getFileType`: the listed MIME type, or `application/octet-stream`. */
  function GetFileType(ext: string): (mime: string)
    ensures ext in TableKeys(MimeTypes) ==> (ext, mime) in MimeTypes
    ensures ext !in TableKeys(MimeTypes) ==> mime == OctetStream
  {
    var t := Lookup(MimeTypes, ext);
    if t.Some? then t.value else OctetStream
  }

  /**
   * Four of the text extensions have no MIME type of their own: `.py`,
   * `.java`, `.cpp` and `.cs` are text files typed `application/octet-stream`.
   */
  lemma TextFileTypes(ext: string)
    requires IsTextFile(ext)
    ensures GetFileType(ext) == OctetStream <==> ext in [".py", ".java", ".cpp", ".cs"]
  {
    FileTypeListed(ext);
    TextExtensionKeys(ext);
  }

  /** Which text extensions the MIME table lists. */
  lemma TextExtensionKeys(ext: string)
    requires ext in TextExtensions
    ensures ext !in TableKeys(MimeTypes) <==> ext in [".py", ".java", ".cpp", ".cs"]
  {
    if ext in [".py", ".java", ".cpp", ".cs"] {
      UntypedTextExtension(ext);
    } else {
      TypedTextExtension(ext);
    }
  }

  lemma TypedTextExtension(ext: string)
    requires ext in [".txt", ".md", ".js", ".json", ".xml", ".yaml", ".yml", ".csv"]
    ensures ext in TableKeys(MimeTypes)
  {
    var keys := TableKeys(MimeTypes);
    var typed := [".txt", ".md", ".js", ".json", ".xml", ".yaml", ".yml", ".csv"];
    var at := [0, 7, 1, 2, 5, 4, 3, 6];
    var k :| 0 <= k < 8 && typed[k] == ext;
    assert keys[at[k]] == MimeTypes[at[k]].0;
  }

  lemma UntypedTextExtension(ext: string)
    requires ext in [".py", ".java", ".cpp", ".cs"]
    ensures ext !in TableKeys(MimeTypes)
  {
    var keys := TableKeys(MimeTypes);
    forall i | 0 <= i < |keys|
      ensures keys[i] != ext
    {
      assert keys[i] == MimeTypes[i].0;
    }
  }

  /** The fallback answer means exactly an unlisted extension: no listed type is `application/octet-stream`. */
  lemma FileTypeListed(ext: string)
    ensures GetFileType(ext) == OctetStream <==> ext !in TableKeys(MimeTypes)
  {
    assert forall i :: 0 <= i < |MimeTypes| ==> MimeTypes[i].1 != OctetStream;
    LookupAvoids(MimeTypes, ext, OctetStream);
  }

  /** A lookup only ever answers with a type the table lists. */
  lemma {:induction false} LookupAvoids(table: seq<(string, string)>, ext: string, v: string)
    requires forall i :: 0 <= i < |table| ==> table[i].1 != v
    ensures Lookup(table, ext) != Some(v)
  {
    if |table| > 0 && table[0].0 != ext {
      assert forall i :: 0 <= i < |table[1..]| ==> table[1..][i] == table[i + 1];
      LookupAvoids(table[1..], ext, v);
    }
  }

  // ---------------------------------------------------------------------------
  // Structure summaries

  const MaxDepthReached := JStr("Max depth reached")

  /**
   * `analyzeJsonStructure`: past the depth limit a marker; an array becomes
   * `{type: 'array', length, sample}` with its first three items summarised;
   * an object keeps its keys with summarised values; anything else becomes
   * its `typeof`, so null becomes `"object"`.
   */
  function AnalyzeJson(j: Json, depth: int, maxDepth: int): (r: Json)
    ensures depth >= maxDepth ==> r == MaxDepthReached
    ensures depth < maxDepth && j.JArr? ==>
      r.JObj? && |r.fields| == 3 &&
      r.fields[0] == Field("type", JStr("array")) && r.fields[1] == Field("length", JNum(|j.items|)) &&
      r.fields[2] == Field("sample", JArr(AnalyzeJsonItems(j.items, 3, depth + 1, maxDepth)))
    ensures depth < maxDepth && j.JObj? ==> r.JObj? && Keys(r.fields) == Keys(j.fields)
    ensures depth < maxDepth && !IsObjectLike(j) ==> r == JStr(TypeOf(j))
    decreases j, 1
  {
    if depth >= maxDepth then MaxDepthReached
    else match j
      case JArr(items) =>
        JObj([Field("type", JStr("array")), Field("length", JNum(|items|)),
              Field("sample", JArr(AnalyzeJsonItems(items, 3, depth + 1, maxDepth)))])
      case JObj(fields) => JObj(AnalyzeJsonFields(fields, depth + 1, maxDepth))
      case _ => JStr(TypeOf(j))
  }

  /** The summaries of the first `limit` items (all of them if there are fewer). */
  function AnalyzeJsonItems(items: seq<Json>, limit: nat, depth: int, maxDepth: int): (r: seq<Json>)
    ensures |r| == if |items| < limit then |items| else limit
    ensures forall i :: 0 <= i < |r| ==> r[i] == AnalyzeJson(items[i], depth, maxDepth)
    decreases items, 0
  {
    if |items| == 0 || limit == 0 then []
    else [AnalyzeJson(items[0], depth, maxDepth)] + AnalyzeJsonItems(items[1..], limit - 1, depth, maxDepth)
  }

  function AnalyzeJsonFields(fields: seq<Field>, depth: int, maxDepth: int): (r: seq<Field>)
    ensures Keys(r) == Keys(fields)
    ensures forall i :: 0 <= i < |fields| ==> r[i].value == AnalyzeJson(fields[i].value, depth, maxDepth)
    decreases fields, 0
  {
    if |fields| == 0 then []
    else [Field(fields[0].key, AnalyzeJson(fields[0].value, depth, maxDepth))] + AnalyzeJsonFields(fields[1..], depth, maxDepth)
  }

  /**
   * `analyzeXmlStructure`: like the JSON summary, except that an array becomes
   * the plain list of its first three summarised items.
   */
  function AnalyzeXml(j: Json, depth: int, maxDepth: int): (r: Json)
    ensures depth >= maxDepth ==> r == MaxDepthReached
    ensures depth < maxDepth && j.JArr? ==>
      r == JArr(AnalyzeXmlItems(j.items, 3, depth + 1, maxDepth)) && |r.items| <= 3
    ensures depth < maxDepth && j.JObj? ==> r.JObj? && Keys(r.fields) == Keys(j.fields)
    ensures depth < maxDepth && !IsObjectLike(j) ==> r == JStr(TypeOf(j))
    decreases j, 1
  {
    if depth >= maxDepth then MaxDepthReached
    else match j
      case JArr(items) => JArr(AnalyzeXmlItems(items, 3, depth + 1, maxDepth))
      case JObj(fields) => JObj(AnalyzeXmlFields(fields, depth + 1, maxDepth))
      case _ => JStr(TypeOf(j))
  }

  /** The summaries of the first `limit` items (all of them if there are fewer). */
  function AnalyzeXmlItems(items: seq<Json>, limit: nat, depth: int, maxDepth: int): (r: seq<Json>)
    ensures |r| == if |items| < limit then |items| else limit
    ensures forall i :: 0 <= i < |r| ==> r[i] == AnalyzeXml(items[i], depth, maxDepth)
    decreases items, 0
  {
    if |items| == 0 || limit == 0 then []
    else [AnalyzeXml(items[0], depth, maxDepth)] + AnalyzeXmlItems(items[1..], limit - 1, depth, maxDepth)
  }

  function AnalyzeXmlFields(fields: seq<Field>, depth: int, maxDepth: int): (r: seq<Field>)
    ensures Keys(r) == Keys(fields)
    ensures forall i :: 0 <= i < |fields| ==> r[i].value == AnalyzeXml(fields[i].value, depth, maxDepth)
    decreases fields, 0
  {
    if |fields| == 0 then []
    else [Field(fields[0].key, AnalyzeXml(fields[0].value, depth, maxDepth))] + AnalyzeXmlFields(fields[1..], depth, maxDepth)
  }

  /** How deep a summary nests: objects and arrays each add a level. */
  function Nesting(j: Json): nat
    decreases j, 1
  {
    match j
    case JArr(items) => 1 + NestingItems(items)
    case JObj(fields) => 1 + NestingFields(fields)
    case _ => 0
  }

  function NestingItems(items: seq<Json>): nat
    decreases items, 0
  {
    if |items| == 0 then 0
    else var a, b := Nesting(items[0]), NestingItems(items[1..]); if a >= b then a else b
  }

  function NestingFields(fields: seq<Field>): nat
    decreases fields, 0
  {
    if |fields| == 0 then 0
    else var a, b := Nesting(fields[0].value), NestingFields(fields[1..]); if a >= b then a else b
  }

  /**
   * The XML summary is cut off at the depth limit: it nests at most
   * `maxDepth - depth` levels, whatever the input.
   */
  lemma {:induction false} AnalyzeXmlBounded(j: Json, depth: int, maxDepth: int)
    ensures Nesting(AnalyzeXml(j, depth, maxDepth)) <= if depth >= maxDepth then 0 else maxDepth - depth
    decreases j, 1
  {
    if depth < maxDepth {
      match j
      case JArr(items) => AnalyzeXmlItemsBounded(items, 3, depth + 1, maxDepth);
      case JObj(fields) => AnalyzeXmlFieldsBounded(fields, depth + 1, maxDepth);
      case _ =>
    }
  }

  lemma {:induction false} AnalyzeXmlItemsBounded(items: seq<Json>, limit: nat, depth: int, maxDepth: int)
    ensures NestingItems(AnalyzeXmlItems(items, limit, depth, maxDepth)) <= if depth >= maxDepth then 0 else maxDepth - depth
    decreases items, 0
  {
    if |items| > 0 && limit > 0 {
      AnalyzeXmlBounded(items[0], depth, maxDepth);
      AnalyzeXmlItemsBounded(items[1..], limit - 1, depth, maxDepth);
      assert AnalyzeXmlItems(items, limit, depth, maxDepth)[1..] == AnalyzeXmlItems(items[1..], limit - 1, depth, maxDepth);
    }
  }

  lemma {:induction false} AnalyzeXmlFieldsBounded(fields: seq<Field>, depth: int, maxDepth: int)
    ensures NestingFields(AnalyzeXmlFields(fields, depth, maxDepth)) <= if depth >= maxDepth then 0 else maxDepth - depth
    decreases fields, 0
  {
    if |fields| > 0 {
      AnalyzeXmlBounded(fields[0].value, depth, maxDepth);
      AnalyzeXmlFieldsBounded(fields[1..], depth, maxDepth);
      assert AnalyzeXmlFields(fields, depth, maxDepth)[1..] == AnalyzeXmlFields(fields[1..], depth, maxDepth);
    }
  }

  // ---------------------------------------------------------------------------
  // XML counters

  /** The number of elements: non-null, non-array objects; arrays are walked but not counted. */
  function ElementCount(j: Json): nat
    decreases j, 1
  {
    match j
    case JArr(items) => ElementCountItems(items)
    case JObj(fields) => 1 + ElementCountFields(fields)
    case _ => 0
  }

  function ElementCountItems(items: seq<Json>): nat
    decreases items, 0
  {
    if |items| == 0 then 0 else ElementCountItems(items[..|items| - 1]) + ElementCount(items[|items| - 1])
  }

  function ElementCountFields(fields: seq<Field>): nat
    decreases fields, 0
  {
    if |fields| == 0 then 0 else ElementCountFields(fields[..|fields| - 1]) + ElementCount(fields[|fields| - 1].value)
  }

  /** The attributes an object declares itself: the key count of an object-valued `$`. */
  function OwnAttributes(fields: seq<Field>): nat {
    var d := Get(fields, "$");
    if d.Some? && IsObjectLike(d.value) then EntryCount(d.value) else 0
  }

  /** The number of attributes over all objects of the tree. */
  function AttributeCount(j: Json): nat
    decreases j, 1
  {
    match j
    case JArr(items) => AttributeCountItems(items)
    case JObj(fields) => OwnAttributes(fields) + AttributeCountFields(fields)
    case _ => 0
  }

  function AttributeCountItems(items: seq<Json>): nat
    decreases items, 0
  {
    if |items| == 0 then 0 else AttributeCountItems(items[..|items| - 1]) + AttributeCount(items[|items| - 1])
  }

  function AttributeCountFields(fields: seq<Field>): nat
    decreases fields, 0
  {
    if |fields| == 0 then 0 else AttributeCountFields(fields[..|fields| - 1]) + AttributeCount(fields[|fields| - 1].value)
  }

  /**
   * `countXmlElements`: the closure's counter after walking `o`, starting
   * from `count`.
   */
  method TraverseElements(o: Json, count: nat) returns (count': nat)
    ensures count' == count + ElementCount(o)
    decreases o
  {
    count' := count;
    match o {
      case JArr(items) =>
        for k := 0 to |items|
          invariant count' == count + ElementCountItems(items[..k])
        {
          assert items[..k + 1][..k] == items[..k];
          count' := TraverseElements(items[k], count');
        }
        assert items[..|items|] == items;
      case JObj(fields) =>
        count' := count' + 1;
        for k := 0 to |fields|
          invariant count' == count + 1 + ElementCountFields(fields[..k])
        {
          assert fields[..k + 1][..k] == fields[..k];
          count' := TraverseElements(fields[k].value, count');
        }
        assert fields[..|fields|] == fields;
      case _ =>
    }
  }

  method CountXmlElements(obj: Json) returns (count: nat)
    ensures count == ElementCount(obj)
  {
    count := TraverseElements(obj, 0);
  }

  /** `countXmlAttributes`: the closure's counter after walking `o`, starting from `count`. */
  method TraverseAttributes(o: Json, count: nat) returns (count': nat)
    ensures count' == count + AttributeCount(o)
    decreases o
  {
    count' := count;
    match o {
      case JArr(items) =>
        for k := 0 to |items|
          invariant count' == count + AttributeCountItems(items[..k])
        {
          assert items[..k + 1][..k] == items[..k];
          count' := TraverseAttributes(items[k], count');
        }
        assert items[..|items|] == items;
      case JObj(fields) =>
        var attrs := Get(fields, "$");
        if attrs.Some? && IsObjectLike(attrs.value) {
          count' := count' + EntryCount(attrs.value);
        }
        for k := 0 to |fields|
          invariant count' == count + OwnAttributes(fields) + AttributeCountFields(fields[..k])
        {
          assert fields[..k + 1][..k] == fields[..k];
          count' := TraverseAttributes(fields[k].value, count');
        }
        assert fields[..|fields|] == fields;
      case _ =>
    }
  }

  method CountXmlAttributes(obj: Json) returns (count: nat)
    ensures count == AttributeCount(obj)
  {
    count := TraverseAttributes(obj, 0);
  }

  function Max(a: nat, b: nat): nat {
    if a >= b then a else b
  }

  /** `calculateXmlDepth`: 0 for primitives and null, the deepest item for arrays, one more than the deepest value for objects. */
  function XmlDepth(j: Json): (d: nat)
    ensures !j.JArr? && !j.JObj? ==> d == 0
    ensures j.JObj? ==> d >= 1
    decreases j, 1
  {
    match j
    case JArr(items) => XmlDepthItems(items)
    case JObj(fields) => 1 + XmlDepthFields(fields)
    case _ => 0
  }

  /** The deepest item: at least every item's depth and equal to one of them, 0 for no items. */
  function XmlDepthItems(items: seq<Json>): nat
    decreases items, 0
  {
    if |items| == 0 then 0 else Max(XmlDepthItems(items[..|items| - 1]), XmlDepth(items[|items| - 1]))
  }

  function XmlDepthFields(fields: seq<Field>): nat
    decreases fields, 0
  {
    if |fields| == 0 then 0 else Max(XmlDepthFields(fields[..|fields| - 1]), XmlDepth(fields[|fields| - 1].value))
  }

  /** An array is as deep as its deepest item, with no level of its own; an empty one has depth 0. */
  lemma {:induction false} ItemsDepthIsMax(items: seq<Json>)
    ensures forall i :: 0 <= i < |items| ==> XmlDepth(items[i]) <= XmlDepthItems(items)
    ensures |items| > 0 ==> exists i :: 0 <= i < |items| && XmlDepthItems(items) == XmlDepth(items[i])
    decreases |items|
  {
    if |items| > 0 {
      var n := |items| - 1;
      var init := items[..n];
      ItemsDepthIsMax(init);
      assert forall i :: 0 <= i < n ==> init[i] == items[i];
      if XmlDepthItems(init) < XmlDepth(items[n]) || n == 0 {
        assert XmlDepthItems(items) == XmlDepth(items[n]);
      } else {
        var k :| 0 <= k < n && XmlDepthItems(init) == XmlDepth(init[k]);
        assert XmlDepthItems(items) == XmlDepth(items[k]);
      }
    }
  }

  /** An object is one level deeper than its deepest value; an object with no properties has depth 1. */
  lemma {:induction false} FieldsDepthIsMax(fields: seq<Field>)
    ensures forall i :: 0 <= i < |fields| ==> 1 + XmlDepth(fields[i].value) <= XmlDepth(JObj(fields))
    ensures |fields| == 0 ==> XmlDepth(JObj(fields)) == 1
    ensures |fields| > 0 ==> exists i :: 0 <= i < |fields| && XmlDepth(JObj(fields)) == 1 + XmlDepth(fields[i].value)
    decreases |fields|
  {
    if |fields| > 0 {
      var n := |fields| - 1;
      var init := fields[..n];
      FieldsDepthIsMax(init);
      assert forall i :: 0 <= i < n ==> init[i] == fields[i];
      if XmlDepthFields(init) < XmlDepth(fields[n].value) || n == 0 {
        assert XmlDepthFields(fields) == XmlDepth(fields[n].value);
      } else {
        var k :| 0 <= k < n && XmlDepth(JObj(init)) == 1 + XmlDepth(init[k].value);
        assert XmlDepthFields(fields) == XmlDepth(fields[k].value);
      }
    }
  }

  /**
   * The depth never exceeds the element count (each level needs an element),
   * and it is zero exactly when there are no elements.
   */
  lemma {:induction false} DepthWithinElements(j: Json)
    ensures XmlDepth(j) <= ElementCount(j)
    ensures XmlDepth(j) == 0 <==> ElementCount(j) == 0
    decreases j, 1
  {
    match j
    case JArr(items) => DepthWithinElementsItems(items);
    case JObj(fields) => DepthWithinElementsFields(fields);
    case _ =>
  }

  lemma {:induction false} DepthWithinElementsItems(items: seq<Json>)
    ensures XmlDepthItems(items) <= ElementCountItems(items)
    ensures XmlDepthItems(items) == 0 <==> ElementCountItems(items) == 0
    decreases items, 0
  {
    if |items| > 0 {
      DepthWithinElementsItems(items[..|items| - 1]);
      DepthWithinElements(items[|items| - 1]);
    }
  }

  lemma {:induction false} DepthWithinElementsFields(fields: seq<Field>)
    ensures XmlDepthFields(fields) <= ElementCountFields(fields)
    ensures XmlDepthFields(fields) == 0 <==> ElementCountFields(fields) == 0
    decreases fields, 0
  {
    if |fields| > 0 {
      DepthWithinElementsFields(fields[..|fields| - 1]);
      DepthWithinElements(fields[|fields| - 1].value);
    }
  }

  /**
   * Attributes are only counted on objects, which are elements: a tree
   * without elements has no attributes.
   */
  lemma {:induction false} AttributesNeedElements(j: Json)
    ensures ElementCount(j) == 0 ==> AttributeCount(j) == 0
    decreases j, 1
  {
    match j
    case JArr(items) => AttributesNeedElementsItems(items);
    case JObj(fields) =>
    case _ =>
  }

  lemma {:induction false} AttributesNeedElementsItems(items: seq<Json>)
    ensures ElementCountItems(items) == 0 ==> AttributeCountItems(items) == 0
    decreases items, 0
  {
    if |items| > 0 {
      AttributesNeedElementsItems(items[..|items| - 1]);
      AttributesNeedElements(items[|items| - 1]);
    }
  }

  /** Walking two lists one after the other counts the attributes of both. */
  lemma {:induction false} AttributeCountItemsAppend(a: seq<Json>, b: seq<Json>)
    ensures AttributeCountItems(a + b) == AttributeCountItems(a) + AttributeCountItems(b)
    decreases |b|
  {
    if |b| > 0 {
      var n := |b| - 1;
      assert (a + b)[..|a + b| - 1] == a + b[..n];
      assert (a + b)[|a + b| - 1] == b[n];
      AttributeCountItemsAppend(a, b[..n]);
    } else {
      assert a + b == a;
    }
  }

  // ---------------------------------------------------------------------------
  // CSV column types

  datatype ColumnType = Number | Date | Boolean | Text | Mixed

  /** The name `inferColumnType` returns. */
  function ColumnTypeName(t: ColumnType): string {
    match t
    case Number => "number"
    case Date => "date"
    case Boolean => "boolean"
    case Text => "string"
    case Mixed => "mixed"
  }

  predicate AllIn(s: string, ok: char -> bool) {
    forall i :: 0 <= i < |s| ==> ok(s[i])
  }

  predicate IsHexDigit(c: char) { IsDigit(c) || 'a' <= c <= 'f' || 'A' <= c <= 'F' }
  predicate IsOctalDigit(c: char) { '0' <= c <= '7' }
  predicate IsBinaryDigit(c: char) { c == '0' || c == '1' }

  /** `0x…`, `0o…` or `0b…` with at least one digit of that base. */
  predicate IsNonDecimalLiteral(s: string) {
    |s| >= 3 && s[0] == '0' &&
    (((s[1] == 'x' || s[1] == 'X') && AllIn(s[2..], IsHexDigit)) ||
     ((s[1] == 'o' || s[1] == 'O') && AllIn(s[2..], IsOctalDigit)) ||
     ((s[1] == 'b' || s[1] == 'B') && AllIn(s[2..], IsBinaryDigit)))
  }

  /** An exponent: `e` or `E`, an optional sign, and at least one digit. */
  predicate IsExponent(s: string) {
    |s| >= 2 && (s[0] == 'e' || s[0] == 'E') &&
    var d := if s[1] == '+' || s[1] == '-' then s[2..] else s[1..];
    |d| > 0 && AllDigits(d)
  }

  /** The number of leading decimal digits. */
  function DigitRun(s: string): (n: nat)
    ensures n <= |s| && AllDigits(s[..n]) && (n < |s| ==> !IsDigit(s[n]))
  {
    if |s| > 0 && IsDigit(s[0]) then
      var n := 1 + DigitRun(s[1..]);
      assert s[..n] == [s[0]] + s[1..][..n - 1];
      n
    else 0
  }

  /** The digit run is the leading digits up to the first character that is not one. */
  lemma {:induction false} DigitRunIs(s: string, n: nat)
    requires n <= |s| && AllDigits(s[..n]) && (n < |s| ==> !IsDigit(s[n]))
    ensures DigitRun(s) == n
  {
    if n > 0 {
      assert s[1..][..n - 1] == s[1..n];
      assert IsDigit(s[..n][0]);
      DigitRunIs(s[1..], n - 1);
    }
  }

  /** Digits with an optional fraction (at least one digit in all), then an optional exponent. */
  predicate IsUnsignedDecimal(s: string) {
    s == "Infinity" ||
    var a := DigitRun(s);
    var rest := s[a..];
    if |rest| > 0 && rest[0] == '.' then
      var b := DigitRun(rest[1..]);
      a + b > 0 && (|rest[1 + b..]| == 0 || IsExponent(rest[1 + b..]))
    else
      a > 0 && (|rest| == 0 || IsExponent(rest))
  }

  /**
   * Whether `Number(value)` is not NaN: after trimming JavaScript whitespace
   * the text is empty, a non-decimal integer literal, or a signed decimal
   * literal (`Infinity` included).
   */
  predicate IsNumericString(value: string) {
    var t := JsTrim(value);
    |t| == 0 || IsNonDecimalLiteral(t) ||
    IsUnsignedDecimal(if |t| > 0 && (t[0] == '+' || t[0] == '-') then t[1..] else t)
  }

  /** The regular expression `^\d{4}-\d{2}-\d{2}` (a prefix test). */
  predicate StartsWithDate(value: string) {
    |value| >= 10 && AllDigits(value[..4]) && value[4] == '-' &&
    AllDigits(value[5..7]) && value[7] == '-' && AllDigits(value[8..10])
  }

  function AsciiLower(c: char): char {
    if 'A' <= c <= 'Z' then (c as int + 32) as char else c
  }

  /**
   * The regular expression `^(true|false)$` with the `i` flag: without the
   * `u` flag no non-ASCII character folds onto an ASCII one, so this is an
   * ASCII case-insensitive comparison.
   */
  predicate IsBooleanWord(value: string) {
    var lower := seq(|value|, i requires 0 <= i < |value| => AsciiLower(value[i]));
    lower == "true" || lower == "false"
  }

  /**
   * The class of one value, tested in the order number, date, boolean,
   * string. A value with a date prefix is never numeric, and a case variant
   * of `true` or `false` is neither numeric nor dated, so the date and
   * boolean classes are decided by their own tests alone.
   */
  function Classify(value: string): (t: ColumnType)
    ensures t != Mixed
    ensures t == Number <==> IsNumericString(value) && value != ""
    ensures t == Date <==> StartsWithDate(value)
    ensures t == Boolean <==> IsBooleanWord(value)
    ensures t == Text <==>
      !(IsNumericString(value) && value != "") && !StartsWithDate(value) && !IsBooleanWord(value)
  {
    DateIsNotNumber(value);
    BooleanWordIsPlain(value);
    if IsNumericString(value) && value != "" then Number
    else if StartsWithDate(value) then Date
    else if IsBooleanWord(value) then Boolean
    else Text
  }

  /** `inferColumnType`: the one class all values share, else `mixed` (also for no values). */
  function InferColumnType(values: seq<string>): (r: ColumnType)
    ensures r != Mixed <==> |values| > 0 && forall i :: 0 <= i < |values| ==> Classify(values[i]) == Classify(values[0])
    ensures r != Mixed ==> forall i :: 0 <= i < |values| ==> Classify(values[i]) == r
  {
    if |values| > 0 && forall i :: 0 <= i < |values| ==> Classify(values[i]) == Classify(values[0])
    then Classify(values[0]) else Mixed
  }

  /** The answer is a single class exactly when the set of classes has one member. */
  lemma InferColumnTypeUnique(values: seq<string>)
    ensures var types := set i | 0 <= i < |values| :: Classify(values[i]);
      (InferColumnType(values) != Mixed <==> |types| == 1) &&
      (|types| == 1 ==> types == {InferColumnType(values)})
  {
    var types := set i | 0 <= i < |values| :: Classify(values[i]);
    if InferColumnType(values) != Mixed {
      assert types == {Classify(values[0])};
    } else if |values| > 0 {
      var i :| 0 <= i < |values| && Classify(values[i]) != Classify(values[0]);
      assert {Classify(values[0]), Classify(values[i])} <= types;
      assert |{Classify(values[0]), Classify(values[i])}| == 2;
      SubsetCard({Classify(values[0]), Classify(values[i])}, types);
    } else {
      assert types == {};
    }
  }

  lemma SubsetCard<T>(a: set<T>, b: set<T>)
    requires a <= b
    ensures |a| <= |b|
  {
    assert b == a + (b - a);
  }

  /** A non-empty cell of whitespace only counts as a number: `Number(" ")` is 0. */
  lemma AllSpaceIsNumber(v: string)
    requires |v| > 0 && AllSpace(v, IsJsSpace)
    ensures Classify(v) == Number
  {
    TrimEmptyIff(v, IsJsSpace);
  }

  /** Every hexadecimal literal counts as a number. */
  lemma HexLiteralIsNumber(digits: string)
    requires |digits| > 0 && AllIn(digits, IsHexDigit)
    ensures Classify("0x" + digits) == Number
  {
    var v := "0x" + digits;
    assert v[|v| - 1] == digits[|digits| - 1];
    TrimUnspaced(v, IsJsSpace);
    assert v[2..] == digits;
  }

  /** A date prefix rules out a number. */
  lemma DateIsNotNumber(v: string)
    ensures StartsWithDate(v) ==> !IsNumericString(v)
  {
    if StartsWithDate(v) {
      var t := JsTrim(v);
      TrimKeepsDate(v);
      assert IsDigit(t[0]) && IsDigit(t[1]) by { assert t[0] == t[..4][0] && t[1] == t[..4][1]; }
      assert !IsUnsignedDecimal(t) by {
        DigitRunIs(t, 4);
        assert t[4..][0] == '-';
      }
      NumericWithoutSign(v);
    }
  }

  /** A case variant of `true` or `false` is neither a number nor a date. */
  lemma BooleanWordIsPlain(v: string)
    ensures IsBooleanWord(v) ==> !IsNumericString(v) && !StartsWithDate(v)
  {
    if IsBooleanWord(v) {
      var lower := seq(|v|, i requires 0 <= i < |v| => AsciiLower(v[i]));
      assert lower[0] == AsciiLower(v[0]) && lower[|v| - 1] == AsciiLower(v[|v| - 1]);
      assert v[0] in "tTfF" && v[|v| - 1] in "eE";
      TrimUnspaced(v, IsJsSpace);
      assert DigitRun(v) == 0;
    }
  }

  /** An exponent needs digits: digits followed by a bare `e` are a string. */
  lemma DanglingExponentIsText(digits: string)
    requires |digits| > 0 && AllDigits(digits)
    ensures Classify(digits + "e") == Text
  {
    var v := digits + "e";
    assert v[0] == digits[0] && v[|v| - 1] == 'e';
    TrimUnspaced(v, IsJsSpace);
    assert v[..|digits|] == digits;
    DigitRunIs(v, |digits|);
    assert v[|digits|..] == "e";
    assert !IsNonDecimalLiteral(v) by {
      if |v| >= 3 { assert v[1] == digits[1]; }
    }
    assert !StartsWithDate(v) by {
      if |v| >= 10 { assert v[4] == digits[4]; }
    }
    var lower := seq(|v|, i requires 0 <= i < |v| => AsciiLower(v[i]));
    assert lower[0] == v[0];
  }

  /** A value with a date prefix starts with no space, so trimming keeps the prefix. */
  lemma TrimKeepsDate(v: string)
    requires StartsWithDate(v)
    ensures StartsWithDate(JsTrim(v))
  {
    var t := JsTrim(v);
    assert LeadingSpaces(v, IsJsSpace) == 0 by { assert IsDigit(v[..4][0]); }
    var m := TrailingSpaces(v, IsJsSpace);
    assert m <= |v| - 10 by { assert IsDigit(v[8..10][1]); }
    assert t == v[..|v| - m];
    assert t[..4] == v[..4] && t[5..7] == v[5..7] && t[8..10] == v[8..10];
  }

  /** A value whose trimmed text starts with a digit is a number exactly when that text is an unsigned literal. */
  lemma NumericWithoutSign(v: string)
    requires |JsTrim(v)| > 0 && IsDigit(JsTrim(v)[0])
    ensures IsNumericString(v) <==> IsNonDecimalLiteral(JsTrim(v)) || IsUnsignedDecimal(JsTrim(v))
  {
  }

  // ---------------------------------------------------------------------------
  // Stream statistics

  type Byte = b: int | 0 <= b < 256

  predicate IsTextByte(b: Byte) { 32 <= b <= 126 }

  function NullCount(bytes: seq<Byte>): nat {
    if |bytes| == 0 then 0 else NullCount(bytes[..|bytes| - 1]) + (if bytes[|bytes| - 1] == 0 then 1 else 0)
  }

  function TextCount(bytes: seq<Byte>): nat {
    if |bytes| == 0 then 0 else TextCount(bytes[..|bytes| - 1]) + (if IsTextByte(bytes[|bytes| - 1]) then 1 else 0)
  }

  function ControlCount(bytes: seq<Byte>): nat {
    if |bytes| == 0 then 0
    else ControlCount(bytes[..|bytes| - 1]) + (if bytes[|bytes| - 1] != 0 && !IsTextByte(bytes[|bytes| - 1]) then 1 else 0)
  }

  /** Each byte is in exactly one class, so the three counts add up to the length. */
  lemma {:induction false} CountsPartition(bytes: seq<Byte>)
    ensures NullCount(bytes) + TextCount(bytes) + ControlCount(bytes) == |bytes|
  {
    if |bytes| > 0 {
      CountsPartition(bytes[..|bytes| - 1]);
    }
  }

  /** The counts of two pieces add up to the counts of the whole. */
  lemma {:induction false} CountsAppend(a: seq<Byte>, b: seq<Byte>)
    ensures NullCount(a + b) == NullCount(a) + NullCount(b)
    ensures TextCount(a + b) == TextCount(a) + TextCount(b)
    ensures ControlCount(a + b) == ControlCount(a) + ControlCount(b)
    decreases |b|
  {
    if |b| > 0 {
      assert (a + b)[..|a + b| - 1] == a + b[..|b| - 1];
      CountsAppend(a, b[..|b| - 1]);
    } else {
      assert a + b == a;
    }
  }

  /** `isBinary` on counts: a text ratio below 0.7; `0 / 0` is NaN, which is not below 0.7. */
  predicate IsBinaryCounts(textBytes: nat, totalSize: nat) {
    totalSize > 0 && 10 * textBytes < 7 * totalSize
  }

  class StreamAnalyzer {
    var totalSize: nat
    var chunks: nat
    var nullBytes: nat
    var textBytes: nat
    var controlBytes: nat
    /** The bytes seen so far, in order. */
    ghost var seen: seq<Byte>

    ghost predicate Valid()
      reads this
    {
      totalSize == |seen| &&
      nullBytes == NullCount(seen) && textBytes == TextCount(seen) && controlBytes == ControlCount(seen) &&
      nullBytes + textBytes + controlBytes == totalSize
    }

    constructor ()
      ensures Valid() && seen == [] && chunks == 0
    {
      totalSize, chunks, nullBytes, textBytes, controlBytes := 0, 0, 0, 0, 0;
      seen := [];
    }

    /** `processChunk`: one more chunk, and every byte counted in exactly one class. */
    method ProcessChunk(chunk: seq<Byte>)
      requires Valid()
      modifies this
      ensures Valid()
      ensures seen == old(seen) + chunk && chunks == old(chunks) + 1
      ensures nullBytes == old(nullBytes) + NullCount(chunk)
      ensures textBytes == old(textBytes) + TextCount(chunk)
      ensures controlBytes == old(controlBytes) + ControlCount(chunk)
    {
      totalSize := totalSize + |chunk|;
      chunks := chunks + 1;
      for i := 0 to |chunk|
        invariant seen == old(seen) && totalSize == old(totalSize) + |chunk| && chunks == old(chunks) + 1
        invariant nullBytes == old(nullBytes) + NullCount(chunk[..i])
        invariant textBytes == old(textBytes) + TextCount(chunk[..i])
        invariant controlBytes == old(controlBytes) + ControlCount(chunk[..i])
      {
        assert chunk[..i + 1][..i] == chunk[..i];
        var b := chunk[i];
        if b == 0 {
          nullBytes := nullBytes + 1;
        } else if b >= 32 && b <= 126 {
          textBytes := textBytes + 1;
        } else {
          controlBytes := controlBytes + 1;
        }
      }
      assert chunk[..|chunk|] == chunk;
      CountsAppend(seen, chunk);
      seen := seen + chunk;
      CountsPartition(seen);
    }

    /** `isBinary`. */
    predicate IsBinary()
      reads this
    {
      IsBinaryCounts(textBytes, totalSize)
    }

    /** `inferFileType`. */
    function InferFileType(): (r: string)
      reads this
      ensures r == "Binary" <==> IsBinaryCounts(textBytes, totalSize)
      ensures r == "Binary" || r == "Text"
    {
      if IsBinary() then "Binary" else "Text"
    }
  }
}
