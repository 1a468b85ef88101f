/**
 * Parsed JSON values as JavaScript holds them after `JSON.parse` (and as
 * xml2js builds them): an object is the ordered list of its own properties,
 * in the order `Object.entries` and `for … in` visit them.
 */
module JsonValue {
  import opened Wrappers

  datatype Json =
    | JNull
    | JBool(b: bool)
    | JNum(n: int)
    | JStr(s: string)
    | JArr(items: seq<Json>)
    | JObj(fields: seq<Field>)

  datatype Field = Field(key: string, value: Json)

  /** JavaScript's `typeof`. */
  function TypeOf(j: Json): string {
    match j
    case JBool(_) => "boolean"
    case JNum(_) => "number"
    case JStr(_) => "string"
    case _ => "object"
  }

  /** `typeof v === 'object' && v !== null`, which for parsed JSON is also `v instanceof Object`. */
  predicate IsObjectLike(j: Json) {
    j.JArr? || j.JObj?
  }

  /** How many own properties a parsed object or array has: what `for … in` visits and `Object.keys` lists. */
  function EntryCount(source: Json): nat {
    match source
    case JArr(items) => |items|
    case JObj(fields) => |fields|
    case _ => 0
  }

  /** JavaScript truthiness. */
  predicate Truthy(j: Json) {
    match j
    case JNull => false
    case JBool(b) => b
    case JNum(n) => n != 0
    case JStr(s) => s != ""
    case _ => true
  }

  function Keys(fields: seq<Field>): (ks: seq<string>)
    ensures |ks| == |fields| && forall i :: 0 <= i < |fields| ==> ks[i] == fields[i].key
  {
    if |fields| == 0 then [] else [fields[0].key] + Keys(fields[1..])
  }

  /** `obj[key]` for an own property: the first field with that key. */
  function Get(fields: seq<Field>, key: string): (r: Option<Json>)
    ensures r.None? <==> key !in Keys(fields)
  {
    if |fields| == 0 then None
    else if fields[0].key == key then Some(fields[0].value)
    else Get(fields[1..], key)
  }

  /**
   * `obj[key] = value`: an existing property keeps its place and takes the new
   * value; a new property goes last.
   */
  function Put(fields: seq<Field>, key: string, value: Json): (r: seq<Field>)
    ensures Keys(r) == if key in Keys(fields) then Keys(fields) else Keys(fields) + [key]
  {
    if |fields| == 0 then [Field(key, value)]
    else if fields[0].key == key then
      var r := [Field(key, value)] + fields[1..];
      assert r[1..] == fields[1..];
      r
    else
      var rest := Put(fields[1..], key, value);
      var r := [fields[0]] + rest;
      assert r[1..] == rest;
      r
  }

  /** After `obj[key] = value`, reading `key` gives `value` and every other key reads as before. */
  lemma {:induction false} GetPut(fields: seq<Field>, key: string, value: Json, other: string)
    ensures Get(Put(fields, key, value), other) == if other == key then Some(value) else Get(fields, other)
  {
    if |fields| > 0 && fields[0].key != key {
      GetPut(fields[1..], key, value, other);
      var rest := Put(fields[1..], key, value);
      assert ([fields[0]] + rest)[1..] == rest;
    }
  }

  /** Setting a key the object does not have appends it as the last property. */
  lemma {:induction false} PutAbsent(fields: seq<Field>, key: string, value: Json)
    requires key !in Keys(fields)
    ensures Put(fields, key, value) == fields + [Field(key, value)]
  {
    if |fields| > 0 {
      var rest := fields[1..];
      assert fields[0].key != key && key !in Keys(rest) by {
        assert Keys(fields) == [fields[0].key] + Keys(rest);
      }
      PutAbsent(rest, key, value);
      calc {
        Put(fields, key, value);
        [fields[0]] + Put(rest, key, value);
        [fields[0]] + (rest + [Field(key, value)]);
        { assert fields == [fields[0]] + rest; }
        fields + [Field(key, value)];
      }
    }
  }

  /** Reading the key of a property that no earlier property shares gives that property's value. */
  lemma {:induction false} GetAt(fields: seq<Field>, i: nat)
    requires i < |fields|
    requires forall j :: 0 <= j < i ==> fields[j].key != fields[i].key
    ensures Get(fields, fields[i].key) == Some(fields[i].value)
  {
    if i > 0 {
      GetAt(fields[1..], i - 1);
    }
  }
}
