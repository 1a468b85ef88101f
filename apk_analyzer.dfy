/**
 * The classifiers of `apkAnalyzer.js`: the round-robin worker pool, the
 * dangerous-permission test and the permission partition, component
 * extraction with its defaults, the protection flags, and the sorting of
 * `res/` archive entries.
 *
 * As written the constructor cannot finish on a machine with a CPU: it hands
 * the worker's code to `new Worker` as a file name, which throws
 * (`InitializeWorkerPool`, `InlineCodePoolThrows`). The classifiers are
 * modelled as written, although nothing can reach them. The pool is the one
 * the code evidently intends.
 *
 * The parsed APK description (`apkInfo`) is a JSON object; a property it does
 * not have is `undefined`, written `None` here.
 */
module ApkAnalysis {
  import opened Wrappers
  import opened JsonValue
  import opened Strings

  /** The elements of `s` that `p` accepts, in order. */
  function Filter<T(!new)>(s: seq<T>, p: T -> bool): (r: seq<T>)
    ensures |r| <= |s|
    ensures forall i :: 0 <= i < |r| ==> p(r[i]) && r[i] in s
  {
    if |s| == 0 then [] else Filter(s[..|s| - 1], p) + (if p(s[|s| - 1]) then [s[|s| - 1]] else [])
  }

  /** The kept elements are exactly the elements that satisfy `p`. */
  lemma {:induction false} FilterMembers<T(!new)>(s: seq<T>, p: T -> bool, x: T)
    ensures x in Filter(s, p) <==> x in s && p(x)
  {
    if |s| > 0 {
      FilterMembers(s[..|s| - 1], p, x);
      assert s == s[..|s| - 1] + [s[|s| - 1]];
    }
  }

  // ---------------------------------------------------------------------------
  // Worker pool

  type WorkerId = nat

  /**
   * `getAvailableWorker` on the pool `pool`: the worker `shift` takes from the
   * front and the pool after `push` puts it at the back. On an empty pool
   * `shift` gives `undefined` and that is pushed, so the pool becomes
   * `[undefined]`.
   */
  function Rotate(pool: seq<Option<WorkerId>>): (r: (Option<WorkerId>, seq<Option<WorkerId>>))
    ensures |pool| > 0 ==> r.0 == pool[0] && r.1 == pool[1..] + [pool[0]]
    ensures |pool| == 0 ==> r == (None, [None])
  {
    if |pool| == 0 then (None, [None]) else (pool[0], pool[1..] + [pool[0]])
  }

  /** The workers handed out by `k` calls in a row, and the pool afterwards. */
  function Calls(pool: seq<Option<WorkerId>>, k: nat): (seq<Option<WorkerId>>, seq<Option<WorkerId>>) {
    if k == 0 then ([], pool)
    else
      var before := Calls(pool, k - 1);
      var step := Rotate(before.1);
      (before.0 + [step.0], step.1)
  }

  /**
   * Round robin: on a non-empty pool, `k` calls (no more than the pool size)
   * hand out the first `k` workers in order and leave the pool rotated by `k`;
   * so as many calls as there are workers hand out each worker once and
   * restore the original order.
   */
  lemma {:induction false} RoundRobin(pool: seq<Option<WorkerId>>, k: nat)
    requires 0 < |pool| && k <= |pool|
    ensures Calls(pool, k) == (pool[..k], pool[k..] + pool[..k])
  {
    if k > 0 {
      RoundRobin(pool, k - 1);
      var p := pool[k - 1..] + pool[..k - 1];
      assert Calls(pool, k - 1).1 == p;
      assert p[0] == pool[k - 1];
      assert pool[..k] == pool[..k - 1] + [pool[k - 1]];
      assert p[1..] == pool[k..] + pool[..k - 1];
      assert p[1..] + [p[0]] == pool[k..] + (pool[..k - 1] + [pool[k - 1]]);
      assert Rotate(p) == (pool[k - 1], pool[k..] + pool[..k]);
      assert Calls(pool, k).0 == pool[..k - 1] + [pool[k - 1]];
    } else {
      assert pool[0..] + pool[..0] == pool;
    }
  }

  lemma FullRoundRestores(pool: seq<Option<WorkerId>>)
    requires 0 < |pool|
    ensures Calls(pool, |pool|) == (pool, pool)
  {
    RoundRobin(pool, |pool|);
    assert pool[..|pool|] == pool;
    assert pool[|pool|..] + pool[..|pool|] == pool;
  }

  // ---------------------------------------------------------------------------
  // Building the pool

  const ErrWorkerPath := "ERR_WORKER_PATH"

  /**
   * The inline worker program `initializeWorkerPool` hands to `new Worker`,
   * cut short: it starts with a line break, and the rest of its text does not
   * matter here.
   */
  const InlineWorkerCode: string := "\n" + InlineWorkerFirstLine
  const InlineWorkerFirstLine: string := "const { parentPort } = require('worker_threads');"

  /**
   * What `new Worker(filename)` accepts as a script path without
   * `{ eval: true }`: an absolute path, or one relative to the working
   * directory that starts with `./` or `../`.
   */
  predicate IsWorkerPath(filename: string) {
    StartsWith(filename, "/") || StartsWith(filename, "./") || StartsWith(filename, "../")
  }

  /**
   * `new Worker(filename, { eval })` for the `id`-th worker: with `eval` the
   * text is run as code, otherwise it must be a script path or the
   * constructor throws `ERR_WORKER_PATH`.
   */
  function NewWorker(filename: string, eval: bool, id: WorkerId): (r: Result<WorkerId, string>)
    ensures r.Ok? <==> eval || IsWorkerPath(filename)
    ensures r.Ok? ==> r.value == id
    ensures r.Err? ==> r.error == ErrWorkerPath
  {
    if eval || IsWorkerPath(filename) then Ok(id) else Err(ErrWorkerPath)
  }

  /**
   * The pool after `initializeWorkerPool` creates workers `0 .. n - 1` in
   * order, or the error of the first creation that throws.
   */
  function PoolOf(n: nat, filename: string, eval: bool): Result<seq<Option<WorkerId>>, string> {
    if n == 0 then Ok([])
    else
      var before := PoolOf(n - 1, filename, eval);
      if before.Err? then before
      else
        var w := NewWorker(filename, eval, n - 1);
        if w.Err? then Err(w.error) else Ok(before.value + [Some(w.value)])
  }

  /** Once a creation has thrown, creating more workers changes nothing. */
  lemma {:induction false} PoolErrorStays(k: nat, n: nat, filename: string, eval: bool)
    requires k <= n && PoolOf(k, filename, eval).Err?
    ensures PoolOf(n, filename, eval) == PoolOf(k, filename, eval)
    decreases n - k
  {
    if k < n {
      PoolErrorStays(k, n - 1, filename, eval);
      assert PoolOf(n - 1, filename, eval).Err?;
      assert PoolOf(n, filename, eval) == PoolOf(n - 1, filename, eval);
    }
  }

  /** The workers `0 .. n - 1`, in order. */
  function Numbered(n: nat): (pool: seq<Option<WorkerId>>)
    ensures |pool| == n && forall i :: 0 <= i < n ==> pool[i] == Some(i)
  {
    seq(n, i requires 0 <= i < n => Some(i))
  }

  /** A script path, or `eval`, builds one worker per slot, numbered in order. */
  lemma {:induction false} PoolBuilt(n: nat, filename: string, eval: bool)
    requires eval || IsWorkerPath(filename)
    ensures PoolOf(n, filename, eval) == Ok(Numbered(n))
  {
    if n > 0 {
      PoolBuilt(n - 1, filename, eval);
      assert Numbered(n) == Numbered(n - 1) + [Some(n - 1)];
    }
  }

  /**
   * As written, the inline code is passed without `{ eval: true }`, so the
   * first `new Worker` throws: construction fails on any machine with a CPU,
   * and succeeds with an empty pool only when `os.cpus()` is empty.
   */
  lemma {:induction false} InlineCodePoolThrows(n: nat)
    ensures n > 0 ==> PoolOf(n, InlineWorkerCode, false) == Err(ErrWorkerPath)
    ensures n == 0 ==> PoolOf(n, InlineWorkerCode, false) == Ok([])
  {
    assert InlineWorkerCode[0] == '\n';
    assert !IsWorkerPath(InlineWorkerCode);
    if n > 0 {
      assert PoolOf(1, InlineWorkerCode, false) == Err(ErrWorkerPath);
      PoolErrorStays(1, n, InlineWorkerCode, false);
    }
  }

  /** With `{ eval: true }` the inline code builds the full pool. */
  lemma EvalPoolBuilt(n: nat)
    ensures PoolOf(n, InlineWorkerCode, true) == Ok(Numbered(n))
  {
    PoolBuilt(n, InlineWorkerCode, true);
  }

  /**
   * `initializeWorkerPool`: creates `maxWorkers` workers from `filename` in
   * order, pushing each onto the pool; the first creation that throws ends
   * it with that error.
   */
  method InitializeWorkerPool(maxWorkers: nat, filename: string, eval: bool)
    returns (r: Result<seq<Option<WorkerId>>, string>)
    ensures r == PoolOf(maxWorkers, filename, eval)
  {
    var pool: seq<Option<WorkerId>> := [];
    for i := 0 to maxWorkers
      invariant PoolOf(i, filename, eval) == Ok(pool)
    {
      var w := NewWorker(filename, eval, i);
      if w.Err? {
        assert PoolOf(i + 1, filename, eval).Err?;
        PoolErrorStays(i + 1, maxWorkers, filename, eval);
        return Err(w.error);
      }
      pool := pool + [Some(w.value)];
    }
    return Ok(pool);
  }

  class WorkerPool {
    /** `workerPool`; an entry is `undefined` only after a call on an empty pool. */
    var workers: seq<Option<WorkerId>>

    /**
     * The pool the constructor evidently means to build: one worker per CPU,
     * as `initializeWorkerPool` gives when the inline code is run with
     * `{ eval: true }`.
     */
    constructor (maxWorkers: nat)
      ensures |workers| == maxWorkers && forall i :: 0 <= i < maxWorkers ==> workers[i] == Some(i)
      ensures PoolOf(maxWorkers, InlineWorkerCode, true) == Ok(workers)
    {
      workers := Numbered(maxWorkers);
      EvalPoolBuilt(maxWorkers);
    }

    /** `getAvailableWorker`. */
    method GetAvailableWorker() returns (w: Option<WorkerId>)
      modifies this
      ensures (w, workers) == Rotate(old(workers))
      ensures |old(workers)| > 0 ==> |workers| == |old(workers)| && multiset(workers) == multiset(old(workers))
    {
      if |workers| == 0 {
        w := None;
      } else {
        w := workers[0];
        workers := workers[1..];
      }
      workers := workers + [w];
      assert |old(workers)| == 0 ==> workers == [None];
      assert workers == Rotate(old(workers)).1;
      if |old(workers)| > 0 {
        calc {
          multiset(workers);
          multiset(old(workers)[1..]) + multiset{old(workers)[0]};
          { assert old(workers) == [old(workers)[0]] + old(workers)[1..]; }
          multiset(old(workers));
        }
      }
    }
  }

  // ---------------------------------------------------------------------------
  // Permissions

  const DangerousNames: seq<string> := [
    "CAMERA", "RECORD_AUDIO", "READ_CONTACTS", "WRITE_CONTACTS",
    "ACCESS_FINE_LOCATION", "ACCESS_COARSE_LOCATION", "READ_EXTERNAL_STORAGE",
    "WRITE_EXTERNAL_STORAGE", "READ_PHONE_STATE", "CALL_PHONE", "SEND_SMS", "READ_SMS"]

  /** `isDangerousPermission`: the upper-cased name contains one of the twelve names anywhere. */
  predicate IsDangerousPermission(permission: string) {
    exists i | 0 <= i < |DangerousNames| :: Contains(UpperStringForMatch(permission), DangerousNames[i])
  }

  lemma {:induction false} UpperAppend(a: string, b: string)
    ensures UpperStringForMatch(a + b) == UpperStringForMatch(a) + UpperStringForMatch(b)
  {
    if |a| > 0 {
      assert (a + b)[1..] == a[1..] + b;
      UpperAppend(a[1..], b);
    } else {
      assert a + b == b;
    }
  }

  /** On ASCII text the upper-casing is character by character. */
  lemma {:induction false} UpperOfAscii(s: string)
    requires forall i :: 0 <= i < |s| ==> s[i] < '\U{80}'
    ensures |UpperStringForMatch(s)| == |s|
    ensures forall i :: 0 <= i < |s| ==> UpperStringForMatch(s)[i] == AsciiUpper(s[i])
  {
    if |s| > 0 {
      UpperOfAscii(s[1..]);
      assert UpperStringForMatch(s) == UpperForMatch(s[0]) + UpperStringForMatch(s[1..]);
    }
  }

  function AsciiUpper(c: char): char {
    if 'a' <= c <= 'z' then (c as int - 32) as char else c
  }

  /**
   * The match is a substring test on the upper-cased text: a permission that
   * contains a listed name anywhere, in any mix of ASCII case (`camera`,
   * `Camera`, or inside a longer name such as `BIND_CAMERA_SERVICE`), is
   * dangerous.
   */
  lemma DangerousByInfix(before: string, name: string, after: string, i: nat)
    requires i < |DangerousNames|
    requires |name| == |DangerousNames[i]|
    requires forall k :: 0 <= k < |name| ==> name[k] < '\U{80}' && AsciiUpper(name[k]) == DangerousNames[i][k]
    ensures IsDangerousPermission(before + name + after)
  {
    var p := DangerousNames[i];
    UpperOfAscii(name);
    assert UpperStringForMatch(name) == p;
    UpperAppend(before + name, after);
    UpperAppend(before, name);
    var u := UpperStringForMatch(before + name + after);
    var k := |UpperStringForMatch(before)|;
    assert u == UpperStringForMatch(before) + p + UpperStringForMatch(after);
    assert Contains(u, p) by {
      assert u[k..][..|p|] == p;
      assert StartsWith(u[k..], p);
    }
  }

  /** The ASCII text `s` spells `name` at position `k`, ignoring case. */
  predicate NameAt(s: string, k: int, name: string) {
    0 <= k && k + |name| <= |s| && forall m :: 0 <= m < |name| ==> AsciiUpper(s[k + m]) == name[m]
  }

  /**
   * Both directions for ASCII permissions: a permission is dangerous exactly
   * when one of the twelve names occurs in it somewhere, in any case.
   */
  lemma {:induction false} DangerousIffInfix(perm: string)
    requires forall j :: 0 <= j < |perm| ==> perm[j] < '\U{80}'
    ensures IsDangerousPermission(perm) <==>
      exists i, k | 0 <= i < |DangerousNames| :: NameAt(perm, k, DangerousNames[i])
  {
    UpperOfAscii(perm);
    var u := UpperStringForMatch(perm);
    if IsDangerousPermission(perm) {
      var i :| 0 <= i < |DangerousNames| && Contains(u, DangerousNames[i]);
      var name := DangerousNames[i];
      var k :| 0 <= k <= |u| && StartsWith(u[k..], name);
      forall m | 0 <= m < |name|
        ensures AsciiUpper(perm[k + m]) == name[m]
      {
        assert u[k..][..|name|][m] == u[k + m];
      }
      assert NameAt(perm, k, name);
    }
    if exists i, k | 0 <= i < |DangerousNames| :: NameAt(perm, k, DangerousNames[i]) {
      var i, k :| 0 <= i < |DangerousNames| && NameAt(perm, k, DangerousNames[i]);
      var name := DangerousNames[i];
      assert u[k..][..|name|] == name by {
        forall m | 0 <= m < |name|
          ensures u[k..][..|name|][m] == name[m]
        {
          assert u[k..][..|name|][m] == u[k + m];
        }
      }
      assert StartsWith(u[k..], name);
      assert Contains(u, name);
    }
  }

  const AndroidPrefix := "android.permission."

  datatype PermissionKind = Custom | Dangerous | Normal

  /** Where one requested permission is filed. */
  function KindOf(perm: string): (k: PermissionKind)
    ensures k == Custom <==> !StartsWith(perm, AndroidPrefix)
    ensures k == Dangerous <==> StartsWith(perm, AndroidPrefix) && IsDangerousPermission(perm)
  {
    if StartsWith(perm, AndroidPrefix) then
      if IsDangerousPermission(perm) then Dangerous else Normal
    else Custom
  }

  predicate IsCustom(perm: string) { KindOf(perm) == Custom }
  predicate IsDangerous(perm: string) { KindOf(perm) == Dangerous }
  predicate IsNormal(perm: string) { KindOf(perm) == Normal }

  /** Filtering a sequence with one more element at the end. */
  lemma FilterSnoc<T(!new)>(s: seq<T>, x: T, p: T -> bool)
    ensures Filter(s + [x], p) == Filter(s, p) + (if p(x) then [x] else [])
  {
    assert (s + [x])[..|s|] == s;
  }

  /** One more permission lands in the list of its kind and in no other. */
  lemma FiledSnoc(s: seq<string>, perm: string)
    ensures Filter(s + [perm], IsCustom) == Filter(s, IsCustom) + (if KindOf(perm) == Custom then [perm] else [])
    ensures Filter(s + [perm], IsDangerous) == Filter(s, IsDangerous) + (if KindOf(perm) == Dangerous then [perm] else [])
    ensures Filter(s + [perm], IsNormal) == Filter(s, IsNormal) + (if KindOf(perm) == Normal then [perm] else [])
  {
    FilterSnoc(s, perm, IsCustom);
    FilterSnoc(s, perm, IsDangerous);
    FilterSnoc(s, perm, IsNormal);
  }

  datatype Permissions = Permissions(requested: seq<string>, custom: seq<string>, dangerous: seq<string>, normal: seq<string>)

  /**
   * `analyzePermissions`: `requested` is the listed permissions, or `[]` when
   * there are none; every one of them is filed, in order, under exactly one of
   * custom, dangerous and normal.
   */
  method AnalyzePermissions(listed: Option<seq<string>>) returns (r: Permissions)
    ensures r.requested == if listed.Some? then listed.value else []
    ensures r.custom == Filter(r.requested, IsCustom)
    ensures r.dangerous == Filter(r.requested, IsDangerous)
    ensures r.normal == Filter(r.requested, IsNormal)
  {
    var requested := if listed.Some? then listed.value else [];
    var custom, dangerous, normal := [], [], [];
    for i := 0 to |requested|
      invariant custom == Filter(requested[..i], IsCustom)
      invariant dangerous == Filter(requested[..i], IsDangerous)
      invariant normal == Filter(requested[..i], IsNormal)
    {
      var perm := requested[i];
      assert requested[..i + 1] == requested[..i] + [perm];
      FiledSnoc(requested[..i], perm);
      match KindOf(perm) {
        case Custom => custom := custom + [perm];
        case Dangerous => dangerous := dangerous + [perm];
        case Normal => normal := normal + [perm];
      }
    }
    assert requested[..|requested|] == requested;
    r := Permissions(requested, custom, dangerous, normal);
  }

  /** The three lists together hold each requested permission exactly as often as it was requested. */
  lemma {:induction false} PermissionsPartition(s: seq<string>)
    ensures multiset(Filter(s, IsCustom)) + multiset(Filter(s, IsDangerous))
            + multiset(Filter(s, IsNormal)) == multiset(s)
  {
    if |s| > 0 {
      var init, x := s[..|s| - 1], s[|s| - 1];
      PermissionsPartition(init);
      assert s == init + [x];
      FilterSnoc(init, x, IsCustom);
      FilterSnoc(init, x, IsDangerous);
      FilterSnoc(init, x, IsNormal);
    }
  }

  // ---------------------------------------------------------------------------
  // Components and protection flags

  /** A property of a value: only objects have own properties here. */
  function Prop(j: Json, key: string): Option<Json> {
    if j.JObj? then Get(j.fields, key) else None
  }

  /** JavaScript `a || b` where `a` may be `undefined`. */
  function OrElse(a: Option<Json>, b: Json): (r: Json)
    ensures a.Some? && Truthy(a.value) ==> r == a.value
    ensures !(a.Some? && Truthy(a.value)) ==> r == b
  {
    if a.Some? && Truthy(a.value) then a.value else b
  }

  /** One extracted component; `name` and `permission` may be `undefined`. */
  datatype Component = Component(name: Option<Json>, permission: Option<Json>, exported: Json, intentFilters: Json)

  datatype ExtractError = TypeError

  /** The record `map` builds for one component; `null` has no properties to read. */
  function ComponentOf(c: Json): (r: Result<Component, ExtractError>)
    ensures r.Err? <==> c.JNull?
    ensures r.Ok? ==> r.value.name == Prop(c, "name") && r.value.permission == Prop(c, "permission")
    ensures r.Ok? ==> r.value.exported == OrElse(Prop(c, "exported"), JBool(false))
    ensures r.Ok? ==> r.value.intentFilters == OrElse(Prop(c, "intentFilters"), JArr([]))
  {
    if c.JNull? then Err(TypeError)
    else Ok(Component(Prop(c, "name"), Prop(c, "permission"),
                      OrElse(Prop(c, "exported"), JBool(false)), OrElse(Prop(c, "intentFilters"), JArr([]))))
  }

  function ComponentsOf(items: seq<Json>): (r: Result<seq<Component>, ExtractError>)
    ensures r.Ok? <==> forall i :: 0 <= i < |items| ==> !items[i].JNull?
    ensures r.Ok? ==> |r.value| == |items| && forall i :: 0 <= i < |items| ==> Ok(r.value[i]) == ComponentOf(items[i])
  {
    if |items| == 0 then Ok([])
    else
      var first := ComponentOf(items[0]);
      var rest := ComponentsOf(items[1..]);
      if first.Err? then Err(TypeError)
      else if rest.Err? then
        assert exists i :: 0 <= i < |items[1..]| && items[1..][i].JNull?;
        Err(TypeError)
      else Ok([first.value] + rest.value)
  }

  /**
   * `extractComponents(apkInfo, type)`: the list under `<type>s` (none when
   * absent or falsy) mapped entry by entry; a truthy value that is not a list,
   * or a `null` entry, throws.
   */
  function ExtractComponents(apkInfo: seq<Field>, kind: string): (r: Result<seq<Component>, ExtractError>)
    ensures var v := OrElse(Get(apkInfo, kind + "s"), JArr([]));
      (!v.JArr? ==> r.Err?) && (v.JArr? ==> r == ComponentsOf(v.items))
  {
    var v := OrElse(Get(apkInfo, kind + "s"), JArr([]));
    if v.JArr? then ComponentsOf(v.items) else Err(TypeError)
  }

  /** Without the property there are no components, and a component that does not say it is exported is not. */
  lemma ComponentDefaults(apkInfo: seq<Field>, kind: string, c: Json)
    ensures Get(apkInfo, kind + "s").None? ==> ExtractComponents(apkInfo, kind) == Ok([])
    ensures c.JObj? && Get(c.fields, "exported").None? ==>
      ComponentOf(c).Ok? && ComponentOf(c).value.exported == JBool(false) && ComponentOf(c).value.exported != JBool(true)
    ensures c.JObj? && Get(c.fields, "intentFilters").None? ==> ComponentOf(c).value.intentFilters == JArr([])
  {
  }

  datatype Protection = Protection(hasStrongEncryption: bool, preventBackup: bool, hasNetworkSecurity: bool)

  /** `hasNetworkSecurityConfig`: the property is present (`null` counts as present). */
  predicate HasNetworkSecurityConfig(apkInfo: seq<Field>): (b: bool)
    ensures b <==> "networkSecurityConfig" in Keys(apkInfo)
  {
    Get(apkInfo, "networkSecurityConfig").Some?
  }

  /**
   * `checkStrongProtection`: each flag is a strict comparison with `false`, so
   * an absent property, `0` or `null` sets none of them.
   */
  function CheckStrongProtection(apkInfo: seq<Field>): (r: Protection)
    ensures r.hasStrongEncryption <==> Get(apkInfo, "usesCleartextTraffic") == Some(JBool(false))
    ensures r.preventBackup <==> Get(apkInfo, "allowBackup") == Some(JBool(false))
    ensures r.hasNetworkSecurity <==> "networkSecurityConfig" in Keys(apkInfo)
  {
    Protection(Get(apkInfo, "usesCleartextTraffic") == Some(JBool(false)),
               Get(apkInfo, "allowBackup") == Some(JBool(false)),
               HasNetworkSecurityConfig(apkInfo))
  }

  // ---------------------------------------------------------------------------
  // Resources

  lemma StartsWithLonger(s: string, p: string, q: string)
    ensures StartsWith(s, p + q) ==> StartsWith(s, p)
  {
    if StartsWith(s, p + q) {
      assert s[..|p|] == (p + q)[..|p|];
    }
  }

  predicate IsDrawable(name: string) { ResourceKindOf(name) == Drawable }
  predicate IsLayout(name: string) { ResourceKindOf(name) == Layout }
  predicate IsRaw(name: string) { ResourceKindOf(name) == Raw }

  datatype Resources = Resources(drawables: seq<string>, layouts: seq<string>, raw: seq<string>)

  datatype ResourceKind = Drawable | Layout | Raw | Other

  /** Where one archive entry goes: the first matching `res/` prefix, else nowhere. */
  function ResourceKindOf(name: string): (k: ResourceKind)
    ensures k == Drawable <==> StartsWith(name, "res/drawable")
    ensures k == Layout <==> StartsWith(name, "res/layout") && !StartsWith(name, "res/drawable")
    ensures k == Raw <==> StartsWith(name, "res/raw") && !StartsWith(name, "res/drawable") && !StartsWith(name, "res/layout")
  {
    if StartsWith(name, "res/") then
      if StartsWith(name, "res/drawable") then Drawable
      else if StartsWith(name, "res/layout") then Layout
      else if StartsWith(name, "res/raw") then Raw
      else Other
    else
      StartsWithLonger(name, "res/", "drawable");
      StartsWithLonger(name, "res/", "layout");
      StartsWithLonger(name, "res/", "raw");
      Other
  }

  /**
   * The resource part of `analyzeResources`: the archive's entry names, or
   * `None` when opening the archive failed (the error is logged and the lists
   * stay empty).
   */
  method AnalyzeResources(entries: Option<seq<string>>) returns (r: Resources)
    ensures entries.None? ==> r == Resources([], [], [])
    ensures entries.Some? ==> r.drawables == Filter(entries.value, IsDrawable)
    ensures entries.Some? ==> r.layouts == Filter(entries.value, IsLayout)
    ensures entries.Some? ==> r.raw == Filter(entries.value, IsRaw)
  {
    r := Resources([], [], []);
    if entries.None? {
      return;
    }
    var names := entries.value;
    for i := 0 to |names|
      invariant r.drawables == Filter(names[..i], IsDrawable)
      invariant r.layouts == Filter(names[..i], IsLayout)
      invariant r.raw == Filter(names[..i], IsRaw)
    {
      var name := names[i];
      assert names[..i + 1] == names[..i] + [name];
      FilterSnoc(names[..i], name, IsDrawable);
      FilterSnoc(names[..i], name, IsLayout);
      FilterSnoc(names[..i], name, IsRaw);
      if StartsWith(name, "res/") {
        if StartsWith(name, "res/drawable") {
          r := r.(drawables := r.drawables + [name]);
        } else if StartsWith(name, "res/layout") {
          r := r.(layouts := r.layouts + [name]);
        } else if StartsWith(name, "res/raw") {
          r := r.(raw := r.raw + [name]);
        }
      }
    }
    assert names[..|names|] == names;
  }

  /** Entries outside the three folders, such as `res/values/strings.xml`, are dropped. */
  lemma OtherResourcesDropped(names: seq<string>, name: string)
    requires !StartsWith(name, "res/drawable") && !StartsWith(name, "res/layout") && !StartsWith(name, "res/raw")
    ensures name !in Filter(names, IsDrawable)
    ensures name !in Filter(names, IsLayout)
    ensures name !in Filter(names, IsRaw)
  {
    FilterMembers(names, IsDrawable, name);
    FilterMembers(names, IsLayout, name);
    FilterMembers(names, IsRaw, name);
  }
}
