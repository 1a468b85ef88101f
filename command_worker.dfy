/**
 * The command worker of `services/workers/commandWorker.js`: it announces
 * progress 10, runs the command, retries once unless the failure mentions
 * `permission denied`, and reports one final message.
 *
 * The shell is an oracle: `runner(k)` is what `exec` produces on the k-th call
 * (0 for the first attempt, 1 for the retry). The 5-second pause before the
 * retry is left out.
 */
module CommandWorker {
  import opened Wrappers
  import opened JsonValue
  import opened Strings

  /** What `exec` gives: output on success, or an error with its message and possibly `stderr`. */
  datatype ExecOutcome =
    | Exited(stdout: string, stderr: string)
    | Raised(message: string, errStderr: Option<string>)

  /** The record `executeCommand` resolves with. */
  datatype CommandResult =
    | Success(stdout: string, stderr: string)
    | Failure(error: string, failStderr: Option<string>)

  /** What the worker posts to its parent. */
  datatype PostedMessage =
    | Progress(progress: int, text: string)
    | Complete(result: CommandResult)
    | ErrorPost(error: string)

  /** `executeCommand`: never throws; every outcome of the runner becomes a result record. */
  function ExecuteCommand(o: ExecOutcome): (r: CommandResult)
    ensures r.Success? <==> o.Exited?
    ensures o.Exited? ==> r.stdout == o.stdout && r.stderr == o.stderr
    ensures o.Raised? ==> r.error == o.message && r.failStderr == o.errStderr
  {
    match o
    case Exited(out, err) => Success(out, err)
    case Raised(msg, err) => Failure(msg, err)
  }

  /** The result as the plain object posted to the parent; an undefined `stderr` is left out. */
  function ResultJson(r: CommandResult): (j: Json)
    ensures j.JObj? && |j.fields| >= 2
    ensures Get(j.fields, "success") == Some(JBool(r.Success?))
    ensures r.Success? ==>
      Get(j.fields, "stdout") == Some(JStr(r.stdout)) && Get(j.fields, "stderr") == Some(JStr(r.stderr)) &&
      Get(j.fields, "error") == None
    ensures r.Failure? ==>
      Get(j.fields, "error") == Some(JStr(r.error)) && Get(j.fields, "stdout") == None &&
      Get(j.fields, "stderr") == (if r.failStderr.Some? then Some(JStr(r.failStderr.value)) else None)
  {
    match r
    case Success(out, err) =>
      var fs := [Field("success", JBool(true)), Field("stdout", JStr(out)), Field("stderr", JStr(err))];
      GetAt(fs, 0);
      GetAt(fs, 1);
      GetAt(fs, 2);
      JObj(fs)
    case Failure(msg, err) =>
      var fs := [Field("success", JBool(false)), Field("error", JStr(msg))] +
                (if err.Some? then [Field("stderr", JStr(err.value))] else []);
      GetAt(fs, 0);
      GetAt(fs, 1);
      if err.Some? then GetAt(fs, 2); JObj(fs) else JObj(fs)
  }

  /** Whether `run` tries again after this first result. */
  predicate WantsRetry(r: CommandResult) {
    r.Failure? && !Contains(r.error, "permission denied")
  }

  /**
   * `run`: `fault` is an exception raised inside the `try` after the progress
   * message was posted (the only way to reach the `catch`, since
   * `executeCommand` itself never throws). Returns the messages posted, in
   * order, and how many times the runner was called.
   */
  method Run(runner: nat -> ExecOutcome, fault: Option<string>) returns (posted: seq<PostedMessage>, calls: nat)
    ensures |posted| == 2 && posted[0] == Progress(10, "Starting command execution")
    ensures calls <= 2
    ensures fault.Some? ==> posted[1] == ErrorPost(fault.value) && calls == 0
    ensures fault.None? ==> posted[1].Complete?
    ensures fault.None? ==> (calls == 2 <==> WantsRetry(ExecuteCommand(runner(0))))
    ensures fault.None? && calls == 2 && ExecuteCommand(runner(1)).Success? ==>
      posted[1].result == ExecuteCommand(runner(1))
    ensures fault.None? && !(calls == 2 && ExecuteCommand(runner(1)).Success?) ==>
      posted[1].result == ExecuteCommand(runner(0))
  {
    posted := [Progress(10, "Starting command execution")];
    calls := 0;
    if fault.Some? {
      posted := posted + [ErrorPost(fault.value)];
      return;
    }
    var result := ExecuteCommand(runner(calls));
    calls := calls + 1;
    if !result.Success? && !Contains(result.error, "permission denied") {
      var retryResult := ExecuteCommand(runner(calls));
      calls := calls + 1;
      if retryResult.Success? {
        posted := posted + [Complete(retryResult)];
        return;
      }
    }
    posted := posted + [Complete(result)];
  }

  /** A failure that mentions `permission denied` is never retried. */
  lemma PermissionDeniedNotRetried(a: string, b: string, stderr: Option<string>)
    ensures !WantsRetry(Failure(a + "permission denied" + b, stderr))
  {
    var s := a + "permission denied" + b;
    assert StartsWith(s[|a|..], "permission denied") by {
      assert s[|a|..][..17] == "permission denied";
    }
  }

  /**
   * The match is case-sensitive: a failure whose message has no lower-case
   * `p` at all, such as `Permission denied`, is always retried.
   */
  lemma FailureWithoutLowerPRetried(e: string, stderr: Option<string>)
    requires 'p' !in e
    ensures WantsRetry(Failure(e, stderr))
  {
    forall i | 0 <= i <= |e|
      ensures !StartsWith(e[i..], "permission denied")
    {
      if i < |e| {
        assert e[i..][0] == e[i] && e[i] in e;
      }
    }
  }
}
