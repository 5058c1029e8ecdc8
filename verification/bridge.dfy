/** The retry policy of AppleScriptBridge.swift, the native module that runs AppleScript
    against Mail.app. Each call to `executeWithRetry` is one pass: it checks that Mail is
    running (relaunching it otherwise), compiles the script, runs it, and on an error either
    rejects, relaunches Mail and runs again with the same retry count, or waits and runs
    again with the count incremented.

    What the environment does on each pass (is Mail running, does a launch succeed, does the
    script compile, what does it return) is an input: a run is given the sequence of passes
    it meets. The waits before re-running are recorded as delays rather than taken. */
module Bridge {
  import opened Common
  import opened Descriptors

  const MaxRetries: nat := 3
  /** `retryDelay`, in seconds; the exponential delay is a power of this base, 2. */
  const RetryDelaySeconds: nat := 2
  const ExponentialBackoff: bool := true
  const AccessDeniedError: int := -1728
  const AppNotRunningError: int := -600

  /** The delay before the re-run that follows a failure at `retryCount`:
      `pow(retryDelay, retryCount + 1)` with exponential backoff, `retryDelay` without. */
  function RetryDelay(retryCount: nat, exponential: bool): (seconds: nat)
    ensures seconds >= RetryDelaySeconds
    ensures !exponential ==> seconds == RetryDelaySeconds
    ensures exponential && retryCount == 0 ==> seconds == 2
    ensures exponential && retryCount == 1 ==> seconds == 4
    ensures exponential && retryCount == 2 ==> seconds == 8
  {
    assert Pow2(1) == 2 && Pow2(2) == 4 && Pow2(3) == 8;
    if exponential then Pow2(retryCount + 1) else RetryDelaySeconds
  }

  /** The delay never shrinks as the retry count grows. */
  lemma RetryDelayNonDecreasing(j: nat, k: nat, exponential: bool)
    requires j <= k
    ensures RetryDelay(j, exponential) <= RetryDelay(k, exponential)
  {
    if exponential {
      Pow2Monotonic(j + 1, k + 1);
    }
  }

  /** What the script returned on a pass: a descriptor, or an error dictionary whose error
      number may be missing. */
  datatype ScriptResult = Returned(descriptor: Descriptor) | Errored(errorNumber: Option<int>)

  /** What the environment does on one pass. `launchSucceeds` is the result of the launch
      attempted when Mail is found not running, at entry or through error -600. */
  datatype Pass = Pass(mailRunning: bool, launchSucceeds: bool, compiles: bool, result: ScriptResult)

  /** How a call ends: resolved with a value, rejected with an error code, or still waiting
      when the passes run out. */
  datatype Settlement = Resolved(value: Value) | Rejected(code: string) | Pending

  /** What one pass decides. */
  datatype Step = Settle(settlement: Settlement) | Relaunch | Retry | Exhausted

  /** `error[NSAppleScript.errorNumber] as? Int ?? 0` */
  function ErrorNumber(e: Option<int>): int {
    if e.Some? then e.value else 0
  }

  /** `handleMailAppNotRunning` */
  function HandleMailAppNotRunning(launchSucceeds: bool): (r: Step)
    ensures r == Relaunch || r == Settle(Rejected("mail_not_running"))
    ensures r == Relaunch <==> launchSucceeds
  {
    if launchSucceeds then Relaunch else Settle(Rejected("mail_not_running"))
  }

  /** `handleExecutionError` */
  function HandleExecutionError(errorNumber: int, retryCount: nat, launchSucceeds: bool): (r: Step)
    ensures errorNumber == AccessDeniedError ==> r == Settle(Rejected("access_denied"))
    ensures r.Retry? || r.Exhausted? <==> errorNumber != AccessDeniedError && errorNumber != AppNotRunningError
    ensures r.Retry? ==> retryCount < MaxRetries
    ensures r.Exhausted? ==> retryCount >= MaxRetries
  {
    if errorNumber == AccessDeniedError then Settle(Rejected("access_denied"))
    else if errorNumber == AppNotRunningError then HandleMailAppNotRunning(launchSucceeds)
    else if retryCount < MaxRetries then Retry
    else Exhausted
  }

  /** The decision of one `executeWithRetry` pass. */
  function Decide(pass: Pass, retryCount: nat): (r: Step)
    ensures r.Retry? || r.Exhausted? ==> pass.mailRunning && pass.compiles && pass.result.Errored?
    ensures r.Settle? ==> !r.settlement.Pending?
    ensures r.Settle? && r.settlement.Resolved? <==> pass.mailRunning && pass.compiles && pass.result.Returned?
  {
    if !pass.mailRunning then HandleMailAppNotRunning(pass.launchSucceeds)
    else if !pass.compiles then Settle(Rejected("compilation_failed"))
    else match pass.result
      case Errored(e) => HandleExecutionError(ErrorNumber(e), retryCount, pass.launchSucceeds)
      case Returned(d) => Settle(Resolved(Serialize(d)))
  }

  /** A whole call: how it settles, the retry delays it waited, how many relaunches it made,
      and the retry count it logged to `failedOperations` when its retries ran out. */
  datatype Run = Run(settlement: Settlement, delays: seq<nat>, relaunches: nat, logged: Option<nat>)

  /** `executeWithRetry(script, retryCount)` meeting `passes`. */
  function RetryRun(retryCount: nat, passes: seq<Pass>): (r: Run)
    ensures |r.delays| + r.relaunches <= |passes|
    ensures r.settlement.Pending? ==> r.logged.None?
    decreases |passes|
  {
    if passes == [] then Run(Pending, [], 0, None)
    else match Decide(passes[0], retryCount)
      case Settle(s) => Run(s, [], 0, None)
      case Relaunch =>
        var r := RetryRun(retryCount, passes[1..]);
        r.(relaunches := r.relaunches + 1)
      case Retry =>
        var r := RetryRun(retryCount + 1, passes[1..]);
        r.(delays := [RetryDelay(retryCount, ExponentialBackoff)] + r.delays)
      case Exhausted => Run(Rejected("execution_failed"), [], 0, Some(retryCount))
  }

  /** A pass that ends in a relaunch: Mail is not running, or the script reports error -600,
      and the launch succeeds. */
  predicate Relaunches(p: Pass) {
    && (!p.mailRunning || (p.compiles && p.result == Errored(Some(AppNotRunningError))))
    && p.launchSucceeds
  }

  /** The relaunch path re-enters at the same retry count, so it has no bound of its own: as
      long as every pass relaunches, the call never settles and never logs. */
  lemma {:induction false} RelaunchesNeverSettle(retryCount: nat, passes: seq<Pass>)
    requires forall i :: 0 <= i < |passes| ==> Relaunches(passes[i])
    ensures RetryRun(retryCount, passes) == Run(Pending, [], |passes|, None)
    decreases |passes|
  {
    if passes != [] {
      assert Relaunches(passes[0]);
      assert Decide(passes[0], retryCount) == Relaunch;
      assert forall i :: 0 <= i < |passes[1..]| ==> Relaunches(passes[1..][i]) by {
        forall i | 0 <= i < |passes[1..]| ensures Relaunches(passes[1..][i]) {
          assert passes[1..][i] == passes[i + 1];
        }
      }
      RelaunchesNeverSettle(retryCount, passes[1..]);
    }
  }

  /** The delays of `n` consecutive retries from count `k`. */
  function Schedule(k: nat, n: nat): (r: seq<nat>)
    ensures |r| == n
    ensures forall i :: 0 <= i < n ==> r[i] == RetryDelay(k + i, ExponentialBackoff)
    decreases n
  {
    if n == 0 then [] else [RetryDelay(k, ExponentialBackoff)] + Schedule(k + 1, n - 1)
  }

  /** Error -1728 rejects with "access_denied" at once: no retry, no relaunch, nothing logged. */
  lemma AccessDeniedNeverRetries(retryCount: nat, passes: seq<Pass>)
    requires passes != [] && passes[0].mailRunning && passes[0].compiles
    requires passes[0].result == Errored(Some(AccessDeniedError))
    ensures RetryRun(retryCount, passes) == Run(Rejected("access_denied"), [], 0, None)
  {
  }

  /** A script that does not compile rejects with "compilation_failed": no retry, nothing logged. */
  lemma CompileFailureNeverRetries(retryCount: nat, passes: seq<Pass>)
    requires passes != [] && passes[0].mailRunning && !passes[0].compiles
    ensures RetryRun(retryCount, passes) == Run(Rejected("compilation_failed"), [], 0, None)
  {
  }

  /** Mail not running, at entry or as error -600: a failed launch rejects with
      "mail_not_running"; a successful one runs again with the retry count unchanged, so the
      relaunch neither waits a retry delay nor uses up the retry budget. */
  lemma RelaunchKeepsRetryCount(retryCount: nat, passes: seq<Pass>)
    requires passes != []
    requires !passes[0].mailRunning
      || (passes[0].compiles && passes[0].result == Errored(Some(AppNotRunningError)))
    ensures !passes[0].launchSucceeds ==>
      RetryRun(retryCount, passes) == Run(Rejected("mail_not_running"), [], 0, None)
    ensures passes[0].launchSucceeds ==>
      var rest := RetryRun(retryCount, passes[1..]);
      var r := RetryRun(retryCount, passes);
      r.settlement == rest.settlement && r.delays == rest.delays && r.logged == rest.logged
        && r.relaunches == rest.relaunches + 1
  {
  }

  /** The retry budget: the delays waited are those of consecutive retry counts from the
      starting one, no retry happens at or past `MaxRetries`, and a run is logged exactly when
      it rejects with "execution_failed", at the count where the budget ran out. */
  lemma {:induction false} RetryBudget(retryCount: nat, passes: seq<Pass>)
    ensures var r := RetryRun(retryCount, passes);
      && r.delays == Schedule(retryCount, |r.delays|)
      && (retryCount <= MaxRetries ==> retryCount + |r.delays| <= MaxRetries)
      && (retryCount > MaxRetries ==> r.delays == [])
      && (r.logged.Some? <==> r.settlement == Rejected("execution_failed"))
      && (r.logged.Some? ==> r.logged.value == retryCount + |r.delays| && r.logged.value >= MaxRetries)
    decreases |passes|
  {
    if passes != [] {
      match Decide(passes[0], retryCount)
      case Settle(s) =>
        assert s != Rejected("execution_failed");
      case Relaunch =>
        RetryBudget(retryCount, passes[1..]);
      case Retry =>
        RetryBudget(retryCount + 1, passes[1..]);
      case Exhausted =>
    }
  }

  /** From a fresh call, a logged failure has waited 2, 4 and 8 seconds and is logged with
      retry count 3: four counted executions of the script. */
  lemma ExhaustedFromFresh(passes: seq<Pass>)
    requires RetryRun(0, passes).logged.Some?
    ensures RetryRun(0, passes).delays == [2, 4, 8]
    ensures RetryRun(0, passes).logged == Some(MaxRetries)
  {
    RetryBudget(0, passes);
    var r := RetryRun(0, passes);
    assert |r.delays| == 3;
    assert Pow2(1) == 2 && Pow2(2) == 4 && Pow2(3) == 8;
  }

  /** A resolved call resolves with the serialisation of what the script returned on one of
      its passes. */
  lemma {:induction false} ResolvedFromSomePass(retryCount: nat, passes: seq<Pass>)
    requires RetryRun(retryCount, passes).settlement.Resolved?
    ensures exists i ::
              && 0 <= i < |passes| && passes[i].result.Returned?
              && RetryRun(retryCount, passes).settlement.value == Serialize(passes[i].result.descriptor)
    decreases |passes|
  {
    var step := Decide(passes[0], retryCount);
    if step.Settle? {
      assert passes[0].result.Returned?;
    } else {
      var next := if step.Retry? then retryCount + 1 else retryCount;
      ResolvedFromSomePass(next, passes[1..]);
      var i :| 0 <= i < |passes[1..]| && passes[1..][i].result.Returned?
        && RetryRun(next, passes[1..]).settlement.value == Serialize(passes[1..][i].result.descriptor);
      assert passes[i + 1] == passes[1..][i];
    }
  }

  /** Two transient failures and then a result: the call waits 2 then 4 seconds and resolves
      with the serialised result. */
  lemma TwoFailuresThenSuccess(text: string)
    ensures var fail := Pass(true, true, true, Errored(Some(-1708)));
      var ok := Pass(true, true, true, Returned(Text(Some(text))));
      RetryRun(0, [fail, fail, ok]) == Run(Resolved(VString(text)), [2, 4], 0, None)
  {
    var fail := Pass(true, true, true, Errored(Some(-1708)));
    var ok := Pass(true, true, true, Returned(Text(Some(text))));
    assert [fail, fail, ok][1..] == [fail, ok];
    assert [fail, ok][1..] == [ok];
    assert Pow2(1) == 2 && Pow2(2) == 4;
    assert RetryRun(2, [ok]) == Run(Resolved(VString(text)), [], 0, None);
    assert RetryRun(1, [fail, ok]) == Run(Resolved(VString(text)), [4], 0, None);
  }

  /** An entry of `failedOperations`. */
  datatype FailedScript = FailedScript(script: string, retryCount: nat)

  /** The report `retryFailedOperations` resolves with. */
  datatype Report = Report(total: nat, successful: nat, failed: int)

  /** How each re-run of the snapshot settles, the i-th meeting `runs[i]`. */
  function Settlements(operations: seq<FailedScript>, runs: seq<seq<Pass>>): (s: seq<Settlement>)
    requires |runs| >= |operations|
    ensures |s| == |operations|
  {
    seq(|operations|, i requires 0 <= i < |operations| => RetryRun(0, runs[i]).settlement)
  }

  /** The settled outcomes among `s`, in order: those whose callback appended a result. */
  function Settled(s: seq<Settlement>): (r: seq<Settlement>)
    ensures |r| <= |s|
    ensures forall i :: 0 <= i < |r| ==> r[i] != Pending
  {
    if s == [] then []
    else
      var before := Settled(s[..|s| - 1]);
      if s[|s| - 1].Pending? then before else before + [s[|s| - 1]]
  }

  /** Every outcome has settled exactly when none was dropped, and then the results are the
      outcomes themselves. */
  lemma {:induction false} SettledAll(s: seq<Settlement>)
    ensures |Settled(s)| == |s| <==> forall i :: 0 <= i < |s| ==> s[i] != Pending
    ensures |Settled(s)| == |s| ==> Settled(s) == s
  {
    if s != [] {
      var n := |s| - 1;
      var init := s[..n];
      SettledAll(init);
      if s[n].Pending? {
        assert |Settled(s)| <= n;
      } else {
        assert Settled(s) == Settled(init) + [s[n]];
        if |Settled(s)| == |s| {
          assert Settled(init) == init;
          assert s == init + [s[n]];
          forall i | 0 <= i < |s|
            ensures s[i] != Pending
          {
            if i < n {
              assert s[i] == init[i];
            }
          }
        }
      }
    }
  }

  /** `results.filter { $0.isSuccess }.count` */
  function CountResolved(s: seq<Settlement>): (n: nat)
    ensures n <= |s|
    ensures n == |s| <==> forall i :: 0 <= i < |s| ==> s[i].Resolved?
  {
    if s == [] then 0
    else CountResolved(s[..|s| - 1]) + (if s[|s| - 1].Resolved? then 1 else 0)
  }

  /** The entries the re-runs of `operations` log to `failedOperations`, in order. */
  function Relogged(operations: seq<FailedScript>, runs: seq<seq<Pass>>): seq<FailedScript>
    requires |runs| >= |operations|
  {
    if operations == [] then []
    else
      var n := |operations| - 1;
      var logged := RetryRun(0, runs[n]).logged;
      Relogged(operations[..n], runs) + (if logged.Some? then [FailedScript(operations[n].script, logged.value)] else [])
  }

  /** Every entry a re-run logs names a script of the snapshot and carries retry count 3,
      and there is at most one per snapshot entry. */
  lemma {:induction false} ReloggedFromSnapshot(operations: seq<FailedScript>, runs: seq<seq<Pass>>)
    requires |runs| >= |operations|
    ensures |Relogged(operations, runs)| <= |operations|
    ensures forall e :: e in Relogged(operations, runs) ==>
      e.retryCount == MaxRetries && exists j :: 0 <= j < |operations| && operations[j].script == e.script
  {
    if operations != [] {
      var n := |operations| - 1;
      ReloggedFromSnapshot(operations[..n], runs);
      var logged := RetryRun(0, runs[n]).logged;
      if logged.Some? {
        ExhaustedFromFresh(runs[n]);
      }
      forall e | e in Relogged(operations, runs)
        ensures e.retryCount == MaxRetries && exists j :: 0 <= j < |operations| && operations[j].script == e.script
      {
        if e in Relogged(operations[..n], runs) {
          var j :| 0 <= j < n && operations[..n][j].script == e.script;
          assert operations[j] == operations[..n][j];
        } else {
          assert e == FailedScript(operations[n].script, logged.value);
        }
      }
    }
  }

  class AppleScriptBridge {
    var failedOperations: seq<FailedScript>

    constructor ()
      ensures failedOperations == []
    {
      failedOperations := [];
    }

    /** `execute(script)`: a fresh call with retry count 0; a call whose retries run out
        appends one entry to `failedOperations`. */
    method Execute(script: string, passes: seq<Pass>) returns (settlement: Settlement)
      modifies this
      ensures settlement == RetryRun(0, passes).settlement
      ensures var logged := RetryRun(0, passes).logged;
        failedOperations == old(failedOperations) + (if logged.Some? then [FailedScript(script, logged.value)] else [])
    {
      var run := RetryRun(0, passes);
      settlement := run.settlement;
      if run.logged.Some? {
        failedOperations := failedOperations + [FailedScript(script, run.logged.value)];
      }
    }

    /** `retryFailedOperations`: takes a snapshot of `failedOperations`, empties it, re-runs
        every script from retry count 0 (the i-th meeting `runs[i]`) and, once every re-run
        has settled, reports how many there were and how many resolved. A re-run that never
        settles keeps the report from being sent, shown as `None`. */
    method RetryFailedOperations(runs: seq<seq<Pass>>) returns (report: Option<Report>)
      requires |runs| >= |failedOperations|
      modifies this
      ensures var outcomes := Settlements(old(failedOperations), runs);
        && (report.Some? <==> forall i :: 0 <= i < |outcomes| ==> outcomes[i] != Pending)
        && (report.Some? ==> report.value == Report(|outcomes|, CountResolved(outcomes), |outcomes| - CountResolved(outcomes)))
      ensures failedOperations == Relogged(old(failedOperations), runs)
    {
      var operations := failedOperations;
      failedOperations := [];
      var results: seq<Settlement> := [];
      ghost var outcomes := Settlements(operations, runs);
      for i := 0 to |operations|
        invariant results == Settled(outcomes[..i])
        invariant failedOperations == Relogged(operations[..i], runs)
      {
        var settlement := Execute(operations[i].script, runs[i]);
        if !settlement.Pending? {
          results := results + [settlement];
        }
        assert outcomes[..i + 1][..i] == outcomes[..i];
        assert operations[..i + 1][..i] == operations[..i];
      }
      assert outcomes[..|operations|] == outcomes;
      assert operations[..|operations|] == operations;
      SettledAll(outcomes);
      if |results| == |operations| {
        var successCount := CountResolved(results);
        report := Some(Report(|operations|, successCount, |operations| - successCount));
      } else {
        report := None;
      }
    }
  }
}
