/** The JavaScript retry manager of ErrorRecoveryManager.js: it classifies error codes as
    retryable, keeps pending retries under `${operation.id}_${Date.now()}` keys with a count
    capped at three and a delay of 2^count seconds, keeps a ledger of failed operations, and
    re-runs that ledger on request.

    Timers, the user notification and `operation.execute` are external: a retry's timer is
    kept as its delay, the notification as the message it asks to show together with whether
    scheduling it completed, and the outcome of each execution is an input. */
module ErrorRecovery {
  import opened Common
  import opened Keys

  /** An operation as the manager sees it; running it is external. */
  datatype Operation = Operation(id: string)

  /** An error object; `code` is absent when the error carries none. */
  datatype AppError = AppError(code: Option<string>)

  /** Why an operation was put in the failed-operations ledger. */
  datatype FailureReason = Raised(error: AppError) | MaxRetriesExceeded

  datatype FailedOperation = FailedOperation(operation: Operation, reason: FailureReason, context: Value, timestamp: nat)

  /** A scheduled retry; `delay` stands for the timer that `setTimeout` arms. */
  datatype PendingRetry = PendingRetry(count: nat, operation: Operation, context: Value, delay: nat)

  /** The outcome of one `operation.execute(context)`. */
  datatype Execution = Succeeded | Failed(error: AppError)

  const RetryableCodes: set<string> := {"timeout", "mail_not_running", "network_error", "temporary_failure"}
  const MaxRetryCount: nat := 3

  /** The codes `getErrorMessage` has a message of its own for. */
  const MessageCodes: set<string> := {"access_denied", "mail_not_running", "timeout", "network_error"}

  const AccessDeniedMessage := "Permission needed to access Mail.app"
  const MailNotRunningMessage := "Mail.app needs to be running"
  const TimeoutMessage := "Operation timed out. Will retry automatically."
  const NetworkErrorMessage := "Network connection issues. Will retry when connected."
  const UnexpectedMessage := "An unexpected error occurred"

  /** `shouldRetry` */
  predicate ShouldRetry(error: AppError): (b: bool)
    ensures error.code.None? ==> !b
    ensures error.code == Some("access_denied") ==> !b
    ensures b && error.code.value != "temporary_failure" ==> error.code.value in MessageCodes
  {
    error.code.Some? && error.code.value in RetryableCodes
  }

  /** `getErrorMessage` */
  function GetErrorMessage(error: AppError): (m: string)
    ensures m == UnexpectedMessage <==> !(error.code.Some? && error.code.value in MessageCodes)
  {
    match error.code
    case Some("access_denied") => AccessDeniedMessage
    case Some("mail_not_running") => MailNotRunningMessage
    case Some("timeout") => TimeoutMessage
    case Some("network_error") => NetworkErrorMessage
    case _ => UnexpectedMessage
  }

  /** Only errors that are not retried reach the user notification, so of the message table
      only the access-denied text and the fallback can ever be shown. */
  lemma NotifiedMessages(error: AppError)
    requires !ShouldRetry(error)
    ensures GetErrorMessage(error) in {AccessDeniedMessage, UnexpectedMessage}
    ensures GetErrorMessage(error) == AccessDeniedMessage <==> error.code == Some("access_denied")
  {
  }

  /** `Math.pow(2, count) * 1000` milliseconds */
  function RetryDelay(count: nat): (ms: nat)
    ensures count == 1 ==> ms == 2000
    ensures count == 2 ==> ms == 4000
    ensures count == 3 ==> ms == 8000
  {
    assert Pow2(1) == 2 && Pow2(2) == 4 && Pow2(3) == 8;
    Pow2(count) * 1000
  }

  /** The delay never shrinks as the count grows. */
  lemma RetryDelayNonDecreasing(j: nat, k: nat)
    requires j <= k
    ensures RetryDelay(j) <= RetryDelay(k)
  {
    Pow2Monotonic(j, k);
  }

  /** The two collections the manager updates. */
  datatype Ledger = Ledger(pendingRetries: map<string, PendingRetry>, failedOperations: seq<FailedOperation>)

  /** Every pending retry has a count in 1..3 and the delay that count gives. */
  predicate PendingValid(pending: map<string, PendingRetry>) {
    forall key :: key in pending ==>
      1 <= pending[key].count <= MaxRetryCount && pending[key].delay == RetryDelay(pending[key].count)
  }

  /** The ledger `t` keeps every record of `s`, in place, and adds at most `n` more. */
  predicate ExtendsBy(s: seq<FailedOperation>, t: seq<FailedOperation>, n: nat) {
    |s| <= |t| <= |s| + n && t[..|s|] == s
  }

  /** `(this.pendingRetries.get(retryKey)?.count || 0)` */
  function PriorCount(pending: map<string, PendingRetry>, key: string): nat {
    if key in pending then pending[key].count else 0
  }

  /** `scheduleRetry` at time `now` */
  function ScheduleRetryStep(s: Ledger, operation: Operation, context: Value, now: nat): (r: Ledger)
    ensures ExtendsBy(s.failedOperations, r.failedOperations, 1)
    ensures r.pendingRetries.Keys <= s.pendingRetries.Keys + {TimestampKey(operation.id, now)}
  {
    var key := TimestampKey(operation.id, now);
    var count := PriorCount(s.pendingRetries, key) + 1;
    if count <= MaxRetryCount then
      s.(pendingRetries := s.pendingRetries[key := PendingRetry(count, operation, context, RetryDelay(count))])
    else
      s.(failedOperations := s.failedOperations + [FailedOperation(operation, MaxRetriesExceeded, context, now)])
  }

  /** `handleError` at time `now` */
  function HandleErrorStep(s: Ledger, error: AppError, operation: Operation, context: Value, now: nat): (r: Ledger)
    ensures ExtendsBy(s.failedOperations, r.failedOperations, 1)
    ensures !ShouldRetry(error) ==> |r.failedOperations| == |s.failedOperations| + 1 && r.pendingRetries == s.pendingRetries
  {
    if ShouldRetry(error) then ScheduleRetryStep(s, operation, context, now)
    else s.(failedOperations := s.failedOperations + [FailedOperation(operation, Raised(error), context, now)])
  }

  /** The notification `handleError` asks to show, if any. */
  function Notification(error: AppError): Option<string> {
    if ShouldRetry(error) then None else Some(GetErrorMessage(error))
  }

  /** `executeRetry(key)` whose execution had `result`, at time `now` */
  function ExecuteRetryStep(s: Ledger, key: string, result: Execution, now: nat): (r: Ledger)
    ensures ExtendsBy(s.failedOperations, r.failedOperations, 1)
    ensures forall k :: k in r.pendingRetries ==>
      k in s.pendingRetries || (key in s.pendingRetries && k == TimestampKey(s.pendingRetries[key].operation.id, now))
  {
    if key !in s.pendingRetries then s
    else if result.Succeeded? then s.(pendingRetries := s.pendingRetries - {key})
    else HandleErrorStep(s, result.error, s.pendingRetries[key].operation, s.pendingRetries[key].context, now)
  }

  /** One re-run of `recoverFailedOperations`: what the execution did, when, and, should it
      fail with an error that is not retried, whether scheduling the user notification
      completed. */
  datatype Rerun = Rerun(result: Execution, now: nat, notified: bool)

  /** `handleError` rejects after pushing its record: the execution failed with an error
      that is not retried, and the notification it then awaits rejects. */
  predicate RejectsAfterRecord(result: Execution, notified: bool) {
    result.Failed? && !ShouldRetry(result.error) && !notified
  }

  /** A re-run ends the loop: its `handleError` rejects inside the loop's `catch`, and the
      rejection leaves the loop. */
  predicate EndsLoop(r: Rerun) {
    RejectsAfterRecord(r.result, r.notified)
  }

  /** One of the first `n` re-runs ended the loop. */
  predicate Stopped(reruns: seq<Rerun>, n: nat)
    requires n <= |reruns|
  {
    exists j :: 0 <= j < n && EndsLoop(reruns[j])
  }

  /** The body of the loop for one snapshot entry. */
  function RerunStep(s: Ledger, op: FailedOperation, r: Rerun): Ledger {
    match r.result
    case Succeeded => s
    case Failed(error) => HandleErrorStep(s, error, op.operation, op.context, r.now)
  }

  /** The loop of `recoverFailedOperations` over `snapshot`, starting from `s`: entries after
      one that ends the loop are not re-run. */
  function RerunAll(s: Ledger, snapshot: seq<FailedOperation>, reruns: seq<Rerun>): (r: Ledger)
    requires |reruns| >= |snapshot|
    ensures ExtendsBy(s.failedOperations, r.failedOperations, |snapshot|)
  {
    if snapshot == [] then s
    else
      var n := |snapshot| - 1;
      var before := RerunAll(s, snapshot[..n], reruns);
      if Stopped(reruns, n) then before else RerunStep(before, snapshot[n], reruns[n])
  }

  /** `scheduleRetry` below the cap stores a retry with the incremented count and its delay
      and leaves the ledger alone; at the cap it records one "Max retries exceeded" failure
      and stores nothing. Other keys are never touched. */
  lemma ScheduleRetryBudget(s: Ledger, operation: Operation, context: Value, now: nat)
    ensures var key := TimestampKey(operation.id, now);
      var count := PriorCount(s.pendingRetries, key) + 1;
      var r := ScheduleRetryStep(s, operation, context, now);
      && (forall k :: k != key ==> (k in r.pendingRetries <==> k in s.pendingRetries))
      && (forall k :: k != key && k in s.pendingRetries ==> r.pendingRetries[k] == s.pendingRetries[k])
      && (count <= MaxRetryCount ==>
            && r.pendingRetries[key] == PendingRetry(count, operation, context, RetryDelay(count))
            && r.failedOperations == s.failedOperations)
      && (count > MaxRetryCount ==>
            && r.pendingRetries == s.pendingRetries
            && r.failedOperations == s.failedOperations + [FailedOperation(operation, MaxRetriesExceeded, context, now)])
  {
  }

  /** The key embeds the current time, so a retry scheduled at an instant with no pending
      entry starts at count 1 with a 2-second delay. */
  lemma FreshKeyFirstRetry(s: Ledger, operation: Operation, context: Value, now: nat)
    requires TimestampKey(operation.id, now) !in s.pendingRetries
    ensures ScheduleRetryStep(s, operation, context, now).pendingRetries[TimestampKey(operation.id, now)]
      == PendingRetry(1, operation, context, 2000)
  {
  }

  /** A non-retryable error appends exactly one record and leaves the pending retries alone. */
  lemma NonRetryableRecordedOnce(s: Ledger, error: AppError, operation: Operation, context: Value, now: nat)
    requires !ShouldRetry(error)
    ensures HandleErrorStep(s, error, operation, context, now)
      == s.(failedOperations := s.failedOperations + [FailedOperation(operation, Raised(error), context, now)])
  {
  }

  lemma HandleErrorKeepsPendingValid(s: Ledger, error: AppError, operation: Operation, context: Value, now: nat)
    requires PendingValid(s.pendingRetries)
    ensures PendingValid(HandleErrorStep(s, error, operation, context, now).pendingRetries)
  {
  }

  /** `executeRetry` of an absent key changes nothing; a success removes the key; a failure
      leaves the key in place and goes through `handleError`. */
  lemma ExecuteRetryOutcomes(s: Ledger, key: string, result: Execution, now: nat)
    ensures key !in s.pendingRetries ==> ExecuteRetryStep(s, key, result, now) == s
    ensures key in s.pendingRetries && result.Succeeded? ==>
      ExecuteRetryStep(s, key, result, now) == s.(pendingRetries := s.pendingRetries - {key})
    ensures key in s.pendingRetries && result.Failed? ==>
      && key in ExecuteRetryStep(s, key, result, now).pendingRetries
      && ExecuteRetryStep(s, key, result, now) == HandleErrorStep(s, result.error,
           s.pendingRetries[key].operation, s.pendingRetries[key].context, now)
  {
  }

  /** Because the retry key embeds the time, a retry that fails at a later instant is
      scheduled under a new key with count 1: the failed key keeps its count and no
      "Max retries exceeded" record is written, so retries that fail at successive
      instants never reach the cap. */
  lemma LaterFailureRestartsCount(s: Ledger, operation: Operation, t: nat, error: AppError, now: nat)
    requires TimestampKey(operation.id, t) in s.pendingRetries
    requires s.pendingRetries[TimestampKey(operation.id, t)].operation == operation
    requires ShouldRetry(error) && now != t
    requires TimestampKey(operation.id, now) !in s.pendingRetries
    ensures var r := ExecuteRetryStep(s, TimestampKey(operation.id, t), Failed(error), now);
      && r.pendingRetries[TimestampKey(operation.id, now)].count == 1
      && r.pendingRetries[TimestampKey(operation.id, t)] == s.pendingRetries[TimestampKey(operation.id, t)]
      && r.failedOperations == s.failedOperations
  {
    var oldKey, newKey := TimestampKey(operation.id, t), TimestampKey(operation.id, now);
    assert oldKey != newKey by {
      if oldKey == newKey {
        TimestampKeyInjective(operation.id, t, operation.id, now);
      }
    }
  }

  /** Once a re-run among the first `m` has ended the loop, the entries after the first `m`
      change nothing: they are never re-run. */
  lemma {:induction false} RerunAfterStop(s: Ledger, snapshot: seq<FailedOperation>, reruns: seq<Rerun>, m: nat)
    requires m <= |snapshot| <= |reruns|
    requires Stopped(reruns, m)
    ensures RerunAll(s, snapshot, reruns) == RerunAll(s, snapshot[..m], reruns)
  {
    if m < |snapshot| {
      var n := |snapshot| - 1;
      var j :| 0 <= j < m && EndsLoop(reruns[j]);
      assert Stopped(reruns, n);
      RerunAfterStop(s, snapshot[..n], reruns, m);
      assert snapshot[..n][..m] == snapshot[..m];
    } else {
      assert snapshot[..m] == snapshot;
    }
  }

  /** A re-run whose failure is not retried and whose notification rejects is the last one:
      the snapshot entries after it are dropped, although the ledger was emptied. */
  lemma RejectedNotificationDropsRest(s: Ledger, snapshot: seq<FailedOperation>, reruns: seq<Rerun>, i: nat)
    requires i < |snapshot| <= |reruns|
    requires EndsLoop(reruns[i])
    ensures RerunAll(s, snapshot, reruns) == RerunAll(s, snapshot[..i + 1], reruns)
  {
    RerunAfterStop(s, snapshot, reruns, i + 1);
  }

  /** Two snapshot entries that both fail with "access_denied" while notifications reject:
      only the first is re-run and recorded again. */
  lemma TwoDeniedRerunsKeepOne(p: map<string, PendingRetry>, a: FailedOperation, b: FailedOperation, t1: nat, t2: nat)
    ensures var denied := AppError(Some("access_denied"));
      RerunAll(Ledger(p, []), [a, b], [Rerun(Failed(denied), t1, false), Rerun(Failed(denied), t2, false)])
        == Ledger(p, [FailedOperation(a.operation, Raised(denied), a.context, t1)])
  {
    var denied := AppError(Some("access_denied"));
    var reruns := [Rerun(Failed(denied), t1, false), Rerun(Failed(denied), t2, false)];
    assert EndsLoop(reruns[0]);
    RejectedNotificationDropsRest(Ledger(p, []), [a, b], reruns, 0);
    assert [a, b][..1] == [a];
    assert [a][..0] == [];
    assert !Stopped(reruns, 0);
  }

  /** Every record the re-run adds to the ledger is about an operation of the snapshot, and
      the pending retries stay well formed. */
  lemma {:induction false} RerunRecordsSnapshotOperations(s: Ledger, snapshot: seq<FailedOperation>, reruns: seq<Rerun>)
    requires |reruns| >= |snapshot|
    requires PendingValid(s.pendingRetries)
    ensures var r := RerunAll(s, snapshot, reruns);
      && PendingValid(r.pendingRetries)
      && (forall i :: |s.failedOperations| <= i < |r.failedOperations| ==>
            exists j :: 0 <= j < |snapshot| && r.failedOperations[i].operation == snapshot[j].operation)
  {
    if snapshot != [] {
      var n := |snapshot| - 1;
      RerunRecordsSnapshotOperations(s, snapshot[..n], reruns);
      var before := RerunAll(s, snapshot[..n], reruns);
      var r := RerunAll(s, snapshot, reruns);
      if !Stopped(reruns, n) && reruns[n].result.Failed? {
        HandleErrorKeepsPendingValid(before, reruns[n].result.error, snapshot[n].operation, snapshot[n].context, reruns[n].now);
      }
      forall i | |s.failedOperations| <= i < |r.failedOperations|
        ensures exists j :: 0 <= j < |snapshot| && r.failedOperations[i].operation == snapshot[j].operation
      {
        if i < |before.failedOperations| {
          assert r.failedOperations[i] == before.failedOperations[i];
          var j :| 0 <= j < n && before.failedOperations[i].operation == snapshot[..n][j].operation;
          assert snapshot[..n][j] == snapshot[j];
        } else {
          assert r.failedOperations[i].operation == snapshot[n].operation;
        }
      }
    }
  }

  /** When every re-run succeeds, nothing is recorded and no retry is scheduled. */
  lemma {:induction false} RerunAllSucceeded(s: Ledger, snapshot: seq<FailedOperation>, reruns: seq<Rerun>)
    requires |reruns| >= |snapshot|
    requires forall i :: 0 <= i < |snapshot| ==> reruns[i].result.Succeeded?
    ensures RerunAll(s, snapshot, reruns) == s
  {
    if snapshot != [] {
      RerunAllSucceeded(s, snapshot[..|snapshot| - 1], reruns);
    }
  }

  class ErrorRecoveryManager {
    var pendingRetries: map<string, PendingRetry>
    var failedOperations: seq<FailedOperation>
    var isRecovering: bool
    /** The snapshot entries a running `recoverFailedOperations` has still to re-run (not a
        field of the source: it is the continuation of that call's loop, which the JavaScript
        runtime keeps while the call awaits `execute`). */
    var rerunQueue: seq<FailedOperation>

    function State(): Ledger
      reads this
    {
      Ledger(pendingRetries, failedOperations)
    }

    /** Pending retries are well formed, and the flag is set exactly while a recovery has
        entries left to re-run. */
    ghost predicate Valid()
      reads this
    {
      PendingValid(pendingRetries) && (isRecovering <==> rerunQueue != [])
    }

    constructor ()
      ensures Valid()
      ensures pendingRetries == map[] && failedOperations == [] && !isRecovering
    {
      pendingRetries := map[];
      failedOperations := [];
      isRecovering := false;
      rerunQueue := [];
    }

    /** `scheduleRetry` */
    method ScheduleRetry(operation: Operation, context: Value, now: nat)
      requires Valid()
      modifies this`pendingRetries, this`failedOperations
      ensures Valid()
      ensures State() == ScheduleRetryStep(old(State()), operation, context, now)
    {
      var retryKey := TimestampKey(operation.id, now);
      var retryCount := (if retryKey in pendingRetries then pendingRetries[retryKey].count else 0) + 1;
      if retryCount <= MaxRetryCount {
        var delay := Pow2(retryCount) * 1000;
        pendingRetries := pendingRetries[retryKey := PendingRetry(retryCount, operation, context, delay)];
      } else {
        failedOperations := failedOperations + [FailedOperation(operation, MaxRetriesExceeded, context, now)];
      }
    }

    /** `handleError`; returns the text of the notification it asks to show, if any, and
        whether it rejects: `notified` is whether scheduling that notification completes. The
        record is pushed before the notification is attempted. */
    method HandleError(error: AppError, operation: Operation, context: Value, now: nat, notified: bool)
      returns (notification: Option<string>, rejected: bool)
      requires Valid()
      modifies this`pendingRetries, this`failedOperations
      ensures Valid()
      ensures State() == HandleErrorStep(old(State()), error, operation, context, now)
      ensures notification == Notification(error)
      ensures rejected <==> !ShouldRetry(error) && !notified
    {
      rejected := false;
      if ShouldRetry(error) {
        ScheduleRetry(operation, context, now);
        notification := None;
      } else {
        failedOperations := failedOperations + [FailedOperation(operation, Raised(error), context, now)];
        notification := Some(GetErrorMessage(error));
        rejected := !notified;
      }
    }

    /** `executeRetry(retryKey)`, the execution having ended with `result`. */
    method ExecuteRetry(retryKey: string, result: Execution, now: nat, notified: bool)
      returns (notification: Option<string>, rejected: bool)
      requires Valid()
      modifies this`pendingRetries, this`failedOperations
      ensures Valid()
      ensures State() == ExecuteRetryStep(old(State()), retryKey, result, now)
      ensures notification == if retryKey in old(pendingRetries) && result.Failed? then Notification(result.error) else None
      ensures rejected <==> retryKey in old(pendingRetries) && RejectsAfterRecord(result, notified)
    {
      notification, rejected := None, false;
      if retryKey !in pendingRetries {
        return;
      }
      var retry := pendingRetries[retryKey];
      match result {
        case Succeeded =>
          pendingRetries := pendingRetries - {retryKey};
        case Failed(error) =>
          notification, rejected := HandleError(error, retry.operation, retry.context, now, notified);
      }
    }

    /** `recoverFailedOperations` up to its first `await`: a no-op while a recovery runs;
        otherwise it sets the flag, takes the snapshot and empties the ledger. With an empty
        snapshot the loop has nothing to do and the `finally` block clears the flag at once. */
    method BeginRecovery() returns (started: bool)
      requires Valid()
      modifies this`isRecovering, this`failedOperations, this`rerunQueue
      ensures Valid()
      ensures started <==> !old(isRecovering)
      ensures old(isRecovering) ==> isRecovering && failedOperations == old(failedOperations) && rerunQueue == old(rerunQueue)
      ensures !old(isRecovering) ==>
        && rerunQueue == old(failedOperations)
        && failedOperations == []
        && (isRecovering <==> old(failedOperations) != [])
    {
      if isRecovering {
        return false;
      }
      isRecovering := true;
      rerunQueue := failedOperations;
      failedOperations := [];
      if rerunQueue == [] {
        // finally
        isRecovering := false;
      }
      return true;
    }

    /** One turn of the loop of a running `recoverFailedOperations`: the next snapshot entry
        is re-run and a failure goes through `handleError`. If that rejects, the rejection
        leaves the loop, the remaining entries are dropped and the `finally` block clears the
        flag, as it does after the last entry. */
    method RerunNext(rerun: Rerun) returns (notification: Option<string>, rejected: bool)
      requires Valid() && isRecovering
      modifies this
      ensures Valid()
      ensures State() == RerunStep(old(State()), old(rerunQueue)[0], rerun)
      ensures notification == if rerun.result.Failed? then Notification(rerun.result.error) else None
      ensures rejected <==> EndsLoop(rerun)
      ensures rerunQueue == if EndsLoop(rerun) then [] else old(rerunQueue)[1..]
    {
      var op := rerunQueue[0];
      notification, rejected := None, false;
      match rerun.result {
        case Succeeded =>
        case Failed(error) =>
          notification, rejected := HandleError(error, op.operation, op.context, rerun.now, rerun.notified);
      }
      rerunQueue := if rejected then [] else rerunQueue[1..];
      // finally
      isRecovering := rerunQueue != [];
    }

    /** A whole call of `recoverFailedOperations` during which nothing else runs: the
        snapshot is re-run in order from an emptied ledger until its end or until a re-run
        rejects, which the call then rejects with. */
    method RecoverFailedOperations(reruns: seq<Rerun>) returns (rejected: bool)
      requires Valid()
      requires |reruns| >= |failedOperations|
      modifies this
      ensures Valid()
      ensures old(isRecovering) ==>
        && !rejected && isRecovering
        && State() == old(State()) && rerunQueue == old(rerunQueue)
      ensures !old(isRecovering) ==>
        && !isRecovering
        && State() == RerunAll(Ledger(old(pendingRetries), []), old(failedOperations), reruns)
        && (rejected <==> Stopped(reruns, |old(failedOperations)|))
    {
      rejected := false;
      var started := BeginRecovery();
      if !started {
        return;
      }
      ghost var operations := rerunQueue;
      var i := 0;
      while rerunQueue != []
        invariant Valid()
        invariant 0 <= i <= |operations|
        invariant rejected <==> Stopped(reruns, i)
        invariant rerunQueue == if rejected then [] else operations[i..]
        invariant State() == RerunAll(Ledger(old(pendingRetries), []), operations[..i], reruns)
        decreases |rerunQueue|
      {
        assert rerunQueue[0] == operations[i];
        var _, r := RerunNext(reruns[i]);
        rejected := r;
        assert operations[..i + 1][..i] == operations[..i];
        assert Stopped(reruns, i + 1) <==> EndsLoop(reruns[i]) by {
          if Stopped(reruns, i + 1) {
            var j :| 0 <= j < i + 1 && EndsLoop(reruns[j]);
            assert j == i;
          }
        }
        assert operations[i..][1..] == operations[i + 1..];
        i := i + 1;
      }
      if rejected {
        RerunAfterStop(Ledger(old(pendingRetries), []), operations, reruns, i);
        var j :| 0 <= j < i && EndsLoop(reruns[j]);
        assert Stopped(reruns, |operations|);
      } else {
        assert operations[..i] == operations;
      }
    }

    /** `cleanup`: cancels every timer and empties the pending retries. */
    method Cleanup()
      requires Valid()
      modifies this`pendingRetries
      ensures Valid()
      ensures pendingRetries == map[]
    {
      pendingRetries := map[];
    }
  }
}
