# Retry and recovery policy of the Mail.app email assistant

This project models the retry and recovery layer of an email assistant. The assistant drives
Mail.app through AppleScript. The layer spans three files:

- **RecoveryStrategies.js** is the recovery orchestrator. It has a fixed table of five recovery
  strategies (mail connection, network connectivity, data integrity, permissions, state
  consistency), each with an attempt budget and a cooldown. A busy flag keeps one recovery in
  flight at a time. Requests that arrive meanwhile wait in a keyed queue, and the queue is
  drained when the running recovery ends. A bounded log of recovery attempts feeds the
  statistics: total attempts, success rate, and the five most common issues.
- **ErrorRecoveryManager.js** is the JavaScript retry manager. It sorts error codes into
  retryable and not retryable. It schedules up to three retries per key with delays of
  2, 4 and 8 seconds. Other failures go into a ledger, and the user is told why. The ledger
  can be re-run on request.
- **AppleScriptBridge.swift** is the native module that runs the scripts. On each pass it
  makes sure Mail is running (relaunching it if not), compiles the script and runs it. On an
  error it either rejects, relaunches Mail and runs again with the same retry count, or backs
  off and runs again with the count raised, up to three retries. Scripts whose retries run
  out are kept for a later re-run. Results are converted from Apple event descriptors to
  plain values.

Modules:

- `Common`: options, the plain value type, powers of two.
- `Keys`: the `${name}_${Date.now()}` keys both JavaScript files build. It includes their
  parser, a round trip and injectivity.
- `RecoveryLog`: the log and the statistics.
- `Recovery`: the orchestrator, including the class `Recovery.RecoveryStrategies`.
- `ErrorRecovery`: the retry manager, including the class `ErrorRecovery.ErrorRecoveryManager`.
- `Descriptors`: descriptor serialisation.
- `Bridge`: the Swift retry policy, including the class `Bridge.AppleScriptBridge`.

How things outside the model appear:

- The clock (`Date.now()`), the strategies' check and recover actions, `operation.execute`, and
  everything the environment does to a Swift pass become inputs:
  - Swift pass inputs are whether Mail is running, whether a launch succeeds, whether the
    script compiles, and what it returns.
- Timers are recorded as the delay they would wait.
- `initiateRecovery` suspends once, at `await strategy.check(context)`. It is modelled as two
  methods split at that point, `InitiateRecovery` and `ResumeRecovery`. In between, further
  requests find the busy flag set and are queued.

## Behaviour of the code that the model keeps

- Cooldown is tested against one stamp shared by all strategies:
  `recoveryState.lastRecoveryAttempt`. That stamp is written (RecoveryStrategies.js:64) just
  before it is tested (:72). So a call ends in the cooldown branch unless the clock moves by a
  whole cooldown between the two readings (`StampThenCooldownQuirk`, `RecoveryNeedsClockJump`).
  A stamp of 0 is falsy in JavaScript and counts as no stamp.
- `queueRecovery` reads the clock twice: once for the key (RecoveryStrategies.js:91) and once
  for the entry's `timestamp` (:95). The model takes both readings as separate inputs. The key
  names the entry's type; its time may differ from the `timestamp` field.
- The Swift backoff before the re-run that follows a failure at retry count k is
  `pow(2, k + 1)` seconds. From a fresh call that gives 2, 4 and 8 seconds.
- The most-common-issues list keeps, among equal counts, the order in which types were first
  logged. This is because JavaScript's sort is stable and object keys keep insertion order (except integer-like keys;
  see the `RecoveryLog.MostCommonIssues` line under "## Left out").
- No strategy's `maxAttempts` is ever consulted, and `failedAttempts` is never updated.
- In ErrorRecoveryManager.js the retry key embeds `Date.now()`. A retry that fails at a later
  instant starts again at count 1 under a new key. So the cap of three is reached only by
  failures that share one millisecond (`LaterFailureRestartsCount`).
- In `recoverFailedOperations`, a failure that is not retried goes through `handleError`,
  which pushes its record and then awaits the user notification. If that notification
  rejects, the rejection leaves the loop through its `catch` block. The remaining snapshot
  entries are then never re-run. They are lost, because the ledger was emptied before the
  loop (`RejectedNotificationDropsRest`, `TwoDeniedRerunsKeepOne`).

## Model

| member | source | states |
|---|---|---|
| `Keys.ParseTimestampKeyRoundTrip` | RecoveryStrategies.js:91 | a `${name}_${time}` key parses back to its name and time |
| `Keys.TimestampKeyInjective` | ErrorRecoveryManager.js:39 | two keys are equal only when their names and times are equal |
| `RecoveryLog.AppendToLog` | RecoveryStrategies.js:363-375 | the new entry is last; the log holds min(old length + 1, 100) entries, the newest ones of old log plus entry; below 100 nothing is dropped |
| `RecoveryLog.AppendAllKeepsNewest` | RecoveryStrategies.js:363-375 | logging a series of entries one by one keeps exactly the newest 100 of old log plus series, in order |
| `RecoveryLog.LogOverflowKeepsNewest` | RecoveryStrategies.js:363-375 | logging 150 or more entries into an empty log leaves the last 100, oldest first |
| `RecoveryLog.Successes` | RecoveryStrategies.js:388 | the success count is at most the log length, and equals it exactly when every entry succeeded |
| `RecoveryLog.SuccessRate` | RecoveryStrategies.js:386-390 | the rate lies in [0, 100], is 100 for an empty log, and is 100 exactly when every attempt succeeded |
| `RecoveryLog.ThreeOfFourSucceeded` | RecoveryStrategies.js:386-390 | three successes and one failure, the failure in any of the four positions, give a rate of 75 |
| `RecoveryLog.Occurrences` | RecoveryStrategies.js:394-397 | a type's tally is at most the log length, and positive exactly when the type was logged |
| `RecoveryLog.IssueTypes` | RecoveryStrategies.js:393-398 | the tallied types are distinct and are exactly the logged types |
| `RecoveryLog.TallyFacts` | RecoveryStrategies.js:393-398 | the tally built by `Tally` (the `reduce` into a plain object) has one pair per logged type; each count is that type's number of log entries |
| `RecoveryLog.Insert` | RecoveryStrategies.js:399 | inserting into a list sorted by descending count keeps it sorted and duplicate-free and adds exactly the new pair |
| `RecoveryLog.SortByCount` | RecoveryStrategies.js:399 | the result is a reordering of the tally, sorted by descending count, without duplicates |
| `RecoveryLog.MostCommonIssues` | RecoveryStrategies.js:392-401 | `slice(0, 5)` of the count-sorted tally, written `FirstFew`: at most five pairs (what they are is stated by `MostCommonIssuesCorrect`) |
| `RecoveryLog.MostCommonIssuesCorrect` | RecoveryStrategies.js:392-401 | at most five distinct types with their true counts, in descending order; every type left out occurs no more often than the last one shown; the length is min(5, number of types) |
| `Recovery.FindStrategy` | RecoveryStrategies.js:20-51 | exactly the five named types have a strategy; each has its own name, a cooldown of at least 30 s and a budget of at least 2 |
| `Recovery.BeforeCheck` | RecoveryStrategies.js:62-75 | a non-busy call before the check ends unknown, in cooldown, or awaiting the check; unknown exactly for a type outside the table |
| `Recovery.AfterCheck` | RecoveryStrategies.js:78-81 | after the check the call ends with no recovery needed exactly when the check says so, otherwise recovered or failed |
| `Recovery.Cycle` | RecoveryStrategies.js:62-86 | a complete call on an idle orchestrator is never queued and never left suspended |
| `Recovery.IsInCooldown` | RecoveryStrategies.js:327-333 | an unset stamp, or a stamp of 0, never puts a strategy in cooldown; with a set stamp the strategy is in cooldown exactly while less than its cooldown period has passed since it |
| `Recovery.RecoveryRunsOnlyAfterCheck` | RecoveryStrategies.js:55-87 | the recovery action runs if and only if the type is known, the cooldown test fails and the check asks for recovery |
| `Recovery.UnknownTypeThrows` | RecoveryStrategies.js:66-69 | an unknown type throws before any check or recovery |
| `Recovery.StampThenCooldownQuirk` | RecoveryStrategies.js:63-75 | with a non-zero stamp and a clock that moves less than the shortest cooldown, every call ends in the cooldown branch |
| `Recovery.RecoveryNeedsClockJump` | RecoveryStrategies.js:327-333 | whenever recovery runs, the cooldown clock is a full cooldown past the stamp just written |
| `Recovery.Enqueue` | RecoveryStrategies.js:90-97 | the new entry, with the key from the first clock reading and the timestamp from the second, is in the queue; the queue grows by at most one |
| `Recovery.EnqueueSpec` | RecoveryStrategies.js:90-97 | queueing keeps keys unique and each key naming its entry's type; the entry is present; other entries keep their place; the queue grows exactly when the key is new |
| `Recovery.SameInstantOverwrites` | RecoveryStrategies.js:90-97 | two requests of one type whose keys read the same millisecond leave only the second |
| `Recovery.DistinctRequestsBothQueued` | RecoveryStrategies.js:90-97 | requests that differ in type or in the key's instant are both kept |
| `Recovery.RecoveryStrategies.constructor` | RecoveryStrategies.js:7-18 | empty log and queue, flag clear, no stamp, no failed attempts |
| `Recovery.RecoveryStrategies.QueueRecovery` | RecoveryStrategies.js:90-97 | the queue becomes the keyed insertion of the request, with key and timestamp from two clock readings; the queue stays well formed |
| `Recovery.RecoveryStrategies.InitiateRecovery` | RecoveryStrategies.js:55-87 | a busy call only queues (two clock readings); otherwise the call stamps the clock and ends as unknown, in cooldown (second reading), or suspended at the check; the flag is set only while suspended and the queue is empty when idle |
| `Recovery.RecoveryStrategies.ResumeRecovery` | RecoveryStrategies.js:78-87 | the recovery outcome follows the check; the flag clears; each queued request is run in insertion order; the stamp is that of the last one |
| `Recovery.RecoveryStrategies.ProcessRecoveryQueue` | RecoveryStrategies.js:99-104 | every queued entry is removed and re-dispatched in insertion order; the queue ends empty |
| `Recovery.RecoveryStrategies.LogRecoveryAttempt` | RecoveryStrategies.js:363-375 | the log becomes the bounded append of the new entry; the orchestrator stays valid |
| `Recovery.RecoveryStrategies.GetRecoveryStats` | RecoveryStrategies.js:377-384 | total is the log length; the rate lies in [0, 100] (100 for an empty log); the issues satisfy the top-five property; the stamp is the current one |
| `ErrorRecovery.RetryDelay` | ErrorRecoveryManager.js:43 | counts 1, 2 and 3 wait 2000, 4000 and 8000 ms |
| `ErrorRecovery.RetryDelayNonDecreasing` | ErrorRecoveryManager.js:43 | the delay never shrinks as the count grows |
| `ErrorRecovery.ShouldRetry` | ErrorRecoveryManager.js:27-36 | an error without a code, or with "access_denied", is never retried; every retryable code except "temporary_failure" has a message of its own |
| `ErrorRecovery.GetErrorMessage` | ErrorRecoveryManager.js:86-95 | the fallback text is given exactly to codes outside the four with a message of their own |
| `ErrorRecovery.ScheduleRetryStep` | ErrorRecoveryManager.js:38-59 | keeps every ledger record, adds at most one, and adds no pending key but the new time-stamped one |
| `ErrorRecovery.HandleErrorStep` | ErrorRecoveryManager.js:9-25 | keeps every ledger record and adds at most one; a non-retryable error adds exactly one and leaves pending retries alone; the message it asks `notifyUser` to show (`Notification`, ErrorRecoveryManager.js:73-78) is stated by `NotifiedMessages` |
| `ErrorRecovery.ExecuteRetryStep` | ErrorRecoveryManager.js:61-71 | keeps every ledger record and adds at most one; the only new pending key is the retried operation's key for the current time |
| `ErrorRecovery.RerunAll` | ErrorRecoveryManager.js:101-111 | the re-run keeps every earlier record and adds at most one per snapshot entry |
| `ErrorRecovery.NotifiedMessages` | ErrorRecoveryManager.js:9-25 | a notified (non-retryable) error shows the access-denied text exactly for code access_denied, otherwise the fallback; the retry-promising texts are never shown |
| `ErrorRecovery.ScheduleRetryBudget` | ErrorRecoveryManager.js:38-59 | below the cap the key holds the raised count and its 2^count s delay and the ledger is unchanged; at the cap one "Max retries exceeded" record is added and no retry stored; other keys untouched |
| `ErrorRecovery.FreshKeyFirstRetry` | ErrorRecoveryManager.js:38-50 | a retry under a key not yet pending has count 1 and a 2 s delay |
| `ErrorRecovery.NonRetryableRecordedOnce` | ErrorRecoveryManager.js:14-20 | a non-retryable error appends exactly one record and schedules nothing |
| `ErrorRecovery.HandleErrorKeepsPendingValid` | ErrorRecoveryManager.js:9-59 | after handling an error every pending retry still has a count in 1..3 and the matching delay |
| `ErrorRecovery.ExecuteRetryOutcomes` | ErrorRecoveryManager.js:61-71 | an absent key changes nothing; a success removes the key; a failure keeps the key and goes through error handling |
| `ErrorRecovery.LaterFailureRestartsCount` | ErrorRecoveryManager.js:38-71 | a retry failing at a new instant is rescheduled at count 1 under a new key; the old key keeps its entry; no cap record is written |
| `ErrorRecovery.RerunRecordsSnapshotOperations` | ErrorRecoveryManager.js:97-115 | every record a re-run adds is about an operation of the snapshot, and pending retries stay well formed |
| `ErrorRecovery.RerunAfterStop` | ErrorRecoveryManager.js:105-111 | once a re-run has ended the loop, later snapshot entries change nothing |
| `ErrorRecovery.RejectedNotificationDropsRest` | ErrorRecoveryManager.js:23 | a non-retryable failure whose notification rejects is the last entry re-run; the rest of the snapshot is dropped |
| `ErrorRecovery.TwoDeniedRerunsKeepOne` | ErrorRecoveryManager.js:101-111 | two access-denied re-runs with rejecting notifications leave only the first one's record |
| `ErrorRecovery.RerunAllSucceeded` | ErrorRecoveryManager.js:105-111 | when every re-run succeeds nothing is recorded or scheduled |
| `ErrorRecovery.ErrorRecoveryManager.constructor` | ErrorRecoveryManager.js:3-7 | no pending retries, an empty ledger, not recovering |
| `ErrorRecovery.ErrorRecoveryManager.ScheduleRetry` | ErrorRecoveryManager.js:38-59 | the state becomes the scheduling step's result; pending retries stay well formed |
| `ErrorRecovery.ErrorRecoveryManager.HandleError` | ErrorRecoveryManager.js:9-25 | the state becomes the handling step's result; a notification is asked for exactly for non-retryable errors, with their message; the call rejects exactly when that notification does |
| `ErrorRecovery.ErrorRecoveryManager.ExecuteRetry` | ErrorRecoveryManager.js:61-71 | the state becomes the retry step's result; a notification only for a failed retry with a non-retryable error; it rejects exactly when that notification does |
| `ErrorRecovery.ErrorRecoveryManager.BeginRecovery` | ErrorRecoveryManager.js:97-103 | while recovering it changes nothing; otherwise the ledger moves into the snapshot still to re-run and the flag is set exactly when that snapshot is not empty |
| `ErrorRecovery.ErrorRecoveryManager.RerunNext` | ErrorRecoveryManager.js:105-114 | the next snapshot entry is re-run through the loop body; a rejection drops the rest; the flag clears when nothing is left |
| `ErrorRecovery.ErrorRecoveryManager.RecoverFailedOperations` | ErrorRecoveryManager.js:97-115 | while recovering it is a no-op; otherwise the ledger is emptied and the snapshot is re-run in order up to the first rejection, which the call rejects with; the flag is clear afterwards |
| `ErrorRecovery.ErrorRecoveryManager.Cleanup` | ErrorRecoveryManager.js:117-122 | no pending retries remain; the manager stays valid |
| `Descriptors.Serialize` | AppleScriptBridge.swift:147-175 | text and other types give strings, integers ints, booleans bools, lists arrays no longer than the list, records dictionaries |
| `Descriptors.SerializeItems` | AppleScriptBridge.swift:155-162 | the array built so far has no more elements than the items visited |
| `Descriptors.ListKeepsPresentItemsInOrder` | AppleScriptBridge.swift:155-162 | a list gives the serialisations of its non-nil items, in index order |
| `Descriptors.RecordLastFieldWins` | AppleScriptBridge.swift:163-171 | a record's dictionary holds exactly the keywords of its complete fields, each bound to the last such field's value |
| `Descriptors.SerializeFields` | AppleScriptBridge.swift:163-171 | every key of the dictionary is the keyword of a visited field |
| `Descriptors.SerializeAsWritten` | AppleScriptBridge.swift:147-175 | whenever the code as written finishes it gives the corrected result; an empty list or record never finishes |
| `Descriptors.EmptyListTraps` | AppleScriptBridge.swift:155-162 | as written an empty list, even nested, traps, where an empty array is meant |
| `Descriptors.AsWrittenAgrees` | AppleScriptBridge.swift:147-175 | without empty lists or records the code as written gives the corrected result |
| `Bridge.RetryDelay` | AppleScriptBridge.swift:93-96 | with backoff, counts 0, 1 and 2 wait 2, 4 and 8 s; without it, always 2 s |
| `Bridge.RetryDelayNonDecreasing` | AppleScriptBridge.swift:10-12 | the delay never shrinks as the retry count grows |
| `Bridge.HandleMailAppNotRunning` | AppleScriptBridge.swift:108-124 | relaunch exactly when the launch succeeds, otherwise reject with mail_not_running |
| `Bridge.HandleExecutionError` | AppleScriptBridge.swift:73-91 | -1728 rejects with access_denied; only other numbers than -1728 and -600 retry or run out; a retry needs a count below 3, running out a count of 3 or more |
| `Bridge.Decide` | AppleScriptBridge.swift:32-71 | only an executed script's error retries or runs out; a pass resolves exactly when Mail runs, the script compiles and it returns a result; a settled pass never stays pending |
| `Bridge.Schedule` | AppleScriptBridge.swift:94-98 | the i-th of n consecutive retry delays from count k is the delay for count k + i |
| `Bridge.RetryRun` | AppleScriptBridge.swift:32-106 | retries and relaunches together take no more than the passes given; a call still pending has logged nothing |
| `Bridge.AccessDeniedNeverRetries` | AppleScriptBridge.swift:77-79 | error -1728 rejects with access_denied at once, without retry or log entry |
| `Bridge.CompileFailureNeverRetries` | AppleScriptBridge.swift:41-44 | a script that does not compile rejects with compilation_failed, without retry or log entry |
| `Bridge.RelaunchesNeverSettle` | AppleScriptBridge.swift:108-124 | a run of passes that all relaunch re-enters at the same count each time: it never settles, waits no retry delay, logs nothing, and counts one relaunch per pass |
| `Bridge.RelaunchKeepsRetryCount` | AppleScriptBridge.swift:108-124 | Mail not running or error -600: a failed launch rejects with mail_not_running; a successful one re-runs with the same count and waits no retry delay |
| `Bridge.RetryBudget` | AppleScriptBridge.swift:83-106 | delays are those of consecutive counts from the start; no retry at count 3 or more; a run is logged exactly when it rejects with execution_failed, at a count of at least 3 |
| `Bridge.ExhaustedFromFresh` | AppleScriptBridge.swift:83-88 | a fresh call that runs out has waited 2, 4 and 8 s and is logged with count 3 |
| `Bridge.ResolvedFromSomePass` | AppleScriptBridge.swift:60-70 | a resolved value is the serialisation of what the script returned on some pass |
| `Bridge.TwoFailuresThenSuccess` | AppleScriptBridge.swift:83-106 | two transient failures then a result: delays 2 and 4 s, resolved with the result, nothing logged |
| `Bridge.ReloggedFromSnapshot` | AppleScriptBridge.swift:179-195 | a re-run logs at most one entry per snapshot script, each naming a snapshot script with count 3 |
| `Bridge.SettledAll` | AppleScriptBridge.swift:186-197 | every re-run has reported exactly when none is still pending, and then the results are the outcomes in order |
| `Bridge.AppleScriptBridge.constructor` | AppleScriptBridge.swift:25 | no failed operations |
| `Bridge.AppleScriptBridge.Execute` | AppleScriptBridge.swift:27-30 | the call settles as a run from count 0; exactly one entry is logged when its retries run out |
| `Bridge.CountResolved` | AppleScriptBridge.swift:198 | the number of resolved re-runs; it equals the number of re-runs exactly when all of them resolved |
| `Bridge.AppleScriptBridge.RetryFailedOperations` | AppleScriptBridge.swift:179-204 | the snapshot is re-run; a report comes exactly when every re-run settled; total is the snapshot size; successful counts resolved re-runs; failed is the rest; the list holds only what the re-runs logged |

## Findings

| source | as written | input that shows it | evidently intended | confidence | as-written member | corrected member |
|---|---|---|---|---|---|---|
| AppleScriptBridge.swift:157 | `for i in 1...descriptor.numberOfItems` over a list or record descriptor | a script whose result is an empty list `{}` (numberOfItems = 0): the closed range `1...0` traps | an empty array or dictionary | high, not executed | `Descriptors.EmptyListTraps` | `Descriptors.ListKeepsPresentItemsInOrder` |

`Descriptors.SerializeAsWritten` models the code as written. `None` stands for the trap.
`Descriptors.Serialize` is the corrected conversion that the bridge model uses.

## Left out

- The bodies of the strategies' check and recover actions (RecoveryStrategies.js:107-324) and
  the helpers `verifyMailFolders` and `restoreProcessingState` (:335-360). They call
  AsyncStorage, NetInfo, Platform and AppleScript. Their answers are inputs to
  `ResumeRecovery` and to the drain.
- `executeRecoveryStrategy`, called at RecoveryStrategies.js:80, is not defined in
  RecoveryStrategies.js; it is not part of this model. Its success or failure is an input.
  As written the call would throw, which is the failure case.
- Recovery.RecoveryStrategies.ResumeRecovery: the drain in the `finally` block is started
  without `await`, and each re-dispatched call starts its own drain. Such drains can
  interleave on the same `Map` iterator. The model runs the queued requests one after
  another, in insertion order, each to completion.
- Recovery.RecoveryStrategies.LogRecoveryAttempt: nothing in RecoveryStrategies.js calls
  `logRecoveryAttempt`, so the orchestrator's methods leave the log unchanged. Its `error`
  field is given as the message string.
- RecoveryLog.SortByCount: the order among equal counts (first-logged first, from the stable
  sort) is not stated; only descending order, permutation and distinctness are.
- RecoveryLog.MostCommonIssues: JavaScript lists integer-like object keys (such as "42")
  before other keys, in numeric order. The model keeps every type in first-logged order.
- RecoveryLog.Tally: the tally is a plain object (RecoveryStrategies.js:394-397), so a type
  named after an inherited property misbehaves. For "constructor" the count starts from a
  function and becomes a string. A "__proto__" entry is not kept at all. The model counts
  every type alike.
- Recovery.FindStrategy: `this.strategies[errorType]` (RecoveryStrategies.js:66) also finds
  inherited properties. For a type such as "constructor" or "toString" the lookup is truthy,
  so the throw at :68 does not happen. `isInCooldown` then compares against an undefined
  cooldown and is false. The call fails with a TypeError at `strategy.check` (:78). The
  model treats such types like any other unknown type (`NoStrategyFound`).
- Console logging (RecoveryStrategies.js:57, :73; ErrorRecoveryManager.js:10) is left out.
- The user notification (ErrorRecoveryManager.js:73-84) is kept as the text it asks to show,
  plus an input saying whether scheduling it completes (`notified`). `Notifications` is
  neither imported nor defined in ErrorRecoveryManager.js and is not part of this model; if
  it is absent, every such call rejects.
- ErrorRecovery.ErrorRecoveryManager.RecoverFailedOperations: this method runs one
  recovery with nothing interleaved. Interleavings with other calls are expressed through
  `BeginRecovery` and `RerunNext`, which split the call at its awaits. The awaits inside
  `handleError` itself are not split further.
- ErrorRecovery.ScheduleRetryStep: the retry key takes `Date.now()` (ErrorRecoveryManager.js:39)
  and the "Max retries exceeded" record takes its own `new Date()` (:56). The model uses one
  reading `now` for both, so it does not capture a record stamped a millisecond after its key.
  No stated property depends on the two readings being equal.
- The `setTimeout` timers (ErrorRecoveryManager.js:49) are kept as their delay, and
  `clearTimeout` in `cleanup` only as the emptied map. A timer firing is a call of
  `ExecuteRetry`.
- ErrorRecovery.GetErrorMessage: a code that names a property every JavaScript object
  inherits (such as "constructor") would look up that property instead of falling back. The
  model gives the fallback text.
- The 30 s timeout watchdog (AppleScriptBridge.swift:47-58) is left out. It can reject a call
  that later resolves or retries.
- The `DispatchQueue` waits (:98, :113) are kept as recorded delays and relaunch counts.
- The `DispatchGroup` join (:183-204) is kept as "a report once every re-run has settled".
- The `NSAlert` permission dialog (:126-140) is left out; only its rejection is modelled.
- `serializeAppleEventDescriptor` never throws, so the "serialization_failed" rejection
  (AppleScriptBridge.swift:67-69) is unreachable and not modelled.
- Record keywords are modelled as optional strings. `keywordForDescriptor` returns a
  four-character code.
- Integer results are `int32`, as `int32Value` returns. Floating-point delays
  (`pow(Double, Double)`, :94-96) are whole seconds, exact for these powers of two.
- The success rate is an exact `real`, not a floating-point percentage.
