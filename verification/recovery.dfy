/** The recovery orchestrator of RecoveryStrategies.js: a fixed table of five strategies, a
    busy flag that makes concurrent requests queue up, a cooldown test, an insertion-ordered
    queue drained by re-dispatching its entries, and the bounded recovery log.

    `initiateRecovery` is asynchronous and suspends once, at `await strategy.check(context)`.
    The model splits it there: `InitiateRecovery` runs up to the suspension point, and
    `ResumeRecovery` runs from it to the end (the recovery action, the `finally` block and
    the drain of the queue). Between the two, further requests find the busy flag set and
    are queued. The clock, the strategy's check and its recovery action are inputs. */
module Recovery {
  import opened Common
  import opened Keys
  import opened RecoveryLog

  /** A strategy table entry: its name, its attempt budget and its cooldown in milliseconds.
      The check and recover actions are external and appear as inputs. */
  datatype Strategy = Strategy(name: string, maxAttempts: nat, cooldownPeriod: nat)

  const StrategyNames: set<string> :=
    {"mailConnection", "networkConnectivity", "dataIntegrity", "permissionIssues", "stateConsistency"}

  /** The shortest cooldown of the table (`stateConsistency`, 30 seconds). */
  const ShortestCooldown: nat := 30 * 1000

  /** `this.strategies[errorType]` */
  function FindStrategy(errorType: string): (r: Option<Strategy>)
    ensures r.Some? <==> errorType in StrategyNames
    ensures r.Some? ==> r.value.name == errorType
    ensures r.Some? ==> r.value.cooldownPeriod >= ShortestCooldown && r.value.maxAttempts >= 2
  {
    if errorType == "mailConnection" then Some(Strategy(errorType, 5, 5 * 60 * 1000))
    else if errorType == "networkConnectivity" then Some(Strategy(errorType, 3, 2 * 60 * 1000))
    else if errorType == "dataIntegrity" then Some(Strategy(errorType, 2, 1 * 60 * 1000))
    else if errorType == "permissionIssues" then Some(Strategy(errorType, 3, 10 * 60 * 1000))
    else if errorType == "stateConsistency" then Some(Strategy(errorType, 2, 30 * 1000))
    else None
  }

  /** `isInCooldown`: the single, shared `lastRecoveryAttempt` stamp is set (a stamp of 0
      is falsy in JavaScript and counts as unset) and less than the strategy's cooldown has
      passed since it. */
  predicate IsInCooldown(strategy: Strategy, lastRecoveryAttempt: Option<nat>, now: nat): (b: bool)
    ensures lastRecoveryAttempt.None? || lastRecoveryAttempt == Some(0) ==> !b
    ensures lastRecoveryAttempt.Some? && lastRecoveryAttempt.value != 0 ==>
      (b <==> now < lastRecoveryAttempt.value + strategy.cooldownPeriod)
  {
    && lastRecoveryAttempt.Some?
    && lastRecoveryAttempt.value != 0
    && now - lastRecoveryAttempt.value < strategy.cooldownPeriod
  }

  /** How a call of `initiateRecovery` ends (or, for `AwaitingCheck`, where it suspends). */
  datatype Outcome =
    | Queued             // busy: the request was put in the queue
    | NoStrategyFound    // "No recovery strategy found for ..." was thrown
    | InCooldown         // returned early inside the cooldown period
    | AwaitingCheck      // suspended at `await strategy.check(context)`
    | NoRecoveryNeeded   // the check reported nothing to recover
    | Recovered          // the recovery action completed
    | RecoveryFailed     // the recovery action threw

  /** What a non-busy call does up to its suspension point, with the stamp it writes into
      `lastRecoveryAttempt` and the clock `isInCooldown` reads. */
  function BeforeCheck(errorType: string, stamp: nat, now: nat): (r: Outcome)
    ensures r in {NoStrategyFound, InCooldown, AwaitingCheck}
    ensures r == NoStrategyFound <==> errorType !in StrategyNames
  {
    match FindStrategy(errorType)
    case None => NoStrategyFound
    case Some(strategy) => if IsInCooldown(strategy, Some(stamp), now) then InCooldown else AwaitingCheck
  }

  /** What the call does once the check has answered. */
  function AfterCheck(needsRecovery: bool, recoverSucceeded: bool): (r: Outcome)
    ensures r in {NoRecoveryNeeded, Recovered, RecoveryFailed}
    ensures r == NoRecoveryNeeded <==> !needsRecovery
  {
    if !needsRecovery then NoRecoveryNeeded
    else if recoverSucceeded then Recovered
    else RecoveryFailed
  }

  /** The inputs one complete, non-busy call consumes: the two clock readings, the check's
      answer and the recovery action's result. */
  datatype CycleInputs = CycleInputs(stamp: nat, cooldownNow: nat, needsRecovery: bool, recoverSucceeded: bool)

  /** One complete call of `initiateRecovery` on an idle orchestrator. */
  function Cycle(errorType: string, o: CycleInputs): (r: Outcome)
    ensures r != Queued && r != AwaitingCheck
  {
    var before := BeforeCheck(errorType, o.stamp, o.cooldownNow);
    if before == AwaitingCheck then AfterCheck(o.needsRecovery, o.recoverSucceeded) else before
  }

  /** The recovery action runs exactly when the strategy exists, the cooldown test fails,
      and the check asks for recovery. */
  lemma RecoveryRunsOnlyAfterCheck(errorType: string, o: CycleInputs)
    ensures Cycle(errorType, o) in {Recovered, RecoveryFailed} <==>
      && errorType in StrategyNames
      && !IsInCooldown(FindStrategy(errorType).value, Some(o.stamp), o.cooldownNow)
      && o.needsRecovery
  {
  }

  /** An unknown error type throws before any check or recovery. */
  lemma UnknownTypeThrows(errorType: string, o: CycleInputs)
    requires errorType !in StrategyNames
    ensures Cycle(errorType, o) == NoStrategyFound
  {
  }

  /** The stamp is written just before the cooldown test reads it, so unless the clock
      advances by a whole cooldown between the two readings, the call always ends in the
      cooldown branch and the recovery action is never reached. */
  lemma StampThenCooldownQuirk(errorType: string, o: CycleInputs)
    requires errorType in StrategyNames
    requires o.stamp != 0 && o.cooldownNow < o.stamp + ShortestCooldown
    ensures Cycle(errorType, o) == InCooldown
  {
  }

  /** Equivalently: whenever the recovery action runs, the clock has advanced by at least the
      strategy's cooldown between the stamp and the cooldown test. */
  lemma RecoveryNeedsClockJump(errorType: string, o: CycleInputs)
    requires o.stamp != 0
    requires Cycle(errorType, o) in {Recovered, RecoveryFailed}
    ensures o.cooldownNow >= o.stamp + FindStrategy(errorType).value.cooldownPeriod
  {
  }

  /** A queued request, `recoveryQueue.set(key, {errorType, context, timestamp})`. */
  datatype QueueEntry = QueueEntry(key: string, errorType: string, context: Value, timestamp: nat)

  predicate UniqueKeys(q: seq<QueueEntry>) {
    forall i, j :: 0 <= i < j < |q| ==> q[i].key != q[j].key
  }

  /** Every entry sits under a `${errorType}_${time}` key naming its own type. The time in
      the key is a clock reading of its own, taken before the one in `timestamp`. */
  predicate KeysNameTypes(q: seq<QueueEntry>) {
    forall e :: e in q ==> ParseTimestampKey(e.key).Some? && ParseTimestampKey(e.key).value.0 == e.errorType
  }

  /** Position of `key` in the queue, if present. */
  function KeyIndex(q: seq<QueueEntry>, key: string): (r: Option<nat>)
    ensures r.Some? ==> r.value < |q| && q[r.value].key == key
    ensures r.Some? ==> forall j :: 0 <= j < r.value ==> q[j].key != key
    ensures r.None? ==> forall i :: 0 <= i < |q| ==> q[i].key != key
  {
    if q == [] then None
    else if q[0].key == key then Some(0)
    else match KeyIndex(q[1..], key)
      case None => None
      case Some(i) => Some(i + 1)
  }

  /** The entry `queueRecovery` stores: the key takes the first clock reading `keyNow`, the
      `timestamp` field the second one, `stampNow`. */
  function NewEntry(errorType: string, context: Value, keyNow: nat, stampNow: nat): QueueEntry {
    QueueEntry(TimestampKey(errorType, keyNow), errorType, context, stampNow)
  }

  /** `queueRecovery`: `Map.set` under the key `${errorType}_${keyNow}`; an existing key keeps
      its position and takes the new value, a new key goes last. */
  function Enqueue(q: seq<QueueEntry>, errorType: string, context: Value, keyNow: nat, stampNow: nat): (r: seq<QueueEntry>)
    ensures NewEntry(errorType, context, keyNow, stampNow) in r
    ensures |q| <= |r| <= |q| + 1
  {
    var e := NewEntry(errorType, context, keyNow, stampNow);
    match KeyIndex(q, e.key)
    case Some(i) => assert q[i := e][i] == e; q[i := e]
    case None => q + [e]
  }

  /** Keys stay unique and keep naming their entries' types; the new entry is present; no
      other entry changes or moves; the queue grows exactly when the key is new. */
  lemma EnqueueSpec(q: seq<QueueEntry>, errorType: string, context: Value, keyNow: nat, stampNow: nat)
    ensures var e := NewEntry(errorType, context, keyNow, stampNow);
      var r := Enqueue(q, errorType, context, keyNow, stampNow);
      && (UniqueKeys(q) ==> UniqueKeys(r))
      && (KeysNameTypes(q) ==> KeysNameTypes(r))
      && e in r
      && |r| == (if exists i :: 0 <= i < |q| && q[i].key == e.key then |q| else |q| + 1)
      && (forall i :: 0 <= i < |q| && q[i].key != e.key ==> r[i] == q[i])
  {
    if UniqueKeys(q) {
      EnqueueKeepsUnique(q, errorType, context, keyNow, stampNow);
    }
    if KeysNameTypes(q) {
      EnqueueKeepsNaming(q, errorType, context, keyNow, stampNow);
    }
    EnqueueShape(q, errorType, context, keyNow, stampNow);
  }

  lemma EnqueueKeepsUnique(q: seq<QueueEntry>, errorType: string, context: Value, keyNow: nat, stampNow: nat)
    requires UniqueKeys(q)
    ensures UniqueKeys(Enqueue(q, errorType, context, keyNow, stampNow))
  {
    var e := NewEntry(errorType, context, keyNow, stampNow);
    var r := Enqueue(q, errorType, context, keyNow, stampNow);
    match KeyIndex(q, e.key)
    case Some(k) =>
      assert r == q[k := e];
      forall i, j | 0 <= i < j < |r| ensures r[i].key != r[j].key {
        if i != k && j != k {
          assert r[i] == q[i] && r[j] == q[j];
        } else if i == k {
          assert r[j] == q[j];
        } else {
          assert r[i] == q[i];
        }
      }
    case None =>
      assert r == q + [e];
      forall i, j | 0 <= i < j < |r| ensures r[i].key != r[j].key {
        if j < |q| {
          assert r[i] == q[i] && r[j] == q[j];
        } else {
          assert r[i] == q[i];
        }
      }
  }

  lemma EnqueueKeepsNaming(q: seq<QueueEntry>, errorType: string, context: Value, keyNow: nat, stampNow: nat)
    requires KeysNameTypes(q)
    ensures KeysNameTypes(Enqueue(q, errorType, context, keyNow, stampNow))
  {
    var e := NewEntry(errorType, context, keyNow, stampNow);
    var r := Enqueue(q, errorType, context, keyNow, stampNow);
    ParseTimestampKeyRoundTrip(errorType, keyNow);
    forall x | x in r ensures ParseTimestampKey(x.key).Some? && ParseTimestampKey(x.key).value.0 == x.errorType {
      match KeyIndex(q, e.key)
      case Some(k) =>
        assert r == q[k := e];
        var m :| 0 <= m < |r| && r[m] == x;
        if m != k { assert x == q[m]; }
      case None =>
        assert r == q + [e];
        if x != e { assert x in q; }
    }
  }

  lemma EnqueueShape(q: seq<QueueEntry>, errorType: string, context: Value, keyNow: nat, stampNow: nat)
    ensures var e := NewEntry(errorType, context, keyNow, stampNow);
      var r := Enqueue(q, errorType, context, keyNow, stampNow);
      && |r| == (if exists i :: 0 <= i < |q| && q[i].key == e.key then |q| else |q| + 1)
      && (forall i :: 0 <= i < |q| && q[i].key != e.key ==> r[i] == q[i])
  {
    var e := NewEntry(errorType, context, keyNow, stampNow);
    var r := Enqueue(q, errorType, context, keyNow, stampNow);
    match KeyIndex(q, e.key)
    case Some(k) =>
      assert r == q[k := e];
    case None =>
      assert r == q + [e];
      assert !exists i :: 0 <= i < |q| && q[i].key == e.key;
  }

  /** A second request of the same type whose key reads the same millisecond overwrites the
      first, whatever the second readings. */
  lemma SameInstantOverwrites(q: seq<QueueEntry>, errorType: string, c1: Value, c2: Value, now: nat, s1: nat, s2: nat)
    ensures Enqueue(Enqueue(q, errorType, c1, now, s1), errorType, c2, now, s2) == Enqueue(q, errorType, c2, now, s2)
  {
    var key := TimestampKey(errorType, now);
    var q1 := Enqueue(q, errorType, c1, now, s1);
    match KeyIndex(q, key)
    case Some(i) =>
      assert q1[i].key == key;
      assert KeyIndex(q1, key) == Some(i);
    case None =>
      assert q1[|q|].key == key;
  }

  /** Requests of different types, or whose keys read different instants, are both kept. */
  lemma DistinctRequestsBothQueued(q: seq<QueueEntry>, t1: string, c1: Value, n1: nat, m1: nat,
                                   t2: string, c2: Value, n2: nat, m2: nat)
    requires t1 != t2 || n1 != n2
    ensures NewEntry(t1, c1, n1, m1) in Enqueue(Enqueue(q, t1, c1, n1, m1), t2, c2, n2, m2)
    ensures NewEntry(t2, c2, n2, m2) in Enqueue(Enqueue(q, t1, c1, n1, m1), t2, c2, n2, m2)
  {
    var e1 := NewEntry(t1, c1, n1, m1);
    var q1 := Enqueue(q, t1, c1, n1, m1);
    assert e1.key != TimestampKey(t2, n2) by {
      if e1.key == TimestampKey(t2, n2) {
        TimestampKeyInjective(t1, n1, t2, n2);
      }
    }
    EnqueueSpec(q1, t2, c2, n2, m2);
    var i :| 0 <= i < |q1| && q1[i] == e1;
    assert Enqueue(q1, t2, c2, n2, m2)[i] == e1;
  }

  /** The recovery suspended at the check: what it will recover, with which context. */
  datatype Suspended = Suspended(errorType: string, context: Value)

  /** `getRecoveryStats()` */
  datatype RecoveryStats = RecoveryStats(
    totalAttempts: nat,
    successRate: real,
    mostCommonIssues: seq<(string, nat)>,
    lastRecoveryAttempt: Option<nat>)

  class RecoveryStrategies {
    var recoveryLog: seq<LogEntry>
    var inProgress: bool
    var lastRecoveryAttempt: Option<nat>
    var failedAttempts: nat
    var recoveryQueue: seq<QueueEntry>
    /** The call that holds the busy flag, suspended at its check (not a field of the
        source: it is the continuation the JavaScript runtime keeps). */
    var suspended: Option<Suspended>

    ghost predicate QueueWellFormed()
      reads this
    {
      UniqueKeys(recoveryQueue) && KeysNameTypes(recoveryQueue)
    }

    /** The busy flag is set exactly while a call is suspended at its check, and requests
        wait in the queue only while the flag is set. */
    ghost predicate Valid()
      reads this
    {
      && QueueWellFormed()
      && |recoveryLog| <= MaxLogSize
      && (inProgress <==> suspended.Some?)
      && (!inProgress ==> recoveryQueue == [])
    }

    constructor ()
      ensures Valid()
      ensures recoveryLog == [] && recoveryQueue == []
      ensures !inProgress && lastRecoveryAttempt == None && failedAttempts == 0
    {
      recoveryLog := [];
      inProgress := false;
      lastRecoveryAttempt := None;
      failedAttempts := 0;
      recoveryQueue := [];
      suspended := None;
    }

    /** `queueRecovery`, reading the clock at `keyNow` for the key and at `stampNow` for the
        entry's timestamp. */
    method QueueRecovery(errorType: string, context: Value, keyNow: nat, stampNow: nat)
      requires QueueWellFormed()
      modifies this`recoveryQueue
      ensures QueueWellFormed()
      ensures recoveryQueue == Enqueue(old(recoveryQueue), errorType, context, keyNow, stampNow)
    {
      var key := TimestampKey(errorType, keyNow);
      var entry := QueueEntry(key, errorType, context, stampNow);
      var index := KeyIndex(recoveryQueue, key);
      if index.Some? {
        recoveryQueue := recoveryQueue[index.value := entry];
      } else {
        recoveryQueue := recoveryQueue + [entry];
      }
      EnqueueSpec(old(recoveryQueue), errorType, context, keyNow, stampNow);
    }

    /** `initiateRecovery` up to its suspension point. A busy orchestrator only queues the
        request. Otherwise the call takes the flag, stamps `now`, and either throws for an
        unknown type, returns inside the cooldown, or suspends at the check; the first two
        leave through the `finally` block, which clears the flag and drains the queue
        (empty whenever the flag was clear). `now` is the call's first clock reading (the key of a
        queued request, or the stamp); `laterNow` its second (the queued entry's timestamp, or
        the clock `isInCooldown` reads). */
    method InitiateRecovery(errorType: string, context: Value, now: nat, laterNow: nat) returns (outcome: Outcome)
      requires Valid()
      modifies this
      ensures Valid()
      ensures recoveryLog == old(recoveryLog) && failedAttempts == old(failedAttempts)
      ensures old(inProgress) ==>
        && outcome == Queued
        && inProgress && suspended == old(suspended)
        && lastRecoveryAttempt == old(lastRecoveryAttempt)
        && recoveryQueue == Enqueue(old(recoveryQueue), errorType, context, now, laterNow)
      ensures !old(inProgress) ==>
        && outcome == BeforeCheck(errorType, now, laterNow)
        && lastRecoveryAttempt == Some(now)
        && recoveryQueue == []
        && (inProgress <==> outcome == AwaitingCheck)
        && suspended == (if outcome == AwaitingCheck then Some(Suspended(errorType, context)) else None)
    {
      if inProgress {
        QueueRecovery(errorType, context, now, laterNow);
        return Queued;
      }
      inProgress := true;
      lastRecoveryAttempt := Some(now);
      var strategy := FindStrategy(errorType);
      if strategy.None? {
        outcome := NoStrategyFound;
      } else if IsInCooldown(strategy.value, lastRecoveryAttempt, laterNow) {
        outcome := InCooldown;
      } else {
        suspended := Some(Suspended(errorType, context));
        return AwaitingCheck;
      }
      // finally
      inProgress := false;
      var drained := ProcessRecoveryQueue([]);
    }

    /** `initiateRecovery` from the answer of the check to its end: the recovery action when
        the check asks for it, then the `finally` block, which clears the busy flag and drains
        every request queued meanwhile. `drain[k]` are the inputs of the k-th queued request. */
    method ResumeRecovery(needsRecovery: bool, recoverSucceeded: bool, drain: seq<CycleInputs>)
      returns (outcome: Outcome, drained: seq<Outcome>)
      requires Valid() && inProgress
      requires |drain| >= |recoveryQueue|
      modifies this
      ensures Valid() && !inProgress && recoveryQueue == []
      ensures recoveryLog == old(recoveryLog) && failedAttempts == old(failedAttempts)
      ensures outcome == AfterCheck(needsRecovery, recoverSucceeded)
      ensures |drained| == |old(recoveryQueue)|
      ensures forall k :: 0 <= k < |drained| ==> drained[k] == Cycle(old(recoveryQueue)[k].errorType, drain[k])
      ensures lastRecoveryAttempt ==
        if old(recoveryQueue) == [] then old(lastRecoveryAttempt)
        else Some(drain[|old(recoveryQueue)| - 1].stamp)
    {
      outcome := AfterCheck(needsRecovery, recoverSucceeded);
      // finally
      inProgress := false;
      suspended := None;
      drained := ProcessRecoveryQueue(drain);
    }

    /** `processRecoveryQueue`: visits the queued requests in insertion order, deleting each
        before re-dispatching it; each re-dispatched call runs to completion on the idle
        orchestrator (stamping the clock) before the next one starts. */
    method ProcessRecoveryQueue(drain: seq<CycleInputs>) returns (outcomes: seq<Outcome>)
      requires |recoveryLog| <= MaxLogSize
      requires !inProgress && suspended == None
      requires |drain| >= |recoveryQueue|
      modifies this`recoveryQueue, this`lastRecoveryAttempt
      ensures Valid() && recoveryQueue == []
      ensures |outcomes| == |old(recoveryQueue)|
      ensures forall k :: 0 <= k < |outcomes| ==> outcomes[k] == Cycle(old(recoveryQueue)[k].errorType, drain[k])
      ensures lastRecoveryAttempt ==
        if old(recoveryQueue) == [] then old(lastRecoveryAttempt)
        else Some(drain[|old(recoveryQueue)| - 1].stamp)
    {
      ghost var queued := recoveryQueue;
      var i := 0;
      outcomes := [];
      while recoveryQueue != []
        invariant 0 <= i <= |queued| <= |drain|
        invariant recoveryQueue == queued[i..]
        invariant |outcomes| == i
        invariant forall k :: 0 <= k < i ==> outcomes[k] == Cycle(queued[k].errorType, drain[k])
        invariant lastRecoveryAttempt == if i == 0 then old(lastRecoveryAttempt) else Some(drain[i - 1].stamp)
        decreases |recoveryQueue|
      {
        var entry := recoveryQueue[0];
        recoveryQueue := recoveryQueue[1..];
        // re-dispatch: the call takes the idle flag, stamps the clock and runs to completion
        lastRecoveryAttempt := Some(drain[i].stamp);
        outcomes := outcomes + [Cycle(entry.errorType, drain[i])];
        i := i + 1;
      }
    }

    /** `logRecoveryAttempt`: append, then keep the newest `MaxLogSize` entries. */
    method LogRecoveryAttempt(errorType: string, success: bool, error: Option<string>, now: nat)
      requires Valid()
      modifies this`recoveryLog
      ensures Valid()
      ensures recoveryLog == AppendToLog(old(recoveryLog), LogEntry(now, errorType, success, error))
    {
      recoveryLog := recoveryLog + [LogEntry(now, errorType, success, error)];
      if |recoveryLog| > MaxLogSize {
        recoveryLog := recoveryLog[|recoveryLog| - MaxLogSize..];
      }
    }

    /** `getRecoveryStats` */
    function GetRecoveryStats(): (r: RecoveryStats)
      reads this
      ensures r.totalAttempts == |recoveryLog|
      ensures 0.0 <= r.successRate <= 100.0
      ensures recoveryLog == [] ==> r.successRate == 100.0
      ensures TopIssues(recoveryLog, r.mostCommonIssues)
      ensures r.lastRecoveryAttempt == lastRecoveryAttempt
    {
      MostCommonIssuesCorrect(recoveryLog);
      RecoveryStats(|recoveryLog|, SuccessRate(recoveryLog), MostCommonIssues(recoveryLog), lastRecoveryAttempt)
    }
  }
}
