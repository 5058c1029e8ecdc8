/** The recovery log of RecoveryStrategies.js: a list of attempts bounded to its newest
    100 entries, and the statistics read from it (success rate, most common issues). */
module RecoveryLog {
  import opened Common

  /** One logged recovery attempt; `error` is the message of the error, when there was one. */
  datatype LogEntry = LogEntry(timestamp: nat, errorType: string, success: bool, error: Option<string>)

  const MaxLogSize: nat := 100
  const MostCommonCount: nat := 5

  /** The newest `MaxLogSize` entries of `log`, in their original order. */
  function Window(log: seq<LogEntry>): seq<LogEntry> {
    if |log| > MaxLogSize then log[|log| - MaxLogSize..] else log
  }

  /** Appends `e` and keeps only the newest `MaxLogSize` entries. */
  function AppendToLog(log: seq<LogEntry>, e: LogEntry): (r: seq<LogEntry>)
    ensures 1 <= |r| <= MaxLogSize && |r| <= |log| + 1
    ensures |r| == if |log| + 1 > MaxLogSize then MaxLogSize else |log| + 1
    ensures r[|r| - 1] == e
    ensures r == (log + [e])[|log| + 1 - |r|..]
    ensures |log| < MaxLogSize ==> r == log + [e]
  {
    Window(log + [e])
  }

  /** The log after appending `es` one entry at a time. */
  function AppendAll(log: seq<LogEntry>, es: seq<LogEntry>): seq<LogEntry> {
    if es == [] then log else AppendToLog(AppendAll(log, es[..|es| - 1]), es[|es| - 1])
  }

  lemma {:induction false} WindowAppend(s: seq<LogEntry>, e: LogEntry)
    ensures Window(Window(s) + [e]) == Window(s + [e])
  {
    if |s| > MaxLogSize {
      assert Window(s) + [e] == (s + [e])[|s| - MaxLogSize..];
    }
  }

  /** However many entries are logged, the log holds exactly the newest `MaxLogSize` of
      everything logged, oldest first. */
  lemma {:induction false} AppendAllKeepsNewest(log: seq<LogEntry>, es: seq<LogEntry>)
    requires |log| <= MaxLogSize
    ensures AppendAll(log, es) == Window(log + es)
  {
    if es == [] {
      assert log + es == log;
    } else {
      var init, last := es[..|es| - 1], es[|es| - 1];
      assert log + es == (log + init) + [last];
      calc {
        AppendAll(log, es);
        { AppendAllStep(log, es); }
        Window(AppendAll(log, init) + [last]);
        { AppendAllKeepsNewest(log, init); }
        Window(Window(log + init) + [last]);
        { WindowAppend(log + init, last); }
        Window(log + es);
      }
    }
  }

  lemma AppendAllStep(log: seq<LogEntry>, es: seq<LogEntry>)
    requires es != []
    ensures AppendAll(log, es) == Window(AppendAll(log, es[..|es| - 1]) + [es[|es| - 1]])
  {
  }

  /** Logging more than `MaxLogSize` entries into an empty log leaves the newest of them. */
  lemma {:induction false} LogOverflowKeepsNewest(es: seq<LogEntry>)
    requires |es| >= MaxLogSize
    ensures AppendAll([], es) == es[|es| - MaxLogSize..]
  {
    AppendAllFromEmpty(es);
  }

  lemma {:induction false} AppendAllFromEmpty(es: seq<LogEntry>)
    ensures AppendAll([], es) == Window(es)
  {
    var empty: seq<LogEntry> := [];
    AppendAllKeepsNewest(empty, es);
    assert empty + es == es;
  }

  /** Number of successful attempts in the log. */
  function Successes(log: seq<LogEntry>): (n: nat)
    ensures n <= |log|
    ensures n == |log| <==> forall i :: 0 <= i < |log| ==> log[i].success
  {
    if log == [] then 0
    else (if log[0].success then 1 else 0) + Successes(log[1..])
  }

  /** Percentage of successful attempts; 100 for an empty log. */
  function SuccessRate(log: seq<LogEntry>): (r: real)
    ensures 0.0 <= r <= 100.0
    ensures log == [] ==> r == 100.0
    ensures r == 100.0 <==> forall i :: 0 <= i < |log| ==> log[i].success
  {
    if |log| == 0 then 100.0
    else
      var s, n := Successes(log) as real, |log| as real;
      RatioAtMostOne(s, n);
      (s / n) * 100.0
  }

  lemma {:induction false} RatioAtMostOne(s: real, n: real)
    requires 0.0 <= s <= n && 0.0 < n
    ensures 0.0 <= s / n <= 1.0
    ensures s / n == 1.0 <==> s == n
  {
    var q := s / n;
    assert q * n == s;
    assert (1.0 - q) * n == n - s;
  }

  /** Number of entries in the log for `errorType`. */
  function Occurrences(log: seq<LogEntry>, errorType: string): (n: nat)
    ensures n <= |log|
    ensures n > 0 <==> exists i :: 0 <= i < |log| && log[i].errorType == errorType
  {
    if log == [] then 0
    else (if log[0].errorType == errorType then 1 else 0) + Occurrences(log[1..], errorType)
  }

  /** The distinct error types of the log in order of first appearance, the key order of
      the object the log is tallied into. */
  function IssueTypes(log: seq<LogEntry>): (ts: seq<string>)
    ensures forall i, j :: 0 <= i < j < |ts| ==> ts[i] != ts[j]
    ensures forall t :: t in ts <==> exists i :: 0 <= i < |log| && log[i].errorType == t
  {
    if log == [] then []
    else
      var ts := IssueTypes(log[..|log| - 1]);
      var t := log[|log| - 1].errorType;
      assert forall i :: 0 <= i < |log| - 1 ==> log[..|log| - 1][i] == log[i];
      if t in ts then ts else ts + [t]
  }

  /** Each error type of the log with its number of entries. */
  function Tally(log: seq<LogEntry>): seq<(string, nat)> {
    var ts := IssueTypes(log);
    seq(|ts|, i requires 0 <= i < |ts| => (ts[i], Occurrences(log, ts[i])))
  }

  predicate NonIncreasing(s: seq<(string, nat)>) {
    forall i, j :: 0 <= i < j < |s| ==> s[i].1 >= s[j].1
  }

  predicate NoDuplicates(s: seq<(string, nat)>) {
    forall i, j :: 0 <= i < j < |s| ==> s[i] != s[j]
  }

  /** Inserts `x` after every element whose count is at least its own. */
  function Insert(x: (string, nat), s: seq<(string, nat)>): (r: seq<(string, nat)>)
    ensures |r| == |s| + 1
    ensures forall y :: y in r <==> y in s || y == x
    ensures NonIncreasing(s) ==> NonIncreasing(r)
    ensures NoDuplicates(s) && x !in s ==> NoDuplicates(r)
  {
    if s == [] then [x]
    else if s[0].1 >= x.1 then
      var rest := Insert(x, s[1..]);
      InsertAfterHead(x, s, rest);
      [s[0]] + rest
    else [x] + s
  }

  lemma {:induction false} InsertAfterHead(x: (string, nat), s: seq<(string, nat)>, rest: seq<(string, nat)>)
    requires s != [] && s[0].1 >= x.1
    requires forall y :: y in rest <==> y in s[1..] || y == x
    requires NonIncreasing(s[1..]) ==> NonIncreasing(rest)
    requires NoDuplicates(s[1..]) && x !in s[1..] ==> NoDuplicates(rest)
    ensures forall y :: y in [s[0]] + rest <==> y in s || y == x
    ensures NonIncreasing(s) ==> NonIncreasing([s[0]] + rest)
    ensures NoDuplicates(s) && x !in s ==> NoDuplicates([s[0]] + rest)
  {
    var r := [s[0]] + rest;
    assert s == [s[0]] + s[1..];
    if NonIncreasing(s) {
      forall i, j | 0 <= i < j < |r| ensures r[i].1 >= r[j].1 {
        if i == 0 {
          assert r[j] in rest;
          if r[j] != x {
            var k :| 0 <= k < |s[1..]| && s[1..][k] == r[j];
            assert s[k + 1] == r[j];
          }
        } else {
          assert r[i] == rest[i - 1] && r[j] == rest[j - 1];
        }
      }
    }
    if NoDuplicates(s) && x !in s {
      assert s[0] !in s[1..];
      forall i, j | 0 <= i < j < |r| ensures r[i] != r[j] {
        if i == 0 {
          assert r[j] in rest;
        } else {
          assert r[i] == rest[i - 1] && r[j] == rest[j - 1];
        }
      }
    }
  }

  /** Sorts by count, largest first; entries with equal counts keep their order, as the
      stable `Array.prototype.sort` does. */
  function SortByCount(s: seq<(string, nat)>): (r: seq<(string, nat)>)
    ensures |r| == |s|
    ensures forall y :: y in r <==> y in s
    ensures NonIncreasing(r)
    ensures NoDuplicates(s) ==> NoDuplicates(r)
  {
    if s == [] then []
    else
      var init := s[..|s| - 1];
      assert forall y :: y in init ==> y in s;
      assert s == init + [s[|s| - 1]];
      Insert(s[|s| - 1], SortByCount(init))
  }

  /** At most five (error type, count) pairs, largest count first. */
  function MostCommonIssues(log: seq<LogEntry>): (r: seq<(string, nat)>)
    ensures |r| <= MostCommonCount
  {
    FirstFew(SortByCount(Tally(log)))
  }

  /** `slice(0, 5)` */
  function FirstFew(s: seq<(string, nat)>): seq<(string, nat)> {
    if |s| > MostCommonCount then s[..MostCommonCount] else s
  }

  lemma {:induction false} TallyFacts(log: seq<LogEntry>)
    ensures |Tally(log)| == |IssueTypes(log)|
    ensures NoDuplicates(Tally(log))
    ensures forall p :: p in Tally(log) ==> p.1 == Occurrences(log, p.0) && p.1 >= 1
    ensures forall i :: 0 <= i < |log| ==> (log[i].errorType, Occurrences(log, log[i].errorType)) in Tally(log)
  {
    var ts := IssueTypes(log);
    var tally := Tally(log);
    forall p | p in tally
      ensures p.1 == Occurrences(log, p.0) && p.1 >= 1
    {
      var k :| 0 <= k < |tally| && tally[k] == p;
      assert ts[k] in ts;
    }
    forall i | 0 <= i < |log|
      ensures (log[i].errorType, Occurrences(log, log[i].errorType)) in tally
    {
      var t := log[i].errorType;
      assert t in ts;
      var k :| 0 <= k < |ts| && ts[k] == t;
      assert tally[k] == (t, Occurrences(log, t));
    }
  }

  lemma {:induction false} SortedTallyFacts(log: seq<LogEntry>)
    ensures var sorted := SortByCount(Tally(log));
      && |sorted| == |IssueTypes(log)|
      && NonIncreasing(sorted)
      && NoDuplicates(sorted)
      && (forall p :: p in sorted ==> p.1 == Occurrences(log, p.0) && p.1 >= 1)
      && (forall i :: 0 <= i < |log| ==> (log[i].errorType, Occurrences(log, log[i].errorType)) in sorted)
  {
    TallyFacts(log);
  }

  /** `r` is a correct "most common issues" answer for `log`: counts non-increasing, each
      count the true number of entries of its type, no type twice, and no type of the log
      left out that is more frequent than the ones shown. */
  ghost predicate TopIssues(log: seq<LogEntry>, r: seq<(string, nat)>) {
    && |r| <= MostCommonCount
    && NonIncreasing(r)
    && (forall i :: 0 <= i < |r| ==> r[i].1 == Occurrences(log, r[i].0) && r[i].1 >= 1)
    && (forall i, j :: 0 <= i < j < |r| ==> r[i].0 != r[j].0)
    && (forall k :: 0 <= k < |log| ==> Covered(log, r, log[k].errorType))
  }

  /** Error type `t` is shown in `r`, or `r` is full and shows only types at least as frequent. */
  ghost predicate Covered(log: seq<LogEntry>, r: seq<(string, nat)>, t: string) {
    || (exists i :: 0 <= i < |r| && r[i].0 == t)
    || (|r| == MostCommonCount && Occurrences(log, t) <= r[|r| - 1].1)
  }

  /** The statistic holds the five most frequent error types (all of them, when there are
      fewer), as described by `TopIssues`. */
  lemma {:induction false} MostCommonIssuesCorrect(log: seq<LogEntry>)
    ensures TopIssues(log, MostCommonIssues(log))
    ensures |MostCommonIssues(log)| == if |IssueTypes(log)| < MostCommonCount then |IssueTypes(log)| else MostCommonCount
  {
    SortedTallyFacts(log);
    TopPrefix(log, SortByCount(Tally(log)));
  }

  lemma {:induction false} TopPrefix(log: seq<LogEntry>, sorted: seq<(string, nat)>)
    requires NonIncreasing(sorted) && NoDuplicates(sorted)
    requires forall p :: p in sorted ==> p.1 == Occurrences(log, p.0) && p.1 >= 1
    requires forall i :: 0 <= i < |log| ==> (log[i].errorType, Occurrences(log, log[i].errorType)) in sorted
    ensures TopIssues(log, FirstFew(sorted))
  {
    var r := FirstFew(sorted);
    forall i, j | 0 <= i < j < |r|
      ensures r[i].1 >= r[j].1 && r[i].0 != r[j].0
    {
      assert r[i] == sorted[i] && r[j] == sorted[j];
      assert sorted[i] in sorted && sorted[j] in sorted;
    }
    forall i | 0 <= i < |r|
      ensures r[i].1 == Occurrences(log, r[i].0) && r[i].1 >= 1
    {
      assert r[i] == sorted[i];
      assert sorted[i] in sorted;
    }
    forall k | 0 <= k < |log|
      ensures Covered(log, r, log[k].errorType)
    {
      PrefixCovers(log, sorted, log[k].errorType);
    }
  }

  lemma {:induction false} PrefixCovers(log: seq<LogEntry>, sorted: seq<(string, nat)>, t: string)
    requires NonIncreasing(sorted)
    requires (t, Occurrences(log, t)) in sorted
    ensures Covered(log, FirstFew(sorted), t)
  {
    var r := FirstFew(sorted);
    var m :| 0 <= m < |sorted| && sorted[m] == (t, Occurrences(log, t));
    if m < |r| {
      assert r[m] == sorted[m];
    } else {
      assert r[|r| - 1] == sorted[|r| - 1];
    }
  }

  /** Successes of two logs add up when they are joined. */
  lemma {:induction false} SuccessesSplit(a: seq<LogEntry>, b: seq<LogEntry>)
    ensures Successes(a + b) == Successes(a) + Successes(b)
  {
    if a != [] {
      assert (a + b)[1..] == a[1..] + b;
      SuccessesSplit(a[1..], b);
    } else {
      assert a + b == b;
    }
  }

  /** Three successes and one failure, in any order, give a success rate of 75 percent. */
  lemma ThreeOfFourSucceeded(log: seq<LogEntry>, k: nat)
    requires |log| == 4 && k < 4
    requires forall i :: 0 <= i < 4 ==> (log[i].success <==> i != k)
    ensures SuccessRate(log) == 75.0
  {
    var before, failed, after := log[..k], log[k..k + 1], log[k + 1..];
    assert log == before + failed + after;
    assert forall i :: 0 <= i < |before| ==> before[i].success by {
      forall i | 0 <= i < |before| ensures before[i].success { assert before[i] == log[i]; }
    }
    assert forall i :: 0 <= i < |after| ==> after[i].success by {
      forall i | 0 <= i < |after| ensures after[i].success { assert after[i] == log[k + 1 + i]; }
    }
    assert failed[0] == log[k] && !log[k].success;
    assert failed[1..] == [];
    assert Successes(failed) == 0;
    SuccessesSplit(before + failed, after);
    SuccessesSplit(before, failed);
    assert Successes(log) == 3;
    RatioAtMostOne(3.0, 4.0);
  }
}
