/**
  What src/poll.ts promises about its poll loop, proved of the functions of
  PollSpec (and so, through the contracts of module Poll, of the methods).
 */
module PollProperties {
  import opened OrderedMaps
  import opened CheckNames
  import opened PollSpec

  /** The transport answered the query for `name` in round `r` with a completed run. */
  predicate Answered(listForRef: Transport, options: Options, r: nat, name: string)
  {
    FindCompleted(listForRef(r, QueryFor(options, name))).Some?
  }

  /** ... and the first completed run it returned concluded `conclusion`. */
  predicate Reported(listForRef: Transport, options: Options, r: nat, name: string, conclusion: string)
  {
    var found := FindCompleted(listForRef(r, QueryFor(options, name)));
    found.Some? && found.value.conclusion == conclusion
  }

  /** No completed run is returned for `k` in any round from `lo` up to, not including, `hi`. */
  predicate Unanswered(listForRef: Transport, options: Options, k: string, lo: nat, hi: nat) {
    forall r: nat :: lo <= r < hi ==> !Answered(listForRef, options, r, k)
  }

  // ----- Repetition of the per-round queries -----

  lemma {:induction false} RepeatLength<T>(s: seq<T>, n: nat)
    ensures |Repeat(s, n)| == n * |s|
  {
    if n > 0 {
      RepeatLength(s, n - 1);
      assert n * |s| == (n - 1) * |s| + |s|;
    }
  }

  /** Element `c` of `s` repeated is element `c % |s|` of `s`. */
  lemma {:induction false} RepeatIndex<T>(s: seq<T>, n: nat, c: nat)
    requires c < n * |s|
    ensures |Repeat(s, n)| == n * |s|
    ensures Repeat(s, n)[c] == s[c % |s|]
  {
    RepeatLength(s, n);
    RepeatLength(s, n - 1);
    assert n * |s| == (n - 1) * |s| + |s|;
    if c < (n - 1) * |s| {
      RepeatIndex(s, n - 1, c);
    } else {
      var j := c - (n - 1) * |s|;
      ModUnique(c, |s|, n - 1, j);
    }
  }

  lemma MulAtLeast(d: int, m: int)
    requires d >= 1 && m > 0
    ensures d * m >= m
  {
  }

  /** The remainder is determined by any quotient-remainder decomposition. */
  lemma ModUnique(x: int, m: int, q: int, r: int)
    requires m > 0 && 0 <= r < m && x == q * m + r
    ensures x % m == r
  {
    var q2, r2 := x / m, x % m;
    assert x == q2 * m + r2;
    assert (q - q2) * m == r2 - r;
    if q > q2 {
      MulAtLeast(q - q2, m);
    } else if q2 > q {
      assert (q2 - q) * m == r - r2;
      MulAtLeast(q2 - q, m);
    }
  }

  // ----- The pending count -----

  /** The pending count is zero exactly when no key among `ks` is pending. */
  lemma {:induction false} PendingZero(ks: seq<string>, values: map<string, string>)
    requires forall i :: 0 <= i < |ks| ==> ks[i] in values
    ensures PendingIn(ks, values) == 0 <==> forall i :: 0 <= i < |ks| ==> values[ks[i]] != PENDING
  {
    if ks != [] {
      PendingZero(ks[..|ks| - 1], values);
    }
  }

  /** The same for a whole tracking map, in terms of its dictionary. */
  lemma CountPendingZero(t: CheckMap)
    requires t.Valid()
    ensures CountPending(t) == 0 <==> forall k :: k in t.values ==> t.values[k] != PENDING
  {
    PendingZero(t.keys, t.values);
    if CountPending(t) == 0 {
      forall k | k in t.values ensures t.values[k] != PENDING {
        var i := IndexOf(t.keys, k);
      }
    }
  }

  // ----- Initialisation -----

  /**
    After `set(name, 'pending')` for every name: the keys are exactly the
    distinct names, each pending, in the order of their first occurrence.
   */
  lemma {:induction false} InitialShape(names: seq<string>)
    ensures forall k :: k in Initial(names).values <==> k in names
    ensures forall k :: k in Initial(names).values ==> Initial(names).values[k] == PENDING
    ensures forall i, j :: 0 <= i < j < |Initial(names).keys| ==>
      IndexOf(names, Initial(names).keys[i]) < IndexOf(names, Initial(names).keys[j])
  {
    InitialContents(names);
    InitialOrder(names);
  }

  /** The keys of the initial map are the names, every one mapped to "pending". */
  lemma {:induction false} InitialContents(names: seq<string>)
    ensures forall k :: k in Initial(names).values <==> k in names
    ensures forall k :: k in Initial(names).values ==> Initial(names).values[k] == PENDING
  {
    if names != [] {
      InLast(names);
      InitialContents(names[..|names| - 1]);
    }
  }

  /** `keys` are drawn from `names`, in the order of their first occurrence there. */
  ghost predicate InOrderOf(names: seq<string>, keys: seq<string>) {
    && (forall i :: 0 <= i < |keys| ==> keys[i] in names)
    && (forall i, j :: 0 <= i < j < |keys| ==> IndexOf(names, keys[i]) < IndexOf(names, keys[j]))
  }

  /** The keys of the initial map are in the order of their first occurrence among the names. */
  lemma {:induction false} InitialOrder(names: seq<string>)
    ensures InOrderOf(names, Initial(names).keys)
  {
    if names != [] {
      var prefix := names[..|names| - 1];
      InitialOrder(prefix);
      OrderAppend(names, Initial(prefix).keys);
      assert Initial(names).keys == if names[|names| - 1] in prefix then Initial(prefix).keys else Initial(prefix).keys + [names[|names| - 1]] by {
        InitialContents(prefix);
      }
    }
  }

  /**
    Keys listed in order of first occurrence among all but the last of
    `names` stay so among all of `names`, with the last name added as a key
    if it is new.
   */
  lemma OrderAppend(names: seq<string>, keys: seq<string>)
    requires |names| > 0
    requires InOrderOf(names[..|names| - 1], keys)
    ensures InOrderOf(names, if names[|names| - 1] in names[..|names| - 1] then keys else keys + [names[|names| - 1]])
  {
    var prefix, x := names[..|names| - 1], names[|names| - 1];
    InLast(names);
    forall i | 0 <= i < |keys| ensures IndexOf(names, keys[i]) == IndexOf(prefix, keys[i]) {
      IndexOfDropLast(names, keys[i]);
    }
    if x !in prefix {
      var ks := keys + [x];
      IndexOfNewLast(names);
      forall i, j | 0 <= i < j < |ks| ensures IndexOf(names, ks[i]) < IndexOf(names, ks[j]) {
        if j == |keys| {
          assert ks[i] == keys[i];
        }
      }
    }
  }

  // ----- One round -----

  /**
    In a round over distinct keys `ks`, each key of `ks` takes the conclusion
    of the first completed run returned for it, or keeps its value if none is
    completed; every other key keeps its value.
   */
  lemma {:induction false} RoundValue(t: CheckMap, ks: seq<string>, round: nat, options: Options, listForRef: Transport, k: string)
    requires t.Valid() && Distinct(ks)
    requires forall i :: 0 <= i < |ks| ==> ks[i] in t.values
    requires k in t.values
    ensures Round(t, ks, round, options, listForRef).values[k]
         == if k in ks then Observed(t.values[k], listForRef(round, QueryFor(options, k))) else t.values[k]
  {
    if ks != [] {
      var prefix, last := ks[..|ks| - 1], ks[|ks| - 1];
      InLast(ks);
      RoundValue(t, prefix, round, options, listForRef, k);
      if k == last {
        assert k !in prefix;
      }
    }
  }

  /**
    A key that is no longer pending stays so through a round, unless the transport
    reports a completed run whose conclusion is the string "pending".
   */
  lemma RoundNeverRevertsToPending(t: CheckMap, round: nat, options: Options, listForRef: Transport, k: string)
    requires t.Valid() && k in t.values && t.values[k] != PENDING
    requires !Reported(listForRef, options, round, k, PENDING)
    ensures Round(t, t.keys, round, options, listForRef).values[k] != PENDING
  {
    RoundValue(t, t.keys, round, options, listForRef, k);
  }

  // ----- The loop -----

  /** Every round that ran started no later than the deadline. */
  lemma {:induction false} RoundsWithinDeadline(t: CheckMap, round: nat, clock: seq<int>, deadline: int, options: Options, listForRef: Transport)
    requires t.Valid()
    requires round < |clock| && ClockPassesDeadline(clock, deadline)
    ensures var run := RunFrom(t, round, clock, deadline, options, listForRef);
      && run.rounds < |clock|
      && (forall r :: round <= r < run.rounds ==> clock[r] <= deadline)
    decreases |clock| - round
  {
    if clock[round] <= deadline {
      RunStep(t, round, clock, deadline, options, listForRef);
      var next := Round(t, t.keys, round, options, listForRef);
      if CountPending(next) != 0 {
        RoundsWithinDeadline(next, round + 1, clock, deadline, options, listForRef);
      }
    }
  }

  /**
    The stopping rule: a run that left because nothing was pending ends with
    a zero pending count; a run that left by the deadline read a time past it.
   */
  lemma {:induction false} StopRule(t: CheckMap, round: nat, clock: seq<int>, deadline: int, options: Options, listForRef: Transport)
    requires t.Valid()
    requires round < |clock| && ClockPassesDeadline(clock, deadline)
    ensures var run := RunFrom(t, round, clock, deadline, options, listForRef);
      && (run.resolved ==> CountPending(run.checkMap) == 0)
      && (!run.resolved ==> run.rounds < |clock| && clock[run.rounds] > deadline)
    decreases |clock| - round
  {
    if clock[round] <= deadline {
      RunStep(t, round, clock, deadline, options, listForRef);
      var next := Round(t, t.keys, round, options, listForRef);
      if CountPending(next) != 0 {
        StopRule(next, round + 1, clock, deadline, options, listForRef);
      }
    }
  }

  /**
    A run that left by the deadline after some rounds still has a key
    pending; one that ran no round leaves the map as it was.
   */
  lemma {:induction false} DeadlineExit(t: CheckMap, round: nat, clock: seq<int>, deadline: int, options: Options, listForRef: Transport)
    requires t.Valid()
    requires round < |clock| && ClockPassesDeadline(clock, deadline)
    ensures var run := RunFrom(t, round, clock, deadline, options, listForRef);
      && (!run.resolved && round < run.rounds ==> CountPending(run.checkMap) > 0)
      && (run.rounds == round ==> run.checkMap == t && !run.resolved)
    decreases |clock| - round
  {
    if clock[round] <= deadline {
      RunStep(t, round, clock, deadline, options, listForRef);
      var next := Round(t, t.keys, round, options, listForRef);
      if CountPending(next) != 0 {
        DeadlineExit(next, round + 1, clock, deadline, options, listForRef);
      }
    }
  }

  /**
    Last write wins: a key's final value is its value on entry if no round
    got a completed run for it, and otherwise the conclusion reported in the
    last round that did.
   */
  lemma {:induction false} FinalValue(t: CheckMap, round: nat, clock: seq<int>, deadline: int, options: Options, listForRef: Transport, k: string)
    requires t.Valid() && k in t.values
    requires round < |clock| && ClockPassesDeadline(clock, deadline)
    ensures var run := RunFrom(t, round, clock, deadline, options, listForRef);
      LastWrite(listForRef, options, k, round, run.rounds, t.values[k], run.checkMap.values[k])
    decreases |clock| - round
  {
    if clock[round] <= deadline {
      RunStep(t, round, clock, deadline, options, listForRef);
      var next := Round(t, t.keys, round, options, listForRef);
      RoundValue(t, t.keys, round, options, listForRef, k);
      if CountPending(next) == 0 {
        LastWriteStep(listForRef, options, k, round, round + 1, t.values[k], next.values[k], next.values[k]);
      } else {
        FinalValue(next, round + 1, clock, deadline, options, listForRef, k);
        var run := RunFrom(next, round + 1, clock, deadline, options, listForRef);
        LastWriteStep(listForRef, options, k, round, run.rounds, t.values[k], next.values[k], run.checkMap.values[k]);
      }
    }
  }

  /**
    The value `v` a key holds after rounds `lo` to `hi`, starting from
    `prior`: either no round answered it and `v` is `prior`, or `v` is the
    conclusion reported in the last round that answered it.
   */
  predicate LastWrite(listForRef: Transport, options: Options, k: string, lo: nat, hi: nat, prior: string, v: string)
  {
    || (v == prior && Unanswered(listForRef, options, k, lo, hi))
    || (exists r: nat :: lo <= r < hi && Reported(listForRef, options, r, k, v)
          && Unanswered(listForRef, options, k, r + 1, hi))
  }

  /** The last write over rounds `lo` to `hi` is the last write from round `lo + 1` on after the write of round `lo`. */
  lemma LastWriteStep(listForRef: Transport, options: Options, k: string, lo: nat, hi: nat, prior: string, mid: string, v: string)
    requires lo < hi
    requires mid == Observed(prior, listForRef(lo, QueryFor(options, k)))
    requires LastWrite(listForRef, options, k, lo + 1, hi, mid, v)
    ensures LastWrite(listForRef, options, k, lo, hi, prior, v)
  {
    if v == mid && forall r: nat :: lo + 1 <= r < hi ==> !Answered(listForRef, options, r, k) {
      if Answered(listForRef, options, lo, k) {
        assert Reported(listForRef, options, lo, k, v);
      }
    }
  }

  /**
    The keys of the tracking map are, throughout and at the end, exactly the
    distinct parsed names, in the order of their first occurrence.
   */
  lemma KeysNeverChange(options: Options, listForRef: Transport, clock: seq<int>)
    requires |clock| > 0 && ClockPassesDeadline(clock, Deadline(options, clock[0]))
    ensures var names := CheckNamesAsList(options.checkNames);
      var final := PollRun(options, listForRef, clock).checkMap;
      && final.keys == Initial(names).keys
      && Distinct(final.keys)
      && (forall k :: k in final.values <==> k in names)
  {
    InitialShape(CheckNamesAsList(options.checkNames));
  }

  /**
    Each round issues one query per key, in map order, with owner, repo and
    ref passed through: call `c` asks for key `c % |keys|`.
   */
  lemma PollCalls(options: Options, listForRef: Transport, clock: seq<int>)
    requires |clock| > 0 && ClockPassesDeadline(clock, Deadline(options, clock[0]))
    ensures var run := PollRun(options, listForRef, clock);
      var keys := run.checkMap.keys;
      var calls := Repeat(RoundQueries(options, keys), run.rounds);
      && |calls| == run.rounds * |keys|
      && forall c :: 0 <= c < |calls| ==> calls[c] == Query(keys[c % |keys|], options.owner, options.repo, options.ref)
  {
    var run := PollRun(options, listForRef, clock);
    var qs := RoundQueries(options, run.checkMap.keys);
    RepeatLength(qs, run.rounds);
    forall c | 0 <= c < |Repeat(qs, run.rounds)| ensures Repeat(qs, run.rounds)[c] == qs[c % |qs|] {
      RepeatIndex(qs, run.rounds, c);
    }
  }

  /** A failure verdict means a final value is a failure the transport reported. */
  lemma FailureCameFromTransport(options: Options, listForRef: Transport, clock: seq<int>)
    requires |clock| > 0 && ClockPassesDeadline(clock, Deadline(options, clock[0]))
    ensures var run := PollRun(options, listForRef, clock);
      Verdict(run.checkMap) == FAILURE ==>
        exists k, r: nat :: k in run.checkMap.values && k in CheckNamesAsList(options.checkNames) && r < run.rounds
          && run.checkMap.values[k] == FAILURE && Reported(listForRef, options, r, k, FAILURE)
  {
    var names := CheckNamesAsList(options.checkNames);
    var run := PollRun(options, listForRef, clock);
    InitialShape(names);
    if Verdict(run.checkMap) == FAILURE {
      var i :| 0 <= i < |run.checkMap.keys| && run.checkMap.values[run.checkMap.keys[i]] == FAILURE;
      var k := run.checkMap.keys[i];
      assert run == RunFrom(Initial(names), 0, clock, Deadline(options, clock[0]), options, listForRef);
      FinalValue(Initial(names), 0, clock, Deadline(options, clock[0]), options, listForRef, k);
      assert Initial(names).values[k] == PENDING;
      var r: nat :| r < run.rounds && Reported(listForRef, options, r, k, FAILURE);
      assert k in names;
    }
  }

  /**
    A timed-out verdict means the loop left by the deadline, with a key
    still pending, none failed, and a clock reading past the deadline.
   */
  lemma TimedOutMeansDeadlinePassed(options: Options, listForRef: Transport, clock: seq<int>)
    requires |clock| > 0 && ClockPassesDeadline(clock, Deadline(options, clock[0]))
    ensures var run := PollRun(options, listForRef, clock);
      Verdict(run.checkMap) == TIMED_OUT ==>
        && !run.resolved
        && run.rounds < |clock| && clock[run.rounds] > Deadline(options, clock[0])
        && (exists k :: k in run.checkMap.values && run.checkMap.values[k] == PENDING)
        && (forall k :: k in run.checkMap.values ==> run.checkMap.values[k] != FAILURE)
  {
    var t := Initial(CheckNamesAsList(options.checkNames));
    var deadline := Deadline(options, clock[0]);
    var run := RunFrom(t, 0, clock, deadline, options, listForRef);
    assert run == PollRun(options, listForRef, clock);
    var final := run.checkMap;
    if Verdict(final) == TIMED_OUT {
      var i :| 0 <= i < |final.keys| && final.values[final.keys[i]] == PENDING;
      PendingAtEnd(t, clock, deadline, options, listForRef, final.keys[i]);
    }
  }

  /** A key still pending at the end means the loop left by the deadline. */
  lemma PendingAtEnd(t: CheckMap, clock: seq<int>, deadline: int, options: Options, listForRef: Transport, k: string)
    requires t.Valid()
    requires 0 < |clock| && ClockPassesDeadline(clock, deadline)
    requires var final := RunFrom(t, 0, clock, deadline, options, listForRef).checkMap;
      k in final.values && final.values[k] == PENDING
    ensures var run := RunFrom(t, 0, clock, deadline, options, listForRef);
      !run.resolved && run.rounds < |clock| && clock[run.rounds] > deadline
  {
    var run := RunFrom(t, 0, clock, deadline, options, listForRef);
    CountPendingZero(run.checkMap);
    StopRule(t, 0, clock, deadline, options, listForRef);
  }

  /** Some name of a non-empty input is still pending at the end of a run that left by the deadline. */
  lemma DeadlineExitLeavesPending(options: Options, listForRef: Transport, clock: seq<int>)
    requires |clock| > 0 && ClockPassesDeadline(clock, Deadline(options, clock[0]))
    requires options.checkNames != ""
    ensures var run := PollRun(options, listForRef, clock);
      !run.resolved ==> exists k :: k in run.checkMap.values && run.checkMap.values[k] == PENDING
  {
    var names := CheckNamesAsList(options.checkNames);
    var t := Initial(names);
    var deadline := Deadline(options, clock[0]);
    var run := RunFrom(t, 0, clock, deadline, options, listForRef);
    assert run == PollRun(options, listForRef, clock);
    if !run.resolved {
      DeadlineExit(t, 0, clock, deadline, options, listForRef);
      if run.rounds == 0 {
        assert names[0] in names;
        InitialShape(names);
        assert names[0] in run.checkMap.values;
      } else {
        CountPendingZero(run.checkMap);
      }
    }
  }

  /**
    A success verdict means every final value is some conclusion other than
    a failure and, for a non-empty input, that the loop left because nothing
    was pending any more.
   */
  lemma SuccessMeansAllConcluded(options: Options, listForRef: Transport, clock: seq<int>)
    requires |clock| > 0 && ClockPassesDeadline(clock, Deadline(options, clock[0]))
    ensures var run := PollRun(options, listForRef, clock);
      Verdict(run.checkMap) == SUCCESS ==>
        && (forall k :: k in run.checkMap.values ==> run.checkMap.values[k] != PENDING && run.checkMap.values[k] != FAILURE)
        && (options.checkNames != "" ==> run.resolved)
  {
    var run := PollRun(options, listForRef, clock);
    var final := run.checkMap;
    if options.checkNames != "" {
      DeadlineExitLeavesPending(options, listForRef, clock);
    }
    if Verdict(final) == SUCCESS {
      forall k | k in final.values ensures final.values[k] != PENDING && final.values[k] != FAILURE {
        var i := IndexOf(final.keys, k);
      }
    }
  }

  /** An empty input: the map is empty, no query is made, and the verdict is success. */
  lemma EmptyCheckNames(options: Options, listForRef: Transport, clock: seq<int>)
    requires |clock| > 0 && ClockPassesDeadline(clock, Deadline(options, clock[0]))
    requires options.checkNames == ""
    ensures var run := PollRun(options, listForRef, clock);
      && Verdict(run.checkMap) == SUCCESS
      && Repeat(RoundQueries(options, run.checkMap.keys), run.rounds) == []
      && run.rounds == (if options.timeoutSeconds >= 0 then 1 else 0)
      && Sleeps(run) == 0
  {
    var run := PollRun(options, listForRef, clock);
    RepeatLength(RoundQueries(options, run.checkMap.keys), run.rounds);
    if options.timeoutSeconds >= 0 {
      RunStep(Empty(), 0, clock, Deadline(options, clock[0]), options, listForRef);
    }
  }

  /**
    The first deadline test uses the same reading as the deadline itself, so
    a negative timeout runs no round: the verdict is success for an empty
    input and timed out otherwise; any other timeout runs at least one round.
   */
  lemma DeadlineAlreadyPassed(options: Options, listForRef: Transport, clock: seq<int>)
    requires |clock| > 0 && ClockPassesDeadline(clock, Deadline(options, clock[0]))
    ensures var run := PollRun(options, listForRef, clock);
      && (options.timeoutSeconds < 0 ==>
            run.rounds == 0 && Verdict(run.checkMap) == (if options.checkNames == "" then SUCCESS else TIMED_OUT))
      && (options.timeoutSeconds >= 0 ==> run.rounds >= 1)
  {
    var names := CheckNamesAsList(options.checkNames);
    var t := Initial(names);
    if options.timeoutSeconds >= 0 {
      RunStep(t, 0, clock, Deadline(options, clock[0]), options, listForRef);
    } else if options.checkNames != "" {
      assert names[0] in names;
      InitialShape(names);
      var i := IndexOf(t.keys, names[0]);
      assert Holds(t, PENDING);
    }
  }

  /** A round in which every key is reported with the same conclusion leaves every key with it. */
  lemma RoundAllReported(t: CheckMap, round: nat, options: Options, listForRef: Transport, conclusion: string)
    requires t.Valid()
    requires forall k :: k in t.values ==> Reported(listForRef, options, round, k, conclusion)
    ensures forall k :: k in Round(t, t.keys, round, options, listForRef).values ==>
      Round(t, t.keys, round, options, listForRef).values[k] == conclusion
  {
    var next := Round(t, t.keys, round, options, listForRef);
    forall k | k in next.values ensures next.values[k] == conclusion {
      assert k in t.values;
      RoundValue(t, t.keys, round, options, listForRef, k);
      assert Reported(listForRef, options, round, k, conclusion);
    }
  }

  /** A map in which every check concluded with success has nothing pending and reduces to success. */
  lemma AllSucceeded(t: CheckMap)
    requires t.Valid()
    requires forall k :: k in t.values ==> t.values[k] == SUCCESS
    ensures CountPending(t) == 0 && Verdict(t) == SUCCESS
  {
    CountPendingZero(t);
  }

  /**
    If every check reports a completed success in the first round, the loop
    runs exactly that one round and the verdict is success.
   */
  lemma FirstRoundAllSucceed(options: Options, listForRef: Transport, clock: seq<int>)
    requires |clock| > 0 && ClockPassesDeadline(clock, Deadline(options, clock[0]))
    requires options.timeoutSeconds >= 0
    requires forall k :: k in CheckNamesAsList(options.checkNames) ==> Reported(listForRef, options, 0, k, SUCCESS)
    ensures var run := PollRun(options, listForRef, clock);
      && run.rounds == 1 && run.resolved
      && Verdict(run.checkMap) == SUCCESS
  {
    var names := CheckNamesAsList(options.checkNames);
    var t := Initial(names);
    var next := Round(t, t.keys, 0, options, listForRef);
    assert forall k :: k in t.values ==> Reported(listForRef, options, 0, k, SUCCESS) by {
      InitialContents(names);
    }
    assert forall k :: k in next.values ==> next.values[k] == SUCCESS by {
      RoundAllReported(t, 0, options, listForRef, SUCCESS);
    }
    assert CountPending(next) == 0 && Verdict(next) == SUCCESS by {
      AllSucceeded(next);
    }
    RunStep(t, 0, clock, Deadline(options, clock[0]), options, listForRef);
  }

  /**
    A check for which the transport returns no completed run in any round
    that runs keeps the loop going until the deadline, so the verdict is never
    success; if moreover no check is reported failed in those rounds, the
    verdict is timed out. Answers the transport would give after the deadline
    are unconstrained.
   */
  lemma NeverCompletedCheck(options: Options, listForRef: Transport, clock: seq<int>, name: string)
    requires |clock| > 0 && ClockPassesDeadline(clock, Deadline(options, clock[0]))
    requires name in CheckNamesAsList(options.checkNames)
    requires Unanswered(listForRef, options, name, 0, PollRun(options, listForRef, clock).rounds)
    ensures var run := PollRun(options, listForRef, clock);
      && !run.resolved && run.rounds < |clock| && clock[run.rounds] > Deadline(options, clock[0])
      && Verdict(run.checkMap) != SUCCESS
      && ((forall r: nat, k :: r < run.rounds ==> !Reported(listForRef, options, r, k, FAILURE)) ==> Verdict(run.checkMap) == TIMED_OUT)
  {
    var names := CheckNamesAsList(options.checkNames);
    var t := Initial(names);
    var deadline := Deadline(options, clock[0]);
    var run := RunFrom(t, 0, clock, deadline, options, listForRef);
    assert run == PollRun(options, listForRef, clock);
    var final := run.checkMap;
    assert name in t.values && t.values[name] == PENDING by {
      InitialShape(names);
    }
    FinalValue(t, 0, clock, deadline, options, listForRef, name);
    forall r: nat | r < run.rounds ensures !Reported(listForRef, options, r, name, final.values[name]) {
      assert !Answered(listForRef, options, r, name);
    }
    assert final.values[name] == PENDING;
    PendingAtEnd(t, clock, deadline, options, listForRef, name);
    FailureCameFromTransport(options, listForRef, clock);
  }

  /**
    While the transport never reports the conclusion "pending" for `k`, `k`
    is pending at the end of the loop from round `round` exactly when it was
    pending at the start and no round from `round` on got a completed run for it.
   */
  lemma {:induction false} PendingUntilAnswered(t: CheckMap, round: nat, clock: seq<int>, deadline: int, options: Options, listForRef: Transport, k: string)
    requires t.Valid() && k in t.values
    requires round < |clock| && ClockPassesDeadline(clock, deadline)
    requires forall r: nat :: !Reported(listForRef, options, r, k, PENDING)
    ensures PendingTracksAnswers(t, round, clock, deadline, options, listForRef, k)
    decreases |clock| - round
  {
    if clock[round] <= deadline {
      RunStep(t, round, clock, deadline, options, listForRef);
      var next := Round(t, t.keys, round, options, listForRef);
      if CountPending(next) != 0 {
        PendingUntilAnswered(next, round + 1, clock, deadline, options, listForRef, k);
        PendingContinues(t, round, clock, deadline, options, listForRef, k);
      } else {
        PendingResolves(t, round, clock, deadline, options, listForRef, k);
      }
    }
  }

  /** The end value of `k` is pending exactly when it is pending now and no later round answers it. */
  ghost predicate PendingTracksAnswers(t: CheckMap, round: nat, clock: seq<int>, deadline: int, options: Options, listForRef: Transport, k: string)
    requires t.Valid() && k in t.values
    requires round < |clock| && ClockPassesDeadline(clock, deadline)
  {
    (RunFrom(t, round, clock, deadline, options, listForRef).checkMap.values[k] == PENDING)
      <==> (t.values[k] == PENDING && Unanswered(listForRef, options, k, round, RunFrom(t, round, clock, deadline, options, listForRef).rounds))
  }

  /** A round that leaves something pending passes `PendingTracksAnswers` back from the next round. */
  lemma PendingContinues(t: CheckMap, round: nat, clock: seq<int>, deadline: int, options: Options, listForRef: Transport, k: string)
    requires t.Valid() && k in t.values
    requires round + 1 < |clock| && ClockPassesDeadline(clock, deadline) && clock[round] <= deadline
    requires !Reported(listForRef, options, round, k, PENDING)
    requires CountPending(Round(t, t.keys, round, options, listForRef)) != 0
    requires PendingTracksAnswers(Round(t, t.keys, round, options, listForRef), round + 1, clock, deadline, options, listForRef, k)
    ensures PendingTracksAnswers(t, round, clock, deadline, options, listForRef, k)
  {
    RunStep(t, round, clock, deadline, options, listForRef);
    PendingAfterRound(t, round, options, listForRef, k);
    UnansweredFrom(listForRef, options, k, round, RunFrom(Round(t, t.keys, round, options, listForRef), round + 1, clock, deadline, options, listForRef).rounds);
  }

  /** A round that leaves nothing pending ends the loop with `k` answered or never pending. */
  lemma PendingResolves(t: CheckMap, round: nat, clock: seq<int>, deadline: int, options: Options, listForRef: Transport, k: string)
    requires t.Valid() && k in t.values
    requires round < |clock| && ClockPassesDeadline(clock, deadline) && clock[round] <= deadline
    requires !Reported(listForRef, options, round, k, PENDING)
    requires CountPending(Round(t, t.keys, round, options, listForRef)) == 0
    ensures PendingTracksAnswers(t, round, clock, deadline, options, listForRef, k)
  {
    RunStep(t, round, clock, deadline, options, listForRef);
    PendingAfterRound(t, round, options, listForRef, k);
    CountPendingZero(Round(t, t.keys, round, options, listForRef));
    UnansweredFrom(listForRef, options, k, round, round + 1);
  }

  /** One round leaves `k` pending exactly when it was pending and its query got no completed run. */
  lemma PendingAfterRound(t: CheckMap, round: nat, options: Options, listForRef: Transport, k: string)
    requires t.Valid() && k in t.values
    requires !Reported(listForRef, options, round, k, PENDING)
    ensures Round(t, t.keys, round, options, listForRef).values[k] == PENDING
        <==> t.values[k] == PENDING && !Answered(listForRef, options, round, k)
  {
    RoundValue(t, t.keys, round, options, listForRef, k);
  }

  /** No completed run in rounds `lo` to `hi`: none in round `lo`, and none after it. */
  lemma UnansweredFrom(listForRef: Transport, options: Options, k: string, lo: nat, hi: nat)
    requires lo < hi
    ensures Unanswered(listForRef, options, k, lo, hi)
        <==> !Answered(listForRef, options, lo, k) && Unanswered(listForRef, options, k, lo + 1, hi)
  {
  }

  /**
    While the transport never reports the conclusion "pending", a key is still
    pending at the end exactly when no round got a completed run for it.
   */
  lemma PendingUntilCompleted(options: Options, listForRef: Transport, clock: seq<int>, k: string)
    requires |clock| > 0 && ClockPassesDeadline(clock, Deadline(options, clock[0]))
    requires k in CheckNamesAsList(options.checkNames)
    requires forall r: nat :: !Reported(listForRef, options, r, k, PENDING)
    ensures var run := PollRun(options, listForRef, clock);
      k in run.checkMap.values &&
      (run.checkMap.values[k] == PENDING <==> Unanswered(listForRef, options, k, 0, run.rounds))
  {
    var names := CheckNamesAsList(options.checkNames);
    var t := Initial(names);
    assert k in t.values && t.values[k] == PENDING by {
      InitialContents(names);
    }
    PendingUntilAnswered(t, 0, clock, Deadline(options, clock[0]), options, listForRef, k);
  }
}
