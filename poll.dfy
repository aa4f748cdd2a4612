/**
  `poll` of src/poll.ts as a sequential method: the transport is the
  `listForRef` oracle, the clock a sequence of readings (one at the start and
  one after each sleep), and the sleeps are reported as the durations asked for.
 */
module Poll {
  import opened OrderedMaps
  import opened CheckNames
  import opened PollSpec

  /** `new Map()` and `set(name, 'pending')` for every parsed name, in order. */
  method InitialiseMap(checkList: seq<string>) returns (checkMap: CheckMap)
    ensures checkMap == Initial(checkList)
  {
    checkMap := Empty();
    for i := 0 to |checkList|
      invariant checkMap == Initial(checkList[..i])
    {
      assert checkList[..i + 1][..i] == checkList[..i];
      checkMap := checkMap.Set(checkList[i], PENDING);
    }
    assert checkList[..|checkList|] == checkList;
  }

  /**
    One round: one query per key in map order, each key overwritten with the
    conclusion of the first completed run returned for it, if any.
   */
  method QueryRound(checkMap: CheckMap, round: nat, options: Options, listForRef: Transport)
    returns (next: CheckMap, queries: seq<Query>)
    requires checkMap.Valid()
    ensures next == Round(checkMap, checkMap.keys, round, options, listForRef)
    ensures queries == RoundQueries(options, checkMap.keys)
  {
    next, queries := checkMap, [];
    for i := 0 to |checkMap.keys|
      invariant next == Round(checkMap, checkMap.keys[..i], round, options, listForRef)
      invariant queries == RoundQueries(options, checkMap.keys[..i])
    {
      RoundStep(checkMap, checkMap.keys, i, round, options, listForRef);
      ghost var before := next;
      var key := next.keys[i];
      var query := QueryFor(options, key);
      queries := queries + [query];
      var result := listForRef(round, query);
      var completedCheck := FindCompleted(result);
      if completedCheck.Some? {
        next := next.Set(key, completedCheck.value.conclusion);
      }
      assert next == Observe(before, key, result);
    }
    assert checkMap.keys[..|checkMap.keys|] == checkMap.keys;
  }

  /** The number of entries still pending. */
  method CountPendingKeys(checkMap: CheckMap) returns (pendingCount: nat)
    requires checkMap.Valid()
    ensures pendingCount == CountPending(checkMap)
  {
    pendingCount := 0;
    for i := 0 to |checkMap.keys|
      invariant pendingCount == PendingIn(checkMap.keys[..i], checkMap.values)
    {
      assert checkMap.keys[..i + 1][..i] == checkMap.keys[..i];
      if checkMap.values[checkMap.keys[i]] == PENDING {
        pendingCount := pendingCount + 1;
      }
    }
    assert checkMap.keys[..|checkMap.keys|] == checkMap.keys;
  }

  /** The two early-returning scans over the entries, then `'success'`. */
  method Reduce(checkMap: CheckMap) returns (verdict: string)
    requires checkMap.Valid()
    ensures verdict == Verdict(checkMap)
  {
    for i := 0 to |checkMap.keys|
      invariant forall j :: 0 <= j < i ==> checkMap.values[checkMap.keys[j]] != FAILURE
    {
      if checkMap.values[checkMap.keys[i]] == FAILURE {
        return FAILURE;
      }
    }
    for i := 0 to |checkMap.keys|
      invariant forall j :: 0 <= j < i ==> checkMap.values[checkMap.keys[j]] != PENDING
    {
      if checkMap.values[checkMap.keys[i]] == PENDING {
        return TIMED_OUT;
      }
    }
    return SUCCESS;
  }

  /**
    The `while (now <= deadline)` loop, entered with the clock reading
    `clock[0]` and the freshly initialised map.
   */
  method PollRounds(checkMap: CheckMap, deadline: int, options: Options, listForRef: Transport, clock: seq<int>)
    returns (final: CheckMap, calls: seq<Query>, waits: seq<int>)
    requires checkMap.Valid()
    requires |clock| > 0 && ClockPassesDeadline(clock, deadline)
    ensures var run := RunFrom(checkMap, 0, clock, deadline, options, listForRef);
      && final == run.checkMap
      && calls == Repeat(RoundQueries(options, checkMap.keys), run.rounds)
      && waits == Repeat([options.intervalSeconds * 1000], Sleeps(run))
  {
    ghost var run := RunFrom(checkMap, 0, clock, deadline, options, listForRef);
    var tick := 0;
    var now := clock[tick];
    final, calls, waits := checkMap, [], [];
    while now <= deadline
      invariant tick < |clock| && now == clock[tick]
      invariant final.Valid() && final.keys == checkMap.keys
      invariant RunFrom(final, tick, clock, deadline, options, listForRef) == run
      invariant calls == Repeat(RoundQueries(options, checkMap.keys), tick)
      invariant waits == Repeat([options.intervalSeconds * 1000], tick)
      decreases |clock| - tick
    {
      RunStep(final, tick, clock, deadline, options, listForRef);
      var queries;
      final, queries := QueryRound(final, tick, options, listForRef);
      calls := calls + queries;
      var pendingCount := CountPendingKeys(final);
      if pendingCount == 0 {
        break;
      }
      waits := waits + [options.intervalSeconds * 1000];
      tick := tick + 1;
      now := clock[tick];
    }
  }

  /**
    The whole of `poll`. `calls` are the transport queries issued, in order,
    and `waits` the sleep durations asked for, in milliseconds.
   */
  method Poll(options: Options, listForRef: Transport, clock: seq<int>)
    returns (verdict: string, calls: seq<Query>, waits: seq<int>)
    requires |clock| > 0 && ClockPassesDeadline(clock, Deadline(options, clock[0]))
    ensures var run := PollRun(options, listForRef, clock);
      && verdict == Verdict(run.checkMap)
      && calls == Repeat(RoundQueries(options, run.checkMap.keys), run.rounds)
      && waits == Repeat([options.intervalSeconds * 1000], Sleeps(run))
  {
    var now := clock[0];
    var deadline := now + options.timeoutSeconds * 1000;
    var checkList := CheckNamesAsList(options.checkNames);
    var checkMap := InitialiseMap(checkList);
    assert deadline == Deadline(options, clock[0]);
    ghost var run := PollRun(options, listForRef, clock);
    assert run == RunFrom(checkMap, 0, clock, deadline, options, listForRef);
    checkMap, calls, waits := PollRounds(checkMap, deadline, options, listForRef, clock);
    verdict := Reduce(checkMap);
  }
}
