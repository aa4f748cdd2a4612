/**
  The three scenarios of __tests__/poll.test.ts, stated of the loop's
  specification. Each test polls the checks "test,test1" of testOrg/testRepo at
  ref abcd with a six-second timeout and a one-second interval; its mocked
  transport becomes a function of the round and the query.
 */
module PollScenarios {
  import opened OrderedMaps
  import opened CheckNames
  import opened PollSpec
  import opened PollProperties

  const TestOptions := Options("test,test1", 6, 1, "testOrg", "testRepo", "abcd")

  /** The two queries of one round, in the order the names were given. */
  const TestQueries := [Query("test", "testOrg", "testRepo", "abcd"), Query("test1", "testOrg", "testRepo", "abcd")]

  lemma TestNames()
    ensures CheckNamesAsList(TestOptions.checkNames) == ["test", "test1"]
  {
    assert Join(["test", "test1"]) == "test,test1";
    ParseIsUnique(TestOptions.checkNames, ["test", "test1"]);
  }

  /** One name gives a map with that one key, pending. */
  lemma InitialSingle(a: string)
    ensures Initial([a]) == OrderedMap([a], map[a := PENDING])
  {
    assert [a][..0] == [];
    assert Initial([]) == Empty();
  }

  /** The map holding exactly the keys `a` then `b`, with values `x` and `y`. */
  function Pair(a: string, b: string, x: string, y: string): (t: CheckMap)
    requires a != b
    ensures t.Valid() && t.keys == [a, b] && t.values.Keys == {a, b}
  {
    OrderedMap([a, b], map[a := x, b := y])
  }

  /** Two distinct names give a map with those two keys, in order, both pending. */
  lemma InitialPair(a: string, b: string)
    requires a != b
    ensures Initial([a, b]) == Pair(a, b, PENDING, PENDING)
  {
    InitialSingle(a);
    assert [a, b][..1] == [a];
  }

  /** Observing an answer for `a`, or for `b`, in a two-key map. */
  lemma ObservePair(a: string, b: string, x: string, y: string, runs: seq<CheckRun>)
    requires a != b
    ensures Observe(Pair(a, b, x, y), a, runs) == Pair(a, b, Observed(x, runs), y)
    ensures Observe(Pair(a, b, x, y), b, runs) == Pair(a, b, x, Observed(y, runs))
  {
    var t := Pair(a, b, x, y);
    match FindCompleted(runs)
    case None =>
    case Some(run) =>
      assert t.values[a := run.conclusion] == map[a := run.conclusion, b := y];
      assert t.values[b := run.conclusion] == map[a := x, b := run.conclusion];
  }

  /** A round over a two-key map updates each key from the answer to its own query. */
  lemma RoundPair(a: string, b: string, x: string, y: string, r: nat, options: Options, listForRef: Transport)
    requires a != b
    ensures Round(Pair(a, b, x, y), [a, b], r, options, listForRef)
         == Pair(a, b, Observed(x, listForRef(r, QueryFor(options, a))), Observed(y, listForRef(r, QueryFor(options, b))))
  {
    var t := Pair(a, b, x, y);
    var x' := Observed(x, listForRef(r, QueryFor(options, a)));
    assert Round(t, [a], r, options, listForRef) == Pair(a, b, x', y) by {
      assert [a][..0] == [];
      ObservePair(a, b, x, y, listForRef(r, QueryFor(options, a)));
    }
    assert [a, b][..1] == [a];
    ObservePair(a, b, x', y, listForRef(r, QueryFor(options, b)));
  }

  /** The number of pending keys of a two-key map. */
  lemma CountPendingPair(a: string, b: string, x: string, y: string)
    requires a != b
    ensures CountPending(Pair(a, b, x, y)) == (if x == PENDING then 1 else 0) + (if y == PENDING then 1 else 0)
  {
    var t := Pair(a, b, x, y);
    assert t.values[a] == x && t.values[b] == y;
    assert PendingIn([a], t.values) == if x == PENDING then 1 else 0 by {
      assert [a][..0] == [];
    }
    assert [a, b][..1] == [a];
  }

  lemma RepeatOnce<T>(s: seq<T>)
    ensures Repeat(s, 1) == s
  {
    assert Repeat(s, 1) == Repeat(s, 0) + s;
  }

  lemma RepeatThree<T>(s: seq<T>)
    ensures Repeat(s, 3) == s + s + s
  {
    RepeatOnce(s);
    assert Repeat(s, 3) == Repeat(s, 2) + s;
  }

  /** The tracking map built from the test options has the keys "test" and "test1", in that order. */
  lemma TestKeys()
    ensures Initial(CheckNamesAsList(TestOptions.checkNames)) == Pair("test", "test1", PENDING, PENDING)
  {
    TestNames();
    assert |"test"| != |"test1"|;
    InitialPair("test", "test1");
  }

  /** One round queries "test" and then "test1". */
  lemma TestRoundQueries()
    ensures RoundQueries(TestOptions, ["test", "test1"]) == TestQueries
  {
    assert ["test", "test1"][..1] == ["test"];
    assert ["test"][..0] == [];
  }

  // ----- 'returns conclusion of completed check' -----

  /** Every query is answered with a pending run followed by a run completed with success. */
  function AlwaysSucceeds(r: nat, q: Query): seq<CheckRun>
  {
    [CheckRun("1", PENDING, ""), CheckRun("2", COMPLETED, SUCCESS)]
  }

  /** The first completed run in every such answer concludes success. */
  lemma AlwaysSucceedsReports(r: nat, name: string)
    ensures Reported(AlwaysSucceeds, TestOptions, r, name, SUCCESS)
  {
    var runs := AlwaysSucceeds(r, QueryFor(TestOptions, name));
    assert runs[0].status != COMPLETED;
    assert CompletedIndex(runs) == 1;
  }

  /**
    The verdict is success after a single round that queries "test" and then
    "test1", with no sleep, however the clock moves.
   */
  lemma ReturnsConclusionOfCompletedCheck(clock: seq<int>)
    requires |clock| > 0 && ClockPassesDeadline(clock, Deadline(TestOptions, clock[0]))
    ensures var run := PollRun(TestOptions, AlwaysSucceeds, clock);
      && Verdict(run.checkMap) == SUCCESS
      && run.rounds == 1 && Sleeps(run) == 0
      && Repeat(RoundQueries(TestOptions, run.checkMap.keys), run.rounds) == TestQueries
  {
    TestNames();
    TestKeys();
    TestRoundQueries();
    forall k | k in CheckNamesAsList(TestOptions.checkNames) ensures Reported(AlwaysSucceeds, TestOptions, 0, k, SUCCESS) {
      AlwaysSucceedsReports(0, k);
    }
    FirstRoundAllSucceed(TestOptions, AlwaysSucceeds, clock);
    KeysNeverChange(TestOptions, AlwaysSucceeds, clock);
    RepeatOnce(TestQueries);
  }

  // ----- 'polls until check is completed' -----

  /**
    The six answers of the second test, by round: both checks pending in
    round 0; "test" completed with failure in round 1 while "test1" is still
    pending; in round 2 the answer for "test" is pending again and "test1"
    completes with failure.
   */
  function PollsUntilCompleted(r: nat, q: Query): seq<CheckRun>
  {
    if r == 0 then [CheckRun("1", PENDING, "")]
    else if r == 1 then
      if q.checkName == "test" then [CheckRun("1", COMPLETED, FAILURE)] else [CheckRun("2", PENDING, "")]
    else
      if q.checkName == "test" then [CheckRun("2", PENDING, "")] else [CheckRun("2", COMPLETED, FAILURE)]
  }

  /**
    One round of the loop over a two-key map before the deadline: the loop
    stops once neither key is pending, and goes on with the updated map
    otherwise.
   */
  lemma PairRunStep(a: string, b: string, x: string, y: string, x': string, y': string,
                    round: nat, clock: seq<int>, deadline: int, options: Options, listForRef: Transport)
    requires a != b
    requires round < |clock| && ClockPassesDeadline(clock, deadline) && clock[round] <= deadline
    requires Observed(x, listForRef(round, QueryFor(options, a))) == x'
    requires Observed(y, listForRef(round, QueryFor(options, b))) == y'
    ensures round + 1 < |clock|
    ensures RunFrom(Pair(a, b, x, y), round, clock, deadline, options, listForRef)
         == if x' != PENDING && y' != PENDING then Run(Pair(a, b, x', y'), round + 1, true)
            else RunFrom(Pair(a, b, x', y'), round + 1, clock, deadline, options, listForRef)
  {
    RoundPair(a, b, x, y, round, options, listForRef);
    CountPendingPair(a, b, x', y');
    RunStep(Pair(a, b, x, y), round, clock, deadline, options, listForRef);
  }

  /** Round 2 of the second test, generalised: `b` fails, and the loop stops. */
  lemma TwoChecksThirdRound(options: Options, listForRef: Transport, clock: seq<int>, deadline: int, a: string, b: string)
    requires a != b
    requires 2 < |clock| && ClockPassesDeadline(clock, deadline) && clock[2] <= deadline
    requires !Answered(listForRef, options, 2, a) && Reported(listForRef, options, 2, b, FAILURE)
    ensures RunFrom(Pair(a, b, FAILURE, PENDING), 2, clock, deadline, options, listForRef) == Run(Pair(a, b, FAILURE, FAILURE), 3, true)
  {
    PairRunStep(a, b, FAILURE, PENDING, FAILURE, FAILURE, 2, clock, deadline, options, listForRef);
  }

  /** Rounds 1 and 2 of the second test, generalised: `a` fails, then `b`. */
  lemma TwoChecksSecondRound(options: Options, listForRef: Transport, clock: seq<int>, deadline: int, a: string, b: string)
    requires a != b
    requires 2 < |clock| && ClockPassesDeadline(clock, deadline) && clock[1] <= deadline && clock[2] <= deadline
    requires Reported(listForRef, options, 1, a, FAILURE) && !Answered(listForRef, options, 1, b)
    requires !Answered(listForRef, options, 2, a) && Reported(listForRef, options, 2, b, FAILURE)
    ensures RunFrom(Pair(a, b, PENDING, PENDING), 1, clock, deadline, options, listForRef) == Run(Pair(a, b, FAILURE, FAILURE), 3, true)
  {
    PairRunStep(a, b, PENDING, PENDING, FAILURE, PENDING, 1, clock, deadline, options, listForRef);
    TwoChecksThirdRound(options, listForRef, clock, deadline, a, b);
  }

  /** The whole loop of the second test, generalised: three rounds, ending with both checks failed. */
  lemma TwoChecksFirstRound(options: Options, listForRef: Transport, clock: seq<int>, a: string, b: string)
    requires a != b && CheckNamesAsList(options.checkNames) == [a, b]
    requires |clock| > 2 && ClockPassesDeadline(clock, Deadline(options, clock[0]))
    requires clock[0] <= Deadline(options, clock[0]) && clock[1] <= Deadline(options, clock[0]) && clock[2] <= Deadline(options, clock[0])
    requires !Answered(listForRef, options, 0, a) && !Answered(listForRef, options, 0, b)
    requires Reported(listForRef, options, 1, a, FAILURE) && !Answered(listForRef, options, 1, b)
    requires !Answered(listForRef, options, 2, a) && Reported(listForRef, options, 2, b, FAILURE)
    ensures PollRun(options, listForRef, clock) == Run(Pair(a, b, FAILURE, FAILURE), 3, true)
  {
    var deadline := Deadline(options, clock[0]);
    var t0 := Pair(a, b, PENDING, PENDING);
    assert PollRun(options, listForRef, clock) == RunFrom(t0, 0, clock, deadline, options, listForRef) by {
      InitialPair(a, b);
    }
    assert RunFrom(t0, 0, clock, deadline, options, listForRef) == RunFrom(t0, 1, clock, deadline, options, listForRef) by {
      PairRunStep(a, b, PENDING, PENDING, PENDING, PENDING, 0, clock, deadline, options, listForRef);
    }
    TwoChecksSecondRound(options, listForRef, clock, deadline, a, b);
  }

  /**
    Two checks `a` and `b`: neither is answered in round 0, `a` is reported
    failed in round 1 while `b` is not answered, and in round 2 `a` is not
    answered and `b` is reported failed. If the deadline has not passed before
    any of these rounds, the loop stops after round 2 with the verdict failure.
   */
  lemma TwoChecksFailInTurn(options: Options, listForRef: Transport, clock: seq<int>, a: string, b: string)
    requires a != b && CheckNamesAsList(options.checkNames) == [a, b]
    requires |clock| > 2 && ClockPassesDeadline(clock, Deadline(options, clock[0]))
    requires clock[0] <= Deadline(options, clock[0]) && clock[1] <= Deadline(options, clock[0]) && clock[2] <= Deadline(options, clock[0])
    requires !Answered(listForRef, options, 0, a) && !Answered(listForRef, options, 0, b)
    requires Reported(listForRef, options, 1, a, FAILURE) && !Answered(listForRef, options, 1, b)
    requires !Answered(listForRef, options, 2, a) && Reported(listForRef, options, 2, b, FAILURE)
    ensures var run := PollRun(options, listForRef, clock);
      && run.checkMap == Pair(a, b, FAILURE, FAILURE)
      && run.resolved && run.rounds == 3
      && Verdict(run.checkMap) == FAILURE
  {
    TwoChecksFirstRound(options, listForRef, clock, a, b);
    var t3 := Pair(a, b, FAILURE, FAILURE);
    assert t3.values[t3.keys[0]] == FAILURE;
  }

  /** The answers of the second test to each of its six queries. */
  lemma PollsUntilCompletedAnswers()
    ensures !Answered(PollsUntilCompleted, TestOptions, 0, "test") && !Answered(PollsUntilCompleted, TestOptions, 0, "test1")
    ensures Reported(PollsUntilCompleted, TestOptions, 1, "test", FAILURE) && !Answered(PollsUntilCompleted, TestOptions, 1, "test1")
    ensures !Answered(PollsUntilCompleted, TestOptions, 2, "test") && Reported(PollsUntilCompleted, TestOptions, 2, "test1", FAILURE)
  {
    assert |"test"| != |"test1"|;
    var pending1, pending2 := [CheckRun("1", PENDING, "")], [CheckRun("2", PENDING, "")];
    assert pending1[0].status != COMPLETED && pending2[0].status != COMPLETED;
    assert CompletedIndex(pending1) == 1 && CompletedIndex(pending2) == 1;
  }

  /**
    When the deadline has not passed by the third round, the loop runs three
    rounds, makes six calls with two sleeps between them, and the verdict is
    failure; the pending answer for "test" in round 2 does not undo its
    earlier failure.
   */
  lemma PollsUntilCheckIsCompleted(clock: seq<int>)
    requires |clock| > 2 && ClockPassesDeadline(clock, Deadline(TestOptions, clock[0]))
    requires clock[1] <= Deadline(TestOptions, clock[0]) && clock[2] <= Deadline(TestOptions, clock[0])
    ensures var run := PollRun(TestOptions, PollsUntilCompleted, clock);
      && Verdict(run.checkMap) == FAILURE
      && run.resolved && run.rounds == 3 && Sleeps(run) == 2
      && Repeat(RoundQueries(TestOptions, run.checkMap.keys), run.rounds) == TestQueries + TestQueries + TestQueries
  {
    TestNames();
    TestRoundQueries();
    PollsUntilCompletedAnswers();
    assert "test" != "test1" by {
      assert |"test"| != |"test1"|;
    }
    TwoChecksFailInTurn(TestOptions, PollsUntilCompleted, clock, "test", "test1");
    RepeatThree(TestQueries);
  }

  // ----- 'returns timed_out if exceeding deadline' -----

  /** Every query is answered with a single pending run. */
  function AlwaysPending(r: nat, q: Query): seq<CheckRun>
  {
    [CheckRun("1", PENDING, "")]
  }

  /** No such answer holds a completed run. */
  lemma AlwaysPendingNeverAnswers(r: nat, name: string)
    ensures !Answered(AlwaysPending, TestOptions, r, name)
  {
    var runs := AlwaysPending(r, QueryFor(TestOptions, name));
    assert runs[0].status != COMPLETED;
    assert CompletedIndex(runs) == 1;
  }

  /** With every answer pending, the loop runs until the deadline passes and the verdict is timed out. */
  lemma TimesOutIfExceedingDeadline(clock: seq<int>)
    requires |clock| > 0 && ClockPassesDeadline(clock, Deadline(TestOptions, clock[0]))
    ensures var run := PollRun(TestOptions, AlwaysPending, clock);
      && !run.resolved && run.rounds < |clock| && clock[run.rounds] > Deadline(TestOptions, clock[0])
      && Verdict(run.checkMap) == TIMED_OUT
  {
    TestNames();
    assert "test" in CheckNamesAsList(TestOptions.checkNames);
    forall r: nat ensures !Answered(AlwaysPending, TestOptions, r, "test") {
      AlwaysPendingNeverAnswers(r, "test");
    }
    forall r: nat, k ensures !Reported(AlwaysPending, TestOptions, r, k, FAILURE) {
      AlwaysPendingNeverAnswers(r, k);
    }
    NeverCompletedCheck(TestOptions, AlwaysPending, clock, "test");
  }
}
