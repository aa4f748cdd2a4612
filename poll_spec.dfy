/**
  The poll loop and aggregator of src/poll.ts, stated as functions: what one
  round does to the tracking map, when the loop stops, and how the final map is
  reduced to one verdict. The methods of module Poll are proved against these.
 */
module PollSpec {
  import opened Wrappers
  import opened OrderedMaps
  import opened CheckNames

  const PENDING := "pending"
  const FAILURE := "failure"
  const SUCCESS := "success"
  const TIMED_OUT := "timed_out"
  const COMPLETED := "completed"

  /** The tracking map: check name to its outcome, in insertion order. */
  type CheckMap = OrderedMap<string, string>

  /** One check-run record as the transport returns it. */
  datatype CheckRun = CheckRun(id: string, status: string, conclusion: string)

  /** The arguments of one `listForRef` call. */
  datatype Query = Query(checkName: string, owner: string, repo: string, ref: string)

  /** The fields of `Options` that are plain data (time in seconds). */
  datatype Options = Options(
    checkNames: string,
    timeoutSeconds: int,
    intervalSeconds: int,
    owner: string,
    repo: string,
    ref: string)

  /**
    The transport: the check runs it answers to a query issued in a given round
    (rounds numbered from 0).
   */
  type Transport = (nat, Query) -> seq<CheckRun>

  function QueryFor(options: Options, name: string): Query
  {
    Query(name, options.owner, options.repo, options.ref)
  }

  /** The queries of one round over `ks`, in order. */
  function RoundQueries(options: Options, ks: seq<string>): (qs: seq<Query>)
    ensures |qs| == |ks|
    ensures forall i :: 0 <= i < |ks| ==> qs[i] == QueryFor(options, ks[i])
  {
    if ks == [] then [] else RoundQueries(options, ks[..|ks| - 1]) + [QueryFor(options, ks[|ks| - 1])]
  }

  /** `s` repeated `n` times. */
  function Repeat<T>(s: seq<T>, n: nat): seq<T>
  {
    if n == 0 then [] else Repeat(s, n - 1) + s
  }

  /** Position of the first completed run (`|runs|` if there is none). */
  function CompletedIndex(runs: seq<CheckRun>): (i: nat)
    ensures i <= |runs|
    ensures i < |runs| ==> runs[i].status == COMPLETED
    ensures forall j :: 0 <= j < i ==> runs[j].status != COMPLETED
  {
    if runs == [] then 0
    else if runs[0].status == COMPLETED then 0
    else 1 + CompletedIndex(runs[1..])
  }

  /** `check_runs.find(checkRun => checkRun.status === 'completed')`. */
  function FindCompleted(runs: seq<CheckRun>): (found: Option<CheckRun>)
    ensures found.None? <==> forall i :: 0 <= i < |runs| ==> runs[i].status != COMPLETED
    ensures found.Some? ==>
      exists i :: (0 <= i < |runs| && runs[i] == found.value && runs[i].status == COMPLETED
        && forall j :: 0 <= j < i ==> runs[j].status != COMPLETED)
  {
    var i := CompletedIndex(runs);
    if i < |runs| then Some(runs[i]) else None
  }

  /** The value a key holds after its query was answered with `runs`. */
  function Observed(prior: string, runs: seq<CheckRun>): (v: string)
    ensures (forall i :: 0 <= i < |runs| ==> runs[i].status != COMPLETED) ==> v == prior
    ensures forall i ::
      (0 <= i < |runs| && runs[i].status == COMPLETED && forall j :: 0 <= j < i ==> runs[j].status != COMPLETED)
        ==> v == runs[i].conclusion
  {
    match FindCompleted(runs)
    case None => prior
    case Some(run) => run.conclusion
  }

  /** The update of one key after its query was answered with `runs`. */
  function Observe(t: CheckMap, key: string, runs: seq<CheckRun>): (next: CheckMap)
    requires t.Valid() && key in t.values
    ensures next.Valid() && next.keys == t.keys && next.values.Keys == t.values.Keys
    ensures next.values[key] == Observed(t.values[key], runs)
    ensures forall k :: k in t.values && k != key ==> next.values[k] == t.values[k]
  {
    match FindCompleted(runs)
    case None => t
    case Some(run) => t.Set(key, run.conclusion)
  }

  /** The map after the queries of round `round` for the keys `ks`, in order. */
  function Round(t: CheckMap, ks: seq<string>, round: nat, options: Options, listForRef: Transport): (next: CheckMap)
    requires t.Valid()
    requires forall i :: 0 <= i < |ks| ==> ks[i] in t.values
    ensures next.Valid() && next.keys == t.keys && next.values.Keys == t.values.Keys
    decreases |ks|
  {
    if ks == [] then t
    else
      var last := ks[|ks| - 1];
      Observe(Round(t, ks[..|ks| - 1], round, options, listForRef), last, listForRef(round, QueryFor(options, last)))
  }

  /** Extending the keys done in a round by one more key. */
  lemma RoundStep(t: CheckMap, ks: seq<string>, i: nat, round: nat, options: Options, listForRef: Transport)
    requires t.Valid()
    requires forall j :: 0 <= j < |ks| ==> ks[j] in t.values
    requires i < |ks|
    ensures Round(t, ks[..i + 1], round, options, listForRef)
         == Observe(Round(t, ks[..i], round, options, listForRef), ks[i], listForRef(round, QueryFor(options, ks[i])))
    ensures RoundQueries(options, ks[..i + 1]) == RoundQueries(options, ks[..i]) + [QueryFor(options, ks[i])]
  {
    assert ks[..i + 1][..i] == ks[..i];
  }

  /** Number of keys among `ks` whose value is still pending. */
  function PendingIn(ks: seq<string>, values: map<string, string>): (n: nat)
    requires forall i :: 0 <= i < |ks| ==> ks[i] in values
    ensures n <= |ks|
  {
    if ks == [] then 0
    else PendingIn(ks[..|ks| - 1], values) + (if values[ks[|ks| - 1]] == PENDING then 1 else 0)
  }

  function CountPending(t: CheckMap): (n: nat)
    requires t.Valid()
    ensures n <= |t.keys|
  {
    PendingIn(t.keys, t.values)
  }

  /** Some entry of the map holds `v`. */
  predicate Holds(t: CheckMap, v: string)
    requires t.Valid()
  {
    exists i :: 0 <= i < |t.keys| && t.values[t.keys[i]] == v
  }

  /** The final reduction: a failure beats everything, then pending means timed out. */
  function Verdict(t: CheckMap): (r: string)
    requires t.Valid()
    ensures r in {SUCCESS, FAILURE, TIMED_OUT}
    ensures r == FAILURE <==> exists k :: k in t.values && t.values[k] == FAILURE
    ensures r == TIMED_OUT <==>
      (forall k :: k in t.values ==> t.values[k] != FAILURE) && exists k :: k in t.values && t.values[k] == PENDING
  {
    if Holds(t, FAILURE) then FAILURE
    else if Holds(t, PENDING) then TIMED_OUT
    else SUCCESS
  }

  /** The map `new Map()` followed by `set(name, 'pending')` for each name. */
  function Initial(names: seq<string>): (t: CheckMap)
    ensures t.Valid()
  {
    if names == [] then Empty()
    else Initial(names[..|names| - 1]).Set(names[|names| - 1], PENDING)
  }

  /**
    How a run of the loop ended: the final map, how many rounds ran, and
    whether it left by the pending count reaching zero (rather than by the
    deadline passing).
   */
  datatype Run = Run(checkMap: CheckMap, rounds: nat, resolved: bool)

  /** The deadline fixed at the start, in milliseconds. */
  function Deadline(options: Options, start: int): (d: int)
    ensures start <= d <==> options.timeoutSeconds >= 0
  {
    start + options.timeoutSeconds * 1000
  }

  /** The clock readings last until the deadline has passed. */
  predicate ClockPassesDeadline(clock: seq<int>, deadline: int)
  {
    |clock| > 0 && clock[|clock| - 1] > deadline
  }

  /**
    The loop from round `round` on, with map `t`; `clock[round]` is the time
    read before that round's deadline test.
   */
  function RunFrom(t: CheckMap, round: nat, clock: seq<int>, deadline: int, options: Options, listForRef: Transport): (run: Run)
    requires t.Valid()
    requires round < |clock| && ClockPassesDeadline(clock, deadline)
    ensures run.checkMap.Valid() && run.checkMap.keys == t.keys && run.checkMap.values.Keys == t.values.Keys
    ensures round <= run.rounds && (run.resolved ==> round < run.rounds)
    decreases |clock| - round
  {
    if clock[round] > deadline then Run(t, round, false)
    else
      var next := Round(t, t.keys, round, options, listForRef);
      if CountPending(next) == 0 then Run(next, round + 1, true)
      else RunFrom(next, round + 1, clock, deadline, options, listForRef)
  }

  /** One unfolding of the loop when the deadline has not yet passed. */
  lemma RunStep(t: CheckMap, round: nat, clock: seq<int>, deadline: int, options: Options, listForRef: Transport)
    requires t.Valid()
    requires round < |clock| && ClockPassesDeadline(clock, deadline)
    requires clock[round] <= deadline
    ensures round + 1 < |clock|
    ensures RunFrom(t, round, clock, deadline, options, listForRef)
      == if CountPending(Round(t, t.keys, round, options, listForRef)) == 0
         then Run(Round(t, t.keys, round, options, listForRef), round + 1, true)
         else RunFrom(Round(t, t.keys, round, options, listForRef), round + 1, clock, deadline, options, listForRef)
  {
  }

  /** The whole loop of `poll`, from the parsed names to the final map. */
  function PollRun(options: Options, listForRef: Transport, clock: seq<int>): (run: Run)
    requires |clock| > 0 && ClockPassesDeadline(clock, Deadline(options, clock[0]))
    ensures run.checkMap.Valid()
    ensures run.checkMap.keys == Initial(CheckNamesAsList(options.checkNames)).keys
    ensures run.checkMap.values.Keys == Initial(CheckNamesAsList(options.checkNames)).values.Keys
    ensures run.resolved ==> 0 < run.rounds
  {
    RunFrom(Initial(CheckNamesAsList(options.checkNames)), 0, clock, Deadline(options, clock[0]), options, listForRef)
  }

  /** Number of sleeps: every round sleeps except one that ends with nothing pending. */
  function Sleeps(run: Run): (n: nat)
    requires run.resolved ==> 0 < run.rounds
    ensures n <= run.rounds <= n + 1
    ensures n == run.rounds <==> !run.resolved
  {
    if run.resolved then run.rounds - 1 else run.rounds
  }
}
