# wait-for-check: the poll loop, verified

A Dafny model of the core of a GitHub Action that waits for named check runs on
a commit. `poll` takes a comma-separated list of check names:

- It tracks every name as `pending`.
- Each round queries the check-run listing once per tracked name, in insertion order.
- A name takes the conclusion of the first completed run returned for it.
- It sleeps between rounds until nothing is pending or the deadline
  (`start + timeoutSeconds * 1000`) has passed.
- It reduces the map to one verdict: `failure` if any check failed, otherwise
  `timed_out` if any is still pending, otherwise `success`.

Files:

- `wrappers.dfy`: `Option`.
- `check_names.dfy`: the check-name parser (`checkNamesAsList`) and the
  comma split/join it is proved against.
- `ordered_maps.dfy`: a JavaScript `Map` of strings as a value. `keys` holds the
  insertion order and `values` the contents. `Set` overwrites an existing key in
  place and appends a new one.
- `poll_spec.dfy`: the loop as functions. Key ones:
  - `Initial`: the map set-up.
  - `Round`: one pass of queries.
  - `CountPending`: the pending count.
  - `RunFrom` / `PollRun`: the `while (now <= deadline)` loop.
  - `Verdict`: the final reduction.
- `poll.dfy`: `poll` as imperative methods with loops, each block of the source
  proved equal to its specification function.
- `poll_properties.dfy`: what the loop promises, proved about the functions.
- `poll_scenarios.dfy`: the three unit-test scenarios, stated as lemmas about
  the model.

The environment becomes explicit inputs:

- The transport (`client.rest.checks.listForRef`) is a function from a round
  number and a query to the list of check runs it returns.
- The clock is a sequence of readings. `clock[0]` is the reading taken before
  the deadline is computed, and `clock[r]` is the reading after the `r`-th sleep.
  The only requirement is that the last reading is past the deadline
  (`ClockPassesDeadline`). This is what makes the loop finite in the model.
  The readings need not be non-decreasing. A clock whose last reading is not
  past the deadline is outside the model, even if an earlier reading already
  stops the loop.
- `sleep` calls are returned as the list of durations requested.
- `listForRef` calls are returned as the list of queries issued.

Three behaviours of the code that a reader might not expect:

- **Empty segments are kept.** The code splits on every comma, so `"a,,b"`
  gives the three names `a`, `""` and `b`, and `""` is tracked like any other
  name.
- **Duplicate names collapse.** The parser keeps duplicates, and the `Map`
  merges them into one entry at the position of the first occurrence
  (`InitialShape`).
- **A zero timeout still runs a round.** The deadline is computed from the
  same reading as the first loop test. So with `timeoutSeconds` zero one round
  always runs, and rounds are skipped only for a negative timeout
  (`DeadlineAlreadyPassed`).

## Model

| member | source | states |
|---|---|---|
| CheckNames.CheckNamesAsList | src/poll.ts:16-22 | empty input gives no names; comma-free input gives itself as the only name; otherwise there is one name per comma plus one, none containing a comma, and joining them with commas gives back the input |
| CheckNames.SplitJoin | src/poll.ts:21 | joining the comma segments of any string with commas gives back the string |
| CheckNames.JoinSplit | src/poll.ts:21 | splitting the comma-join of at least one comma-free name gives back exactly those names |
| CheckNames.NoCommaSplit | src/poll.ts:19 | a comma-free string is its own single segment, so the early return agrees with the split |
| CheckNames.CheckNamesAsListIsSplit | src/poll.ts:17-21 | for non-empty input the parser's result is the comma split |
| CheckNames.ParseIsUnique | src/poll.ts:16-22 | for non-empty input, a list of comma-free names parses from it exactly when the names joined with commas equal it |
| CheckNames.Split | src/poll.ts:21 | `split(',')` gives one segment per comma plus one, and no segment contains a comma |
| CheckNames.SplitAfterPrefix | src/poll.ts:21 | a comma-free prefix is glued onto the first segment of what follows |
| OrderedMaps.OrderedMap.Set | src/poll.ts:44 | `Map.set` keeps the map well formed; the key maps to the new value and every other entry is unchanged; an existing key keeps its position and a new key is appended |
| OrderedMaps.Empty | src/poll.ts:42 | `new Map()` has no keys and no entries |
| PollSpec.Initial | src/poll.ts:42-45 | `new Map()` followed by `set(name, 'pending')` for each name is a well-formed map; its contents and key order are stated by `InitialShape` |
| PollSpec.FindCompleted | src/poll.ts:66-68 | `find` on `status === 'completed'` finds nothing exactly when no run is completed, and otherwise returns a completed run with no completed run before it |
| PollSpec.Observed | src/poll.ts:66-78 | the value after one answer: the old value when no run is completed, otherwise the conclusion of the first completed run |
| PollSpec.Observe | src/poll.ts:66-78 | the queried key takes the conclusion of the first completed run, or keeps its value when none is completed; keys, order and every other entry are unchanged |
| PollSpec.CompletedIndex | src/poll.ts:66-68 | the index found is that of a completed run with no completed run before it, or the length of the list when none is completed |
| PollSpec.Round | src/poll.ts:51-79 | one round keeps the map well formed with the same keys in the same order |
| PollSpec.RoundQueries | src/poll.ts:55-60 | a round issues one query per key, in key order, with the key as check name and the options' owner, repo and ref |
| PollSpec.PendingIn | src/poll.ts:81-88 | the pending count over a list of keys is at most the number of keys; its zero test is `PendingZero` |
| PollSpec.CountPending | src/poll.ts:81-88 | the pending count of the map is at most the number of tracked checks |
| PollSpec.Verdict | src/poll.ts:98-111 | the verdict is one of success, failure and timed out; it is failure exactly when some entry failed, and timed out exactly when none failed and some entry is pending, so success means no entry failed or is pending |
| PollSpec.Deadline | src/poll.ts:37 | the deadline is not before the start reading exactly when the timeout is not negative |
| PollSpec.PollRun | src/poll.ts:36-96 | the run of `poll`'s loop from the parsed, initialised map ends with a well-formed map with the initial keys in the initial order, and a run that breaks has done at least one round |
| PollSpec.Sleeps | src/poll.ts:90-94 | one sleep per round, except that a round that breaks with nothing pending does not sleep |
| PollSpec.RunFrom | src/poll.ts:50-96 | the loop never changes the key set or order, and a run that ends resolved has done at least one round |
| Poll.InitialiseMap | src/poll.ts:42-45 | the `for` loop of `set(name, 'pending')` builds the specification map `Initial` of the names |
| Poll.QueryRound | src/poll.ts:51-79 | the loop over `checkMap.entries()` yields the map of `Round` and issues the queries of `RoundQueries`, in order |
| Poll.CountPendingKeys | src/poll.ts:81-88 | the counting loop returns the number of keys still pending |
| Poll.Reduce | src/poll.ts:98-111 | the two return loops give the verdict of `Verdict`: failure first, then timed out, then success |
| Poll.PollRounds | src/poll.ts:50-96 | the deadline loop ends with the specification's final map, issues each round's queries once per completed round, and sleeps `intervalSeconds * 1000` after every round except one that broke with nothing pending |
| Poll.Poll | src/poll.ts:24-112 | the whole of `poll`: the verdict of the final map of `PollRun`, together with the queries issued and the sleeps made |
| PollProperties.InitialShape | src/poll.ts:42-45 | the initial map holds exactly the parsed names, all pending, its keys in the order of each name's first occurrence |
| PollProperties.InitialContents | src/poll.ts:42-45 | the initial map's entries are exactly the names, each pending |
| PollProperties.InitialOrder | src/poll.ts:42-45 | the initial keys are drawn from the names and ordered by first occurrence |
| PollProperties.OrderAppend | src/poll.ts:43-44 | one more `set` of a name keeps the first-occurrence order, and appends the name only if it is new |
| PollProperties.RoundValue | src/poll.ts:51-79 | after a round over distinct keys, each queried key holds the conclusion of the first completed run its query returned (or its old value if none) and every other key keeps its value |
| PollProperties.RoundNeverRevertsToPending | src/poll.ts:69-78 | a concluded key never becomes pending again in a round unless the transport itself reports the conclusion "pending" |
| PollProperties.RoundAllReported | src/poll.ts:66-75 | if every key's query returns a completed run with one conclusion, the round leaves every key with that conclusion |
| PollProperties.PendingZero | src/poll.ts:81-88 | the pending count over a key list is zero exactly when no listed key is pending |
| PollProperties.CountPendingZero | src/poll.ts:81-90 | the loop breaks (count zero) exactly when no entry is pending |
| PollProperties.PendingAfterRound | src/poll.ts:66-78 | unless the transport reports "pending" as a conclusion, a key is pending after a round exactly when it was pending before and its query got no completed run |
| PollProperties.RoundsWithinDeadline | src/poll.ts:50 | every round ran at a clock reading within the deadline, and the run stops before the readings run out |
| PollProperties.StopRule | src/poll.ts:50-90 | the loop ends either by the break, with nothing pending, or because the current reading is past the deadline |
| PollProperties.DeadlineExit | src/poll.ts:50-96 | an exit on the deadline after at least one round leaves something pending; an exit before any round leaves the map untouched |
| PollProperties.FinalValue | src/poll.ts:50-96 | each key ends either with its starting value, when no round returned a completed run for it, or with the conclusion of the last round that did (last write wins) |
| PollProperties.LastWriteStep | src/poll.ts:51-79 | the last-write description of a key survives prepending one earlier round |
| PollProperties.KeysNeverChange | src/poll.ts:42-96 | the final map has the initial keys, distinct, in the same order, and its entries are exactly the parsed names |
| PollProperties.PollCalls | src/poll.ts:50-79 | the transport is called once per key per round, cycling through the keys in order with the options' owner, repo and ref |
| PollProperties.FailureCameFromTransport | src/poll.ts:66-75 | a failure verdict means some parsed name ends failed, and some round's completed run for it reported failure |
| PollProperties.TimedOutMeansDeadlinePassed | src/poll.ts:50-109 | a timed-out verdict means the loop stopped on the deadline, with some entry pending and none failed |
| PollProperties.SuccessMeansAllConcluded | src/poll.ts:81-111 | a success verdict means no entry is pending or failed, and with a non-empty name list the loop ended by the break |
| PollProperties.PendingAtEnd | src/poll.ts:81-96 | an entry still pending at the end means the loop stopped on the deadline, not by the break |
| PollProperties.DeadlineExitLeavesPending | src/poll.ts:50-96 | with a non-empty name list, a loop that did not break leaves some entry pending |
| PollProperties.EmptyCheckNames | src/poll.ts:24-112 | an empty name list issues no query, does not sleep, runs one round when the timeout is not negative (none otherwise), and yields success |
| PollProperties.DeadlineAlreadyPassed | src/poll.ts:36-50 | a negative timeout runs no round and yields timed out, or success for an empty name list; a timeout of at least zero runs at least one round |
| PollProperties.AllSucceeded | src/poll.ts:81-111 | a map whose every entry is success has pending count zero and verdict success |
| PollProperties.FirstRoundAllSucceed | src/poll.ts:50-111 | if every name's first query returns a successful completed run, poll breaks after one round with success |
| PollProperties.NeverCompletedCheck | src/poll.ts:50-109 | a name that never gets a completed run keeps the loop going until the deadline, so the verdict is never success, and it is timed out when no run ever reports failure |
| PollProperties.PendingUntilAnswered | src/poll.ts:50-96 | unless the transport reports "pending" as a conclusion, a key ends pending exactly when it started pending and no round gave it a completed run |
| PollProperties.PendingContinues | src/poll.ts:81-96 | a round followed by another passes that characterisation back one round |
| PollProperties.PendingResolves | src/poll.ts:81-90 | a round that breaks the loop satisfies that characterisation |
| PollProperties.PendingUntilCompleted | src/poll.ts:42-96 | for a parsed name, unless the transport reports "pending" as a conclusion, the name ends pending exactly when no round of the run gave it a completed run |
| PollProperties.RepeatIndex | src/poll.ts:50-79 | the `c`-th call of the repeated round queries is query `c mod n` of the round |
| PollScenarios.TestNames | __tests__/poll.test.ts:15 | the test's `'test,test1'` parses to `test`, `test1` |
| PollScenarios.TestKeys | __tests__/poll.test.ts:11-21 | the test's initial map is `test` then `test1`, both pending |
| PollScenarios.ReturnsConclusionOfCompletedCheck | __tests__/poll.test.ts:23-49 | with every query answered by a pending run followed by a successful completed run, poll returns success after one round, does not sleep, and queries `test` then `test1` with the test's owner, repo and ref |
| PollScenarios.TwoChecksFailInTurn | __tests__/poll.test.ts:51-120 | two checks unanswered in round 0, the first failing in round 1 and the second in round 2, end resolved after three rounds with both failed and verdict failure |
| PollScenarios.PollsUntilCheckIsCompleted | __tests__/poll.test.ts:51-120 | with the test's six answers in call order, poll returns failure after three rounds and two sleeps, having made six calls |
| PollScenarios.TimesOutIfExceedingDeadline | __tests__/poll.test.ts:122-137 | with every query answered by a pending run only, poll stops on the deadline and returns timed out |
| PollScenarios.RoundPair | src/poll.ts:51-79 | one round over two distinct keys updates each from its own query |
| PollScenarios.PairRunStep | src/poll.ts:50-96 | one loop step over two keys either breaks with both concluded or continues with the updated pair |

## Left out

- Logging (`log`, lines 40, 52-54, 62-64, 70-72, 77, 83, 92, 104-106): it only
  observes and nothing depends on it.
- The `client` and `log` fields of `Options`: the client becomes the transport
  function, and the log is not modelled.
- `async`/`await`: the model is sequential. One round completes before the next
  begins, as the awaited calls ensure in the source.
- Transport errors: a rejected `listForRef` aborts `poll` in the source. The
  transport here is total and always answers.
- A completed run whose conclusion is `null`: conclusions are strings, because
  the source asserts non-null on completed runs (line 75).
- Real time: `Date().getTime()` and `wait` become the clock readings and
  the returned sleep durations. `ClockPassesDeadline` is a requirement of the
  model, not of the source, whose loop could run forever on a clock that
  never advances.
- JavaScript numbers: `timeoutSeconds` and `intervalSeconds` are integers,
  so fractional seconds are not modelled.
- The `wait` helper (src/wait.ts) is not part of this model.
