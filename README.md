# oc-stress, modelled in Dafny

oc-stress is a stress-testing driver for OpenShift. A JSON configuration
names deployment configs (the `Images` section) and tests: named lists of
actions. There are two kinds of action:

- `scale` runs `oc scale --replicas=N dc/<image>` and then polls
  `oc get dc/<image>` until the DESIRED and CURRENT columns of the
  deployment's row agree.
- `pause` sleeps for a duration.

The tests run one after the other, and the actions of a test in order. A
failing action is logged and does not stop the run. Every deployment scaled
above zero is sent on a channel to a log follower.

The project models that core in four modules:

- `common.dfy`:
  - `Results` holds the `Option` and `Result` wrappers.
  - `GoInts` holds Go's 32- and 64-bit integer ranges, and the 64-bit
    wrap-around of `int` arithmetic.
- `filter.dfy` (`Filter`) models line splitting and substring filtering
  from `filter.go`:
  - `split`, with its quirks, is an imperative method proved against a
    cursor-free specification.
  - A filter is a class over a sink. A sink models the receiving end of a Go
    channel: the lines sent so far, and whether it is closed.
  - `slurp` is a method that feeds and then closes every sink.
- `proc.dfy` (`Proc`) models convergence polling from `proc.go`:
  - the status check of the `oc get` table;
  - the bounded retry loop `retryCmd.run`;
  - the budget and the scale-then-poll sequence of `ocScale`.
- `stress.dfy` (`Stress`) models `main.go`:
  - the typed getters over an untyped option bag;
  - building actions and tests;
  - the sequential runner of `main`.

Commands are not executed. Each is replaced by a parameter:

- The success of `oc scale` is a boolean.
- The i-th `oc get` of a poll is `fetch(i)`, given as its output lines or as
  a failure to run. Each line carries the byte that follows it in the
  scanner's buffer.
- For `main`, the cluster's behaviour for action `i` of test `t` is
  `world(t, i)`.
- `time.ParseDuration` is the parameter `parse`.
- Sleeps are counted, not performed.
- The iteration order of Go's tests map is the parameter `order`.

A Go byte is a `char`, and `[]byte` and `string` are both `string`.

Where the prose description of the tool and the code differ, the model
follows the code:

- `ocStatusIsDesired` always skips the first line of the output as a header,
  even when no header is present. It never checks that line.
- `split` does not drop leading and trailing whitespace:
  - A separator at the very start of a line stays glued to the first word.
  - A line of two or more bytes that ends in a separator makes `split` take
    the slice `line[j:i]` with `i` one past the end of the line
    (filter.go:29). Go checks that slice against the capacity of the
    backing array, not against the length of the line. The status check
    passes `sc.Bytes()`, a window on the scanner's buffer, and in that
    buffer the row is followed by its newline. So at that call site the
    slice does not panic: the byte after the row becomes a one-byte last
    field. A row such as `svc 1 0 0 ` therefore has five fields, the fifth
    being a newline, and is checked like any other row. The model gives
    `split` that byte as the parameter `beyond`. Only a line with no spare
    capacity (`beyond` is None) would panic; the model calls that
    `OutOfRange`, and the status check never meets it.
- `main` does not check the error of `buildTests`. A failed build returns a
  nil map, so no test runs at all.
- `scaleAction.init` reports a missing image with an empty name. The failed
  map lookup has already overwritten the field that the message prints.

## Model

| member | source | states |
|---|---|---|
| `GoInts.Wrap64` | proc.go:52 | The result is a 64-bit value congruent to the input modulo 2^64, and equals the input when the input is in range; this is Go's `int` overflow |
| `Filter.IsSpaceExactly` | filter.go:34-36 | Exactly space, tab, vertical tab and newline are separators; carriage return and form feed are not |
| `Filter.TokensShape` | filter.go:13-29 | The runs `split` collects are never empty, and there are no more of them than bytes in the line |
| `Filter.SplitSpec` | filter.go:10-32 | Every word is non-empty, there is at most one word more than the line has bytes, and an empty line gives no words |
| `Filter.Split` | filter.go:10-32 | `split` equals `SplitSpec`: the maximal runs of non-separator bytes, where the first byte always starts a run; a line of two or more bytes that ends in a separator gains the byte after it (`beyond`) as a last word, and goes out of range only when there is no such byte |
| `Filter.SplitPanicsOnTrailingSeparator` | filter.go:28-30 | `split` goes out of range if and only if there is no byte after the line, the line has two or more bytes and its last byte is a separator; when that byte exists and the line ends in a separator, it is the last word |
| `Filter.SplitOfJoinedWithTrailingSeparator` | filter.go:17-30 | Well-formed words joined by separator runs and followed by a trailing separator run split into the words plus the one-byte word that follows the line |
| `Filter.SplitKeepsLeadingSeparator` | filter.go:13-20 | A leading separator is not dropped: it is prefixed to the first field of the rest of the line, and the other fields follow unchanged |
| `Filter.SplitLeadingSpaceExample` | filter.go:13-20 | `" a b"` splits into `" a"` and `"b"` |
| `Filter.SplitOfEmpty` | filter.go:12 | An empty line gives no words and does not go out of range, whatever follows it |
| `Filter.SplitOfWord` | filter.go:28-31 | A non-empty line without separators is one word, the whole line |
| `Filter.FieldsWellFormed` | filter.go:20 | The tokens of the specification are never empty and never contain a separator |
| `Filter.FieldsOfJoined` | filter.go:21-26 | Separator runs of any length between words disappear: splitting words joined by such runs gives back the words |
| `Filter.SplitIsFields` | filter.go:10-32 | On a line that neither starts nor ends with a separator, `split` gives exactly the whitespace-delimited fields |
| `Filter.SplitOfJoined` | filter.go:10-32 | Splitting well-formed words joined by any non-empty separator runs gives back exactly the words (split inverts join) |
| `Filter.SplitIdempotent` | filter.go:10-32 | On a line that neither starts nor ends with a separator, re-joining its fields with single spaces and splitting again gives the same fields |
| `Filter.SplitStatusRowExample` | filter_test.go:7-19 | The `oc get` row of the test, with its runs of spaces, splits into its five columns |
| `Filter.LineFilter.constructor` | filter.go:43-52 | `newFilter` keeps the patterns in order and the sink it is given |
| `Filter.Contains` | filter.go:59 | The empty pattern is contained in every line, and a contained pattern is no longer than the line |
| `Filter.MatchesAny` | filter.go:54-64 | A filter without patterns matches every line; a line that is itself one of the patterns matches; a match with patterns needs a pattern no longer than the line |
| `Filter.LineFilter.Matches` | filter.go:54-64 | True if and only if the filter has no pattern or the line contains one of its patterns as a contiguous run |
| `Filter.EmptyPatternMatchesAll` | filter.go:58-60 | An empty pattern in the list matches every line |
| `Filter.SelectedExactly` | filter.go:76-83 | A line is forwarded if and only if it is in the input and the filter matches it; a filter without patterns forwards the whole input in order |
| `Filter.Sink.Push` | filter.go:66-68 | A push appends the line to an open sink and leaves it open |
| `Filter.Sink.Close` | filter.go:70-72 | A close marks an open sink closed and keeps its lines |
| `Filter.Offer` | filter.go:77-82 | One input line is offered to every filter: each sink gains the line exactly when its filter matches it, and every sink stays open |
| `Filter.CloseAll` | filter.go:84-86 | Every sink is closed exactly once, and no sink's lines change |
| `Filter.Slurp` | filter.go:74-88 | After `slurp`, every sink is closed, and holds its earlier lines followed by exactly the input lines its filter matches, in input order |
| `Proc.CheckRows` | proc.go:107-123 | A hard failure names a row without five fields; a converged verdict comes from a row that names the deployment with DESIRED equal to CURRENT |
| `Proc.StatusIsDesired` | proc.go:100-125 | An output of at most one line asks for a retry; a failure names a data row (never the header) without five fields; convergence comes from a data row naming the deployment with DESIRED equal to CURRENT |
| `Proc.HeaderIgnored` | proc.go:102-107 | The first line is never examined: any header gives the same verdict as checking only the data rows |
| `Proc.EmptyListingRetries` | proc.go:102-123 | An empty output, or a header alone, asks for a retry |
| `Proc.FirstTargetDecides` | proc.go:107-119 | When every row before it is well formed, the first row naming the deployment decides: converged exactly when DESIRED equals CURRENT as strings, retry otherwise |
| `Proc.MalformedRowFails` | proc.go:108-111 | A row without five fields, met before the target row, fails with that row; it does not ask for a retry |
| `Proc.AbsentTargetRetries` | proc.go:107-123 | When no well-formed row names the deployment, the check asks for a retry |
| `Proc.ConvergedOnlyAtTarget` | proc.go:112-118 | A converged verdict comes only from a first target row whose DESIRED equals its CURRENT |
| `Proc.StatusOfOneRow` | proc.go:100-125 | A header plus one well-formed row converges exactly when the row names the deployment and DESIRED equals CURRENT; otherwise it retries |
| `Proc.TrailingSeparatorRow` | proc.go:107-119 | A row of four columns followed by whitespace gets the newline after it as its fifth column, and is then decided like a well-formed row: converged exactly when it names the deployment with DESIRED equal to CURRENT |
| `Proc.TrailingSpaceRowExample` | proc.go:108-118 | `svc 1 0 0 ` followed by its newline has five columns, the last a newline, and converges for `svc` |
| `Proc.StatusIsDesiredTestCases` | proc_test.go:8-29 | The three cases of the test: CURRENT 1 against DESIRED 0 retries, CURRENT 0 converges, and another deployment name retries |
| `Proc.Poll` | proc.go:24-40 | A success comes from an attempt within the budget that fetched an output the check found converged; an exhaustion reports the budget |
| `Proc.PollStopsAtFirstDecision` | proc.go:25-36 | The first attempt that does not ask for a retry ends the poll with its own result, after exactly that many fetches |
| `Proc.PollExhausts` | proc.go:25-39 | When every attempt asks for a retry, there are exactly `max` fetches (none when `max` <= 0) and the result is exhaustion |
| `Proc.PollShape` | proc.go:24-40 | Every poll stays within its budget; it is exhausted if and only if every attempt asked for a retry; otherwise its last attempt decided it and all earlier attempts were retries |
| `Proc.RetryRun` | proc.go:24-40 | The loop's result and fetch count are those of the poll specification, with one sleep after each retried attempt |
| `Proc.RetryBudgetAsWritten` | proc.go:50-53 | The budget as written is 10 when not scaling above zero, and otherwise congruent to ten times the replicas modulo 2^64 |
| `Proc.RetryBudget` | proc.go:50-53 | The budget is at least 10, and exactly ten attempts per replica when scaling above zero |
| `Proc.RetryBudgetMonotone` | proc.go:50-53 | Asking for more replicas never gives a smaller budget |
| `Proc.RetryBudgetAgrees` | proc.go:50-53 | The 64-bit budget as written equals the intended one whenever ten times the replica count fits in 64 bits |
| `Proc.RetryBudgetWraps` | proc.go:50-54 | For 922337203685477581 replicas the budget as written wraps to -9223372036854775806, and the poll then reports exhaustion without fetching once |
| `Proc.ReusedCommand` | proc.go:26 | Only the first attempt of the reused command can return output, and that output is the first listing |
| `Proc.ReusedCommandCannotRetry` | proc.go:25-28 | With the one `exec.Cmd` reused, a first attempt that retries is followed by a failure to run the command at the second attempt, whatever the budget |
| `Proc.ReusedCommandMissesConvergence` | proc.go:25-37 | For the same listings, independent fetches converge at the second attempt, while the reused command reports a failure to run |
| `Proc.ScaleOutcome` | proc.go:42-58 | A failed `oc scale` gives the scale error; success needs `oc scale` to succeed and some attempt within the budget to see the deployment converged; a poll error is reported only after a successful `oc scale` |
| `Proc.OcScale` | proc.go:42-58 | A failed `oc scale` is reported without polling. Otherwise the result is the poll's result under the budget, with no more fetches than the budget |
| `Proc.SvcRowStatus` | proc.go:107-119 | A single-space row converges exactly for its own deployment with DESIRED equal to CURRENT |
| `Proc.ConvergesOnSecondPoll` | proc.go:24-40 | A listing that lags once and then agrees converges after two fetches |
| `Proc.AbsentTargetExhausts` | proc.go:50-54 | A deployment that never appears uses the whole budget and ends in exhaustion |
| `Proc.MalformedRowStopsPoll` | proc.go:108-111 | A four-field row ends the poll at the first attempt with a verify failure that names the row |
| `Stress.GetString` | main.go:24-34 | Succeeds if and only if the key is present with a string value, and returns that value. A missing key gives "not found"; any other type gives "not a string" |
| `Stress.ParseInt32` | main.go:62 | A string is accepted only when it is non-empty and, after one optional sign, all decimal digits |
| `Stress.DigitsRoundTrip` | main.go:62 | The decimal rendering of a natural number is a non-empty digit string that reads back as the number |
| `Stress.ParseNonNegative` | main.go:62 | The rendering of a natural number parses to it exactly when it is at most 2^31 - 1 |
| `Stress.ParseNegative` | main.go:62 | A minus sign before the rendering of `m` parses to `-m` exactly when `-m` is at least -2^31 |
| `Stress.LeadingZero` | main.go:62 | A leading zero does not change the value of a digit string |
| `Stress.ParseFormatRoundTrip` | main.go:62 | Parsing the decimal rendering of `n` with `ParseInt(s, 10, 32)` gives back `n` if and only if `n` fits in 32 bits |
| `Stress.ParseAcceptsPlusAndZeros` | main.go:62 | A leading `+` and a leading zero are accepted and do not change the value |
| `Stress.GetInt` | main.go:56-78 | A string is parsed as a decimal 32-bit integer; Go `int`, `int32` and `int64` values are accepted as they are; any other type, or an unparsable string, gives "not an integer"; a missing key gives "not found" |
| `Stress.GetIntOfFormatted` | main.go:61-66 | An integer given as a string is accepted exactly when it fits in 32 bits, with its value |
| `Stress.GetDuration` | main.go:36-54 | Succeeds if and only if the key holds a string that the duration parser accepts, and returns the parsed duration. Other errors: "not found", "not a duration string" |
| `Stress.ScaleInit` | main.go:105-122 | Succeeds if and only if "Pod" is a string naming a defined image and "Units" is an integer. The action scales the image's deployment to those units. A "Pod" that is missing or not a string is a bad "Pod" option; a "Pod" naming no image gives the image-not-defined error, shown with an empty name |
| `Stress.ScaleInitAcceptsNegativeUnits` | main.go:117-121 | Negative units are not rejected |
| `Stress.PauseInit` | main.go:139-146 | Succeeds if and only if "For" holds a parsable duration, which becomes the pause |
| `Stress.BuildAction` | main.go:154-172 | Succeeds if and only if "Action" is "scale" or "pause" and that action's `init` succeeds; the action is the one `init` built; any other action string is "invalid action type" |
| `Stress.BuiltTests` | main.go:174-188 | The tests of a successful build have the same names as the configuration, and each holds, position by position, the actions built from its option bags |
| `Stress.BuildTests` | main.go:174-188 | Succeeds if and only if every action of every test builds, and then returns exactly those tests. Otherwise it returns, with its test's name, the error of the first action of that test that fails to build |
| `Stress.ActionOutcome` | main.go:124-152 | Only a scale action above zero units that succeeded sends its deployment, and only that one; a pause sends nothing and never fails; a failed `oc scale` is the step's error |
| `Stress.RunScale` | main.go:124-133 | The deployment is sent on `up` exactly when the scale converged and the units are above zero. A failed scale returns "cannot run scale step" and sends nothing |
| `Stress.RunPause` | main.go:148-152 | A pause never fails, sends nothing, and sleeps for its duration |
| `Stress.RunAction` | main.go:243 | Running an action gives its specified outcome |
| `Stress.TestSteps` | main.go:242-246 | One step per action of the test, step `i` being action `i`'s outcome against its own cluster response |
| `Stress.RunTest` | main.go:242-246 | The inner loop produces the steps of the test in index order, and sends what those steps send |
| `Stress.RunTests` | main.go:240-248 | The outer loop runs the tests in map order, producing their steps one test after another; `up` receives exactly what the steps send, in order |
| `Stress.Schedule` | main.go:240-246 | Every scheduled step names a test of the order and an index within that test |
| `Stress.RunFollowsSchedule` | main.go:240-246 | The run is the schedule, step by step, each action run against its own cluster response |
| `Stress.ScheduleCovers` | main.go:240-246 | Every action of every listed test is scheduled |
| `Stress.ScheduleInIndexOrder` | main.go:240-246 | With each test listed once, two steps of the same test run in increasing index order, so no action runs twice |
| `Stress.EveryActionRuns` | main.go:243-245 | An error does not stop the suite: every action of every test runs, with its own outcome |
| `Stress.RunAll` | main.go:233-248 | When any action fails to build, nothing runs and nothing is sent. Otherwise the built tests run in map order, each test listed once; in both cases `up` receives exactly what the steps send |

## Left out

- `ocLogs`, `startLogReaders` and `logErrors` are not modelled. They start
  `oc logs -f` processes, goroutines and wait groups. Only the `slurp` they
  call is modelled.
- Concurrency and channel blocking are not modelled. A channel is a sink
  that records what is sent and whether it is closed. Blocking on a full
  `runningdc` buffer, goroutine interleaving and the wait for `errsDone` are
  not captured.
- Running processes is not modelled. `exec.Command`, `CombinedOutput` and
  process exit codes become a success flag, or fetches given as lines or as
  a failure with its output.
- Byte streams are not modelled. The output of `oc get` and the input of
  `slurp` are already split into lines. `bufio.Scanner` line breaking, its
  dropping of a trailing `\r`, its token-too-long error and the `sc.Err()`
  checks are not modelled.
- `Filter.Split`: the capacity of a line is reduced to whether one more
  byte follows it. A larger slice past the capacity is never taken by
  `split`, so nothing else about capacity matters.
- `Proc.CheckRows`: the byte after a row is taken to exist. In Go it is the
  row's newline or carriage return, or the stale buffer content after a
  last row without a terminator. A last row that ends in whitespace and
  exactly fills the scanner's buffer would make `split` panic. That panic
  would end the program, and it is not modelled.
- `Stress.RunTest`: a Go panic inside an action would end the program. No
  modelled action panics, so the run never stops early; the panic of a row
  that fills the scanner's buffer is left out (see `Proc.CheckRows`).
- `Stress.RunTests`: as for `Stress.RunTest`, a panic that ends the
  program part-way through the tests is not modelled.
- `Stress.RunAll`: as for `Stress.RunTest`, a panic that ends the program
  part-way through the tests is not modelled.
- `Filter.Slurp`: the error `slurp` returns from `sc.Err()` is not
  modelled, because the model has no reader that can fail.
- `Filter.Slurp`: a shared sink is not modelled. It requires pairwise
  distinct sinks, because Go would panic when closing a shared channel a
  second time.
- `Stress.GetDuration`: `time.ParseDuration` is a parameter. Its syntax and
  its 64-bit nanosecond range are not part of this model.
- `Stress.GetInt`: the error of `strconv.ParseInt` is one outcome here. Go
  distinguishes a syntax error from a range error, but both become the same
  "not an integer" error here.
- `Stress.GetInt`: only the Go types the getter tests are told apart. JSON
  numbers decode to `float64` and are therefore always "not an integer".
- Error texts are not modelled. Errors are constructors carrying the
  values they would show, not formatted strings. Log lines are not modelled.
- Program startup is not modelled: flag parsing, opening the file, JSON
  decoding and the comment-stripping reader. `RunAll` starts from the
  decoded `Images` and `Tests`.
- The unused `options` struct, and `config`'s other fields, are not
  modelled.
- Go's map iteration order is a parameter, `order`. Go randomises it.
- `Proc.RetryRun`: a sleep is counted rather than performed, and its
  duration (one second) is not recorded.

## Findings

| source | as written | input that shows it | evidently intended | confidence | as-written member | corrected member |
|---|---|---|---|---|---|---|
| proc.go:50-53 | The poll budget `replicas * 10` is computed in Go's 64-bit `int` and wraps around | `replicas = 922337203685477581` gives the budget -9223372036854775806, and the poll ends at once without one `oc get` | Ten attempts per replica, never negative | not executed; not reachable from a JSON configuration, whose string integers are 32-bit and whose numbers decode as `float64` | `Proc.RetryBudgetWraps` (with `Proc.RetryBudgetAsWritten`) | `Proc.RetryBudget`, with `Proc.RetryBudgetMonotone` and `Proc.RetryBudgetAgrees`; `Proc.OcScale` uses it |
| proc.go:26 | `retryCmd.run` calls `CombinedOutput` on the same `exec.Cmd` at every attempt. Go refuses a second call on a command whose `Stdout` is already set, so every attempt after the first fails to run | A first listing with CURRENT 1 against DESIRED 0, then one with both 0: the poll fails with "could not run command" at the second attempt instead of converging | A fresh `oc get` at every attempt, so the poll converges at the second attempt | not executed; depends on the behaviour of Go's `os/exec` package, which is not part of this model | `Proc.ReusedCommandCannotRetry` (with `Proc.ReusedCommand`) | `Proc.RetryRun`, whose attempts fetch independently, with `Proc.ReusedCommandMissesConvergence` and `Proc.ConvergesOnSecondPoll` |
