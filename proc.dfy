/**
 * Convergence polling (proc.go): the check of `oc get dc/X`'s table, the
 * bounded retry loop around it, and `ocScale`'s scale-then-poll sequence.
 *
 * The `oc` commands are not run: the scale command is a success flag and
 * the i-th `oc get` of a poll is `fetch(i)`, its output already broken into
 * lines as the scanner hands them over. Sleeps are counted, not slept.
 */
module Proc {
  import opened Results
  import opened Filter
  import opened GoInts

  // ---------------------------------------------------------------------------
  // ocStatusIsDesired
  // ---------------------------------------------------------------------------

  /**
   * A line of command output as `bufio.Scanner` hands it over: a window on
   * the scanner's buffer holding `text`, followed in that buffer by the byte
   * `next` (the line's `\n`, the `\r` of a `\r\n`, or whatever the buffer
   * holds after a last line without terminator).
   */
  datatype Line = Line(text: string, next: char)

  /** `split(sc.Bytes())`: the slice has spare capacity, so `split` can read `next`. */
  function Columns(row: Line): seq<string> {
    SplitSpec(row.text, Some(row.next)).words
  }

  /** Why a status check failed other than by asking for a retry. */
  datatype Failure = MalformedRow(row: string)  // "expected 5 fields in line %q"

  /** What a `retryFn` returns: nil, the `errRunRetry` sentinel, or another error. */
  datatype Verdict = Converged | Retry | Failed(failure: Failure)

  /** The data rows of the table, after the header; the first row naming `pod` decides. */
  function CheckRows(pod: string, rows: seq<Line>): (v: Verdict)
    ensures v.Failed? ==> exists k :: 0 <= k < |rows| && |Columns(rows[k])| != 5 && v.failure == MalformedRow(rows[k].text)
    ensures v == Converged ==>
      exists k :: 0 <= k < |rows| && TargetRow(pod, rows[k]) && Columns(rows[k])[2] == Columns(rows[k])[3]
  {
    if rows == [] then Retry
    else
      var f := Columns(rows[0]);
      if |f| != 5 then Failed(MalformedRow(rows[0].text))
      else if f[0] != pod then CheckRows(pod, rows[1..])
      else if f[2] != f[3] then Retry
      else Converged
  }

  /** `ocStatusIsDesired(pod)` applied to the lines of the command output; line 0 is the header. */
  function StatusIsDesired(pod: string, output: seq<Line>): (v: Verdict)
    ensures |output| <= 1 ==> v == Retry
    ensures v.Failed? ==>
      exists k :: 1 <= k < |output| && |Columns(output[k])| != 5 && v.failure == MalformedRow(output[k].text)
    ensures v == Converged ==>
      exists k :: 1 <= k < |output| && TargetRow(pod, output[k]) && Columns(output[k])[2] == Columns(output[k])[3]
  {
    if output == [] then Retry
    else
      var v := CheckRows(pod, output[1..]);
      assert forall k :: 0 <= k < |output| - 1 ==> output[1..][k] == output[k + 1];
      v
  }

  /** A well-formed row (five fields) that names some other deployment. */
  predicate OtherRow(pod: string, row: Line) {
    |Columns(row)| == 5 && Columns(row)[0] != pod
  }

  /** A well-formed row that names `pod`. */
  predicate TargetRow(pod: string, row: Line) {
    |Columns(row)| == 5 && Columns(row)[0] == pod
  }

  /** Row `k` is the first that names `pod`, and every row before it is well formed. */
  predicate FirstTargetAt(pod: string, rows: seq<Line>, k: nat) {
    k < |rows| && TargetRow(pod, rows[k]) && forall m :: 0 <= m < k ==> OtherRow(pod, rows[m])
  }

  /** DESIRED equals CURRENT, compared as strings, in a well-formed row. */
  predicate AtDesired(row: Line)
    requires |Columns(row)| == 5
  {
    Columns(row)[2] == Columns(row)[3]
  }

  /** The header is never split nor checked: any first line gives the same verdict. */
  lemma HeaderIgnored(pod: string, h1: Line, h2: Line, rows: seq<Line>)
    ensures StatusIsDesired(pod, [h1] + rows) == StatusIsDesired(pod, [h2] + rows)
    ensures StatusIsDesired(pod, [h1] + rows) == CheckRows(pod, rows)
  {
    assert ([h1] + rows)[1..] == rows;
    assert ([h2] + rows)[1..] == rows;
  }

  /** An empty output, or a header alone, asks for a retry. */
  lemma EmptyListingRetries(pod: string, h: Line)
    ensures StatusIsDesired(pod, []) == Retry
    ensures StatusIsDesired(pod, [h]) == Retry
  {
  }

  /**
   * The first row naming `pod` decides, by comparing DESIRED and CURRENT as
   * strings; the rows after it are never looked at.
   */
  lemma {:induction false} FirstTargetDecides(pod: string, rows: seq<Line>, k: nat)
    requires FirstTargetAt(pod, rows, k)
    ensures CheckRows(pod, rows) == if AtDesired(rows[k]) then Converged else Retry
    decreases k
  {
    if k > 0 {
      assert OtherRow(pod, rows[0]);
      assert FirstTargetAt(pod, rows[1..], k - 1) by {
        forall m | 0 <= m < k - 1 ensures OtherRow(pod, rows[1..][m]) {
          assert rows[1..][m] == rows[m + 1];
        }
      }
      FirstTargetDecides(pod, rows[1..], k - 1);
    }
  }

  /** A row of other than five fields before the target is a hard failure, not a retry. */
  lemma {:induction false} MalformedRowFails(pod: string, rows: seq<Line>, k: nat)
    requires k < |rows|
    requires forall m :: 0 <= m < k ==> OtherRow(pod, rows[m])
    requires |Columns(rows[k])| != 5
    ensures CheckRows(pod, rows) == Failed(MalformedRow(rows[k].text))
    decreases k
  {
    if k > 0 {
      assert OtherRow(pod, rows[0]);
      forall m | 0 <= m < k - 1 ensures OtherRow(pod, rows[1..][m]) {
        assert rows[1..][m] == rows[m + 1];
      }
      MalformedRowFails(pod, rows[1..], k - 1);
    }
  }

  /** A target absent from a well-formed listing asks for a retry. */
  lemma {:induction false} AbsentTargetRetries(pod: string, rows: seq<Line>)
    requires forall m :: 0 <= m < |rows| ==> OtherRow(pod, rows[m])
    ensures CheckRows(pod, rows) == Retry
    decreases |rows|
  {
    if rows != [] {
      assert OtherRow(pod, rows[0]);
      forall m | 0 <= m < |rows| - 1 ensures OtherRow(pod, rows[1..][m]) {
        assert rows[1..][m] == rows[m + 1];
      }
      AbsentTargetRetries(pod, rows[1..]);
    }
  }

  /** Converged only ever comes from a first target row whose DESIRED equals its CURRENT. */
  lemma {:induction false} ConvergedOnlyAtTarget(pod: string, rows: seq<Line>)
    requires CheckRows(pod, rows) == Converged
    ensures exists k: nat :: FirstTargetAt(pod, rows, k) && AtDesired(rows[k])
    decreases |rows|
  {
    if Columns(rows[0])[0] == pod {
      assert FirstTargetAt(pod, rows, 0);
    } else {
      ConvergedOnlyAtTarget(pod, rows[1..]);
      var k: nat :| FirstTargetAt(pod, rows[1..], k) && AtDesired(rows[1..][k]);
      assert rows[1..][k] == rows[k + 1];
      forall m | 0 <= m < k + 1 ensures OtherRow(pod, rows[m]) {
        if m > 0 { assert rows[m] == rows[1..][m - 1]; }
      }
      assert FirstTargetAt(pod, rows, k + 1);
    }
  }

  // ---------------------------------------------------------------------------
  // retryCmd.run
  // ---------------------------------------------------------------------------

  /** The result of one `oc get` run: its output lines, or a failure to run it. */
  datatype Fetch = Output(lines: seq<Line>) | CommandError(output: string)

  /** The error `retryCmd.run` returns, or Succeeded for nil. */
  datatype RunResult =
    | Succeeded
    | CouldNotRun(output: string)          // "could not run command"
    | CouldNotVerify(failure: Failure)     // "could not verify command output"
    | Exhausted(max: int)                  // "could not reach expected result after %d retries"

  /** The outcome of a poll and how many times the command was run. */
  datatype PollOutcome = PollOutcome(result: RunResult, fetches: nat)

  /** Attempt `k` fetched an output and its verdict asked for a retry. */
  predicate Retried(verify: seq<Line> -> Verdict, fetch: nat -> Fetch, k: nat) {
    fetch(k).Output? && verify(fetch(k).lines) == Retry
  }

  /** How an attempt that did not ask for a retry ends the poll. */
  function Decision(verify: seq<Line> -> Verdict, f: Fetch): RunResult
    requires f.Output? ==> verify(f.lines) != Retry
  {
    match f
    case CommandError(out) => CouldNotRun(out)
    case Output(lines) =>
      match verify(lines)
      case Converged => Succeeded
      case Failed(e) => CouldNotVerify(e)
  }

  /** The attempts of `retryCmd.run(max, …)` from attempt `i` on. */
  function Poll(verify: seq<Line> -> Verdict, fetch: nat -> Fetch, max: int, i: nat): (p: PollOutcome)
    ensures p.result.Succeeded? ==> exists k :: i <= k < max && fetch(k).Output? && verify(fetch(k).lines) == Converged
    ensures p.result.Exhausted? ==> p.result.max == max
    decreases max - i
  {
    if i >= max then PollOutcome(Exhausted(max), i)
    else if Retried(verify, fetch, i) then Poll(verify, fetch, max, i + 1)
    else PollOutcome(Decision(verify, fetch(i)), i + 1)
  }

  /**
   * The first attempt that does not ask for a retry ends the poll, with at
   * most `max` fetches: success at the first converged check, an immediate
   * error on a failed fetch or a hard verify failure.
   */
  lemma {:induction false} PollStopsAtFirstDecision(verify: seq<Line> -> Verdict, fetch: nat -> Fetch,
                                                    max: int, i: nat, k: nat)
    requires i <= k < max
    requires forall m :: i <= m < k ==> Retried(verify, fetch, m)
    requires !Retried(verify, fetch, k)
    ensures Poll(verify, fetch, max, i) == PollOutcome(Decision(verify, fetch(k)), k + 1)
    ensures !Decision(verify, fetch(k)).Exhausted?
    decreases k - i
  {
    if i < k {
      PollStopsAtFirstDecision(verify, fetch, max, i + 1, k);
    }
  }

  /** When every attempt asks for a retry, exactly `max` fetches happen (none when max <= 0). */
  lemma {:induction false} PollExhausts(verify: seq<Line> -> Verdict, fetch: nat -> Fetch, max: int, i: nat)
    requires forall m :: i <= m < max ==> Retried(verify, fetch, m)
    ensures Poll(verify, fetch, max, i) == PollOutcome(Exhausted(max), if i < max then max else i)
    decreases max - i
  {
    if i < max {
      PollExhausts(verify, fetch, max, i + 1);
    }
  }

  /** Every poll stops within its budget, and all attempts but the deciding one were retries. */
  lemma {:induction false} PollShape(verify: seq<Line> -> Verdict, fetch: nat -> Fetch, max: int, i: nat)
    ensures var p := Poll(verify, fetch, max, i);
      && p.fetches >= i
      && (i < max ==> p.fetches <= max)
      && (p.result.Exhausted? <==> forall m :: i <= m < max ==> Retried(verify, fetch, m))
      && (!p.result.Exhausted? ==> p.fetches > i && !Retried(verify, fetch, p.fetches - 1)
                                   && p.result == Decision(verify, fetch(p.fetches - 1)))
      && (forall m :: i <= m < p.fetches - 1 ==> Retried(verify, fetch, m))
    decreases max - i
  {
    if i < max {
      PollShape(verify, fetch, max, i + 1);
      if !Retried(verify, fetch, i) {
        match fetch(i)
        case CommandError(_) =>
        case Output(lines) =>
          assert verify(lines) != Retry;
      }
    }
  }

  /**
   * `retryCmd.run`: at most `max` attempts, each a fetch and a verify, with a
   * sleep after every attempt that asks for a retry.
   */
  method RetryRun(verify: seq<Line> -> Verdict, fetch: nat -> Fetch, max: int)
    returns (r: RunResult, fetches: nat, sleeps: nat)
    ensures PollOutcome(r, fetches) == Poll(verify, fetch, max, 0)
    ensures sleeps == if r.Exhausted? then fetches else fetches - 1
  {
    var i := 0;
    sleeps := 0;
    while i < max
      invariant 0 <= i
      invariant max > 0 ==> i <= max
      invariant Poll(verify, fetch, max, 0) == Poll(verify, fetch, max, i)
      invariant sleeps == i
    {
      var f := fetch(i);
      if f.CommandError? {
        return CouldNotRun(f.output), i + 1, sleeps;
      }
      var v := verify(f.lines);
      if v == Converged {
        return Succeeded, i + 1, sleeps;
      }
      if v != Retry {
        return CouldNotVerify(v.failure), i + 1, sleeps;
      }
      sleeps := sleeps + 1;
      i := i + 1;
    }
    return Exhausted(max), i, sleeps;
  }

  /**
   * proc.go:26 as written: every attempt calls `CombinedOutput` on the same
   * `exec.Cmd`. Go refuses a second `CombinedOutput` on a command whose
   * output is already set ("exec: Stdout already set"), and returns no
   * output, so only the first attempt reaches the cluster.
   */
  function ReusedCommand(listings: nat -> Fetch): (f: nat -> Fetch)
    ensures forall k: nat :: f(k).Output? ==> k == 0 && f(k) == listings(0)
  {
    k => if k == 0 then listings(0) else CommandError("")
  }

  /**
   * As written, a first listing that asks for a retry ends the poll at the
   * second attempt with a failure to run the command, whatever the cluster
   * shows by then and however large the budget.
   */
  lemma ReusedCommandCannotRetry(verify: seq<Line> -> Verdict, listings: nat -> Fetch, max: int)
    requires max >= 2
    requires Retried(verify, listings, 0)
    ensures Poll(verify, ReusedCommand(listings), max, 0) == PollOutcome(CouldNotRun(""), 2)
  {
    PollStopsAtFirstDecision(verify, ReusedCommand(listings), max, 0, 1);
  }

  // ---------------------------------------------------------------------------
  // ocScale
  // ---------------------------------------------------------------------------

  /** proc.go:50-53 as written: `replicas * 10` on a 64-bit `int` wraps around. */
  function RetryBudgetAsWritten(replicas: int64): (b: int64)
    ensures replicas > 0 ==> (b - 10 * replicas) % 0x1_0000_0000_0000_0000 == 0
    ensures replicas <= 0 ==> b == 10
  {
    if replicas > 0 then Wrap64(replicas * 10) else 10
  }

  /** The intended budget: ten attempts per replica, and ten when scaling to zero or below. */
  function RetryBudget(replicas: int): (b: int)
    ensures b >= 10
    ensures replicas > 0 ==> b == 10 * replicas
  {
    if replicas > 0 then replicas * 10 else 10
  }

  /** A larger requested replica count never gets a smaller budget. */
  lemma RetryBudgetMonotone(a: int, b: int)
    requires a <= b
    ensures RetryBudget(a) <= RetryBudget(b)
  {
  }

  /** Both budgets agree on every replica count whose product fits in 64 bits. */
  lemma RetryBudgetAgrees(replicas: int64)
    requires replicas <= MaxInt64 / 10
    ensures RetryBudgetAsWritten(replicas) == RetryBudget(replicas)
  {
  }

  /**
   * As written, a large replica count wraps the budget negative: the poll
   * then makes no attempt and reports exhaustion at once.
   */
  lemma RetryBudgetWraps(verify: seq<Line> -> Verdict, fetch: nat -> Fetch)
    ensures RetryBudgetAsWritten(922337203685477581) == -9223372036854775806
    ensures Poll(verify, fetch, RetryBudgetAsWritten(922337203685477581), 0)
         == PollOutcome(Exhausted(-9223372036854775806), 0)
  {
  }

  /** The verify step `ocScale` polls with. */
  function StatusCheck(dc: string): seq<Line> -> Verdict {
    output => StatusIsDesired(dc, output)
  }

  /** The error `ocScale` returns, or Scaled for nil. */
  datatype ScaleResult =
    | Scaled
    | ScaleCommandFailed                   // "could not run oc scale"
    | NotConverged(run: RunResult)         // "could not satisfy scaling change"

  /** What `ocScale` does: scale, and only when that succeeded, poll within the budget. */
  function ScaleOutcome(dc: string, replicas: int, scaleOk: bool, fetch: nat -> Fetch): (r: ScaleResult)
    ensures !scaleOk ==> r == ScaleCommandFailed
    ensures r == Scaled ==>
      scaleOk && exists k :: 0 <= k < RetryBudget(replicas) && fetch(k).Output? && StatusIsDesired(dc, fetch(k).lines) == Converged
    ensures r.NotConverged? ==> scaleOk && !r.run.Succeeded?
  {
    if !scaleOk then ScaleCommandFailed
    else
      var p := Poll(StatusCheck(dc), fetch, RetryBudget(replicas), 0);
      if p.result.Succeeded? then Scaled else NotConverged(p.result)
  }

  /**
   * `ocScale`: run `oc scale`; when it fails, report it without polling;
   * otherwise poll `oc get dc/<dc>` with the budget for `replicas`.
   */
  method OcScale(dc: string, replicas: int, scaleOk: bool, fetch: nat -> Fetch)
    returns (r: ScaleResult, fetches: nat, sleeps: nat)
    ensures r == ScaleOutcome(dc, replicas, scaleOk, fetch)
    ensures !scaleOk ==> fetches == 0 && sleeps == 0
    ensures scaleOk ==> fetches == Poll(StatusCheck(dc), fetch, RetryBudget(replicas), 0).fetches
    ensures fetches <= RetryBudget(replicas)
  {
    if !scaleOk {
      return ScaleCommandFailed, 0, 0;
    }
    var budget := RetryBudget(replicas);
    var run;
    run, fetches, sleeps := RetryRun(StatusCheck(dc), fetch, budget);
    PollShape(StatusCheck(dc), fetch, budget, 0);
    r := if run.Succeeded? then Scaled else NotConverged(run);
  }

  // ---------------------------------------------------------------------------
  // Scenarios
  // ---------------------------------------------------------------------------

  /** A listing with one well-formed row: converged exactly when it names `pod` with DESIRED = CURRENT. */
  lemma StatusOfOneRow(pod: string, header: Line, ws: seq<string>, seps: seq<string>, next: char)
    requires |ws| == 5 && |seps| == 4
    requires GoodWords(ws) && GoodSeparators(seps)
    ensures StatusIsDesired(pod, [header, Line(Joined(ws, seps), next)])
         == if ws[0] == pod && ws[2] == ws[3] then Converged else Retry
  {
    SplitOfJoined(ws, seps, Some(next));
    StatusOfColumns(pod, header, Line(Joined(ws, seps), next), ws);
  }

  /** A listing with one row whose columns are `ws`. */
  lemma StatusOfColumns(pod: string, header: Line, row: Line, ws: seq<string>)
    requires |ws| == 5 && Columns(row) == ws
    ensures StatusIsDesired(pod, [header, row]) == if ws[0] == pod && ws[2] == ws[3] then Converged else Retry
  {
    var rows := [row];
    assert [header, row][1..] == rows;
    if ws[0] == pod {
      assert FirstTargetAt(pod, rows, 0);
      FirstTargetDecides(pod, rows, 0);
    } else {
      AbsentTargetRetries(pod, rows);
    }
  }

  /**
   * A row of four columns followed by whitespace gains a fifth column, the
   * byte after it in the scanner's buffer, and is then checked like any
   * well-formed row.
   */
  lemma TrailingSeparatorRow(pod: string, header: Line, ws: seq<string>, seps: seq<string>, sep: string, next: char)
    requires |ws| == 4 && |seps| == 3
    requires GoodWords(ws) && GoodSeparators(seps)
    requires sep != [] && AllSpace(sep)
    ensures Columns(Line(Joined(ws, seps) + sep, next)) == ws + [[next]]
    ensures StatusIsDesired(pod, [header, Line(Joined(ws, seps) + sep, next)])
         == if ws[0] == pod && ws[2] == ws[3] then Converged else Retry
  {
    SplitOfJoinedWithTrailingSeparator(ws, seps, sep, next);
    StatusOfColumns(pod, header, Line(Joined(ws, seps) + sep, next), ws + [[next]]);
  }

  /** "svc 1 0 0 " ending in a space, then its newline: five columns, the last "\n", and converged. */
  lemma TrailingSpaceRowExample(header: Line)
    ensures Columns(Line("svc" + " " + ("1" + " " + ("0" + " " + "0")) + " ", '\n')) == ["svc", "1", "0", "0", "\n"]
    ensures StatusIsDesired("svc", [header, Line("svc" + " " + ("1" + " " + ("0" + " " + "0")) + " ", '\n')]) == Converged
  {
    var ws, seps := ["svc", "1", "0", "0"], [" ", " ", " "];
    assert GoodWords(ws) && GoodSeparators(seps);
    calc {
      Joined(ws, seps);
      "svc" + " " + Joined(ws[1..], seps[1..]);
      "svc" + " " + ("1" + " " + Joined(ws[2..], seps[2..]));
      "svc" + " " + ("1" + " " + ("0" + " " + "0"));
    }
    TrailingSeparatorRow("svc", header, ws, seps, " ", '\n');
  }

  /**
   * The three checks of proc_test.go, whose rows end in a newline: CURRENT 1
   * against DESIRED 0 retries, CURRENT 0 converges, and a target named in no
   * row retries; whatever the header.
   */
  lemma StatusIsDesiredTestCases(header: Line)
    ensures var w0, w4 := "test-shutdown-receiver", "config,image(test-shutdown-receiver:latest)";
      var row := (current: string) =>
        Line(w0 + "   " + ("36" + "         " + ("0" + "         " + (current + "         " + w4))), '\n');
      && StatusIsDesired(w0, [header, row("1")]) == Retry
      && StatusIsDesired(w0, [header, row("0")]) == Converged
      && StatusIsDesired("test", [header, row("0")]) == Retry
  {
    var w0, w4 := "test-shutdown-receiver", "config,image(test-shutdown-receiver:latest)";
    var seps := ["   ", "         ", "         ", "         "];
    forall current | current == "0" || current == "1"
      ensures Joined([w0, "36", "0", current, w4], seps)
           == w0 + "   " + ("36" + "         " + ("0" + "         " + (current + "         " + w4)))
      ensures GoodWords([w0, "36", "0", current, w4]) && GoodSeparators(seps)
    {
      StatusRowPieces(w0, current, w4);
      var ws := [w0, "36", "0", current, w4];
      calc {
        Joined(ws, seps);
        w0 + seps[0] + Joined(ws[1..], seps[1..]);
        w0 + seps[0] + ("36" + seps[1] + Joined(ws[2..], seps[2..]));
        w0 + seps[0] + ("36" + seps[1] + ("0" + seps[2] + Joined(ws[3..], seps[3..])));
        w0 + seps[0] + ("36" + seps[1] + ("0" + seps[2] + (current + seps[3] + w4)));
      }
    }
    StatusOfOneRow(w0, header, [w0, "36", "0", "1", w4], seps, '\n');
    StatusOfOneRow(w0, header, [w0, "36", "0", "0", w4], seps, '\n');
    StatusOfOneRow("test", header, [w0, "36", "0", "0", w4], seps, '\n');
  }

  /** "svc 1 0 <current> cfg", written out with single spaces and ended by a newline. */
  function SvcRow(current: string): Line {
    Line("svc" + " " + ("1" + " " + ("0" + " " + (current + " " + "cfg"))), '\n')
  }

  lemma SvcRowStatus(pod: string, header: Line, current: string)
    requires current == "0" || current == "1"
    ensures StatusIsDesired(pod, [header, SvcRow(current)])
         == if pod == "svc" && current == "0" then Converged else Retry
  {
    var ws, seps := ["svc", "1", "0", current, "cfg"], [" ", " ", " ", " "];
    assert GoodWords(ws) && GoodSeparators(seps);
    calc {
      Joined(ws, seps);
      "svc" + " " + Joined(ws[1..], seps[1..]);
      "svc" + " " + ("1" + " " + Joined(ws[2..], seps[2..]));
      "svc" + " " + ("1" + " " + ("0" + " " + Joined(ws[3..], seps[3..])));
      "svc" + " " + ("1" + " " + ("0" + " " + (current + " " + "cfg")));
    }
    StatusOfOneRow(pod, header, ws, seps, '\n');
  }

  lemma ConvergedAtSecond(verify: seq<Line> -> Verdict, fetch: nat -> Fetch, max: int)
    requires max >= 2
    requires Retried(verify, fetch, 0)
    requires fetch(1).Output? && verify(fetch(1).lines) == Converged
    ensures Poll(verify, fetch, max, 0) == PollOutcome(Succeeded, 2)
  {
    PollStopsAtFirstDecision(verify, fetch, max, 0, 1);
  }

  /**
   * A poll whose first fetch shows CURRENT 1 against DESIRED 0 and whose
   * second shows them equal converges on the second attempt, after one sleep.
   */
  lemma ConvergesOnSecondPoll(fetch: nat -> Fetch, header: Line, max: int)
    requires max >= 2
    requires fetch(0) == Output([header, SvcRow("1")])
    requires fetch(1) == Output([header, SvcRow("0")])
    ensures Poll(StatusCheck("svc"), fetch, max, 0) == PollOutcome(Succeeded, 2)
  {
    SvcRowStatus("svc", header, "1");
    SvcRowStatus("svc", header, "0");
    ConvergedAtSecond(StatusCheck("svc"), fetch, max);
  }

  /** A target that no listing shows retries on every attempt and exhausts the whole budget. */
  lemma AbsentTargetExhausts(fetch: nat -> Fetch, header: Line, replicas: int)
    requires forall k :: fetch(k) == Output([header, SvcRow("0")])
    ensures Poll(StatusCheck("other"), fetch, RetryBudget(replicas), 0)
         == PollOutcome(Exhausted(RetryBudget(replicas)), RetryBudget(replicas))
  {
    SvcRowStatus("other", header, "0");
    PollExhausts(StatusCheck("other"), fetch, RetryBudget(replicas), 0);
  }

  /** A data row of four fields fails the first attempt at once, whatever budget is left. */
  lemma MalformedRowStopsPoll(fetch: nat -> Fetch, header: Line, max: int)
    requires max >= 1
    requires fetch(0) == Output([header, Line("svc" + " " + ("1" + " " + ("0" + " " + "1")), '\n')])
    ensures Poll(StatusCheck("svc"), fetch, max, 0)
         == PollOutcome(CouldNotVerify(MalformedRow("svc" + " " + ("1" + " " + ("0" + " " + "1")))), 1)
  {
    var ws, seps := ["svc", "1", "0", "1"], [" ", " ", " "];
    var row := Line("svc" + " " + ("1" + " " + ("0" + " " + "1")), '\n');
    assert GoodWords(ws) && GoodSeparators(seps);
    calc {
      Joined(ws, seps);
      "svc" + " " + Joined(ws[1..], seps[1..]);
      "svc" + " " + ("1" + " " + Joined(ws[2..], seps[2..]));
      row.text;
    }
    SplitOfJoined(ws, seps, Some('\n'));
    assert [header, row][1..] == [row];
    MalformedRowFails("svc", [row], 0);
    PollStopsAtFirstDecision(StatusCheck("svc"), fetch, max, 0, 0);
  }

  /**
   * The listings of `ConvergesOnSecondPoll`, fetched through one reused
   * command: the second attempt cannot run, so the scale is reported as
   * failed although the cluster converged.
   */
  lemma ReusedCommandMissesConvergence(fetch: nat -> Fetch, header: Line, max: int)
    requires max >= 2
    requires fetch(0) == Output([header, SvcRow("1")])
    requires fetch(1) == Output([header, SvcRow("0")])
    ensures Poll(StatusCheck("svc"), fetch, max, 0) == PollOutcome(Succeeded, 2)
    ensures Poll(StatusCheck("svc"), ReusedCommand(fetch), max, 0) == PollOutcome(CouldNotRun(""), 2)
  {
    ConvergesOnSecondPoll(fetch, header, max);
    SvcRowStatus("svc", header, "1");
    ReusedCommandCannotRetry(StatusCheck("svc"), fetch, max);
  }
}
