/**
 * Action options, action building and the sequential test runner (main.go).
 *
 * Option values are what JSON decoding into `interface{}` can hold, as far
 * as the getters tell them apart. Actions are values: `init` fills in a
 * freshly allocated, zero-valued struct that is never changed afterwards.
 * The cluster is injected per action: whether `oc scale` succeeds, and the
 * outputs of the successive `oc get` runs of its poll.
 */
module Stress {
  import opened Results
  import opened GoInts
  import opened Proc

  // ---------------------------------------------------------------------------
  // Untyped options and their typed getters
  // ---------------------------------------------------------------------------

  /**
   * A value of an option bag, by its Go dynamic type. JSON numbers decode to
   * `float64`, booleans to `bool`, and so on: all of those are Other.
   */
  datatype Value = Str(s: string) | Int(i: int64) | Int32(i32: int32) | Int64(i64: int64) | Other

  type ActionOpts = map<string, Value>

  /** The errors of the getters. */
  datatype OptError =
    | KeyNotFound(key: string)                  // "key %q not found"
    | NotAString(key: string, value: Value)     // "... which is not a string" / "not a duration string"
    | NotAnInteger(key: string, value: Value)   // "... which is not an integer"
    | NotADuration(key: string, value: Value)   // "... which is not a duration"

  /** `actionOpts.getString`. */
  function GetString(opts: ActionOpts, k: string): (r: Result<string, OptError>)
    ensures r.Ok? <==> k in opts && opts[k].Str?
    ensures r.Ok? ==> r.value == opts[k].s
    ensures k !in opts ==> r == Err(KeyNotFound(k))
    ensures k in opts && !opts[k].Str? ==> r == Err(NotAString(k, opts[k]))
  {
    if k !in opts then Err(KeyNotFound(k))
    else if opts[k].Str? then Ok(opts[k].s)
    else Err(NotAString(k, opts[k]))
  }

  // ---------------------------------------------------------------------------
  // Decimal integers: strconv.ParseInt(s, 10, 32) and its inverse
  // ---------------------------------------------------------------------------

  predicate IsDigit(c: char) {
    '0' <= c <= '9'
  }

  predicate AllDigits(s: string) {
    forall k :: 0 <= k < |s| ==> IsDigit(s[k])
  }

  /** The value of a string of decimal digits, read most significant first. */
  function DigitsValue(s: string): nat
    requires AllDigits(s)
  {
    if s == [] then 0
    else DigitsValue(s[..|s| - 1]) * 10 + (s[|s| - 1] as int - '0' as int)
  }

  /**
   * `strconv.ParseInt(s, 10, 32)`: an optional sign, then one or more decimal
   * digits (no underscores in base 10), whose value must fit in 32 bits.
   */
  function ParseInt32(s: string): (r: Option<int32>)
    ensures r.Some? ==> s != [] && AllDigits(if s[0] == '+' || s[0] == '-' then s[1..] else s)
  {
    if s == [] then None
    else
      var body := if s[0] == '+' || s[0] == '-' then s[1..] else s;
      if body == [] || !AllDigits(body) then None
      else
        var v: int := if s[0] == '-' then 0 - DigitsValue(body) as int else DigitsValue(body);
        if MinInt32 <= v <= MaxInt32 then Some(v) else None
  }

  function DigitChar(d: nat): char
    requires d < 10
  {
    ('0' as int + d) as char
  }

  /** The decimal rendering of a natural number, without sign or leading zeros. */
  function FormatNat(n: nat): string
  {
    if n < 10 then [DigitChar(n)] else FormatNat(n / 10) + [DigitChar(n % 10)]
  }

  /** `strconv.Itoa`: the decimal rendering of an integer. */
  function FormatInt(n: int): string {
    if n < 0 then "-" + FormatNat(-n) else FormatNat(n)
  }

  /** Reading back a rendered natural number gives the number. */
  lemma {:induction false} DigitsRoundTrip(n: nat)
    ensures FormatNat(n) != [] && AllDigits(FormatNat(n))
    ensures DigitsValue(FormatNat(n)) == n
  {
    if n >= 10 {
      DigitsRoundTrip(n / 10);
      var s := FormatNat(n);
      assert s[..|s| - 1] == FormatNat(n / 10);
    }
  }

  /** Parsing the rendering of `n` gives `n` back exactly when `n` fits in 32 bits. */
  lemma ParseFormatRoundTrip(n: int)
    ensures ParseInt32(FormatInt(n)) == if MinInt32 <= n <= MaxInt32 then Some(n) else None
  {
    if n < 0 {
      ParseNegative(-n);
    } else {
      ParseNonNegative(n);
    }
  }

  lemma ParseNonNegative(n: nat)
    ensures ParseInt32(FormatNat(n)) == if n <= MaxInt32 then Some(n) else None
  {
    DigitsRoundTrip(n);
    var s := FormatNat(n);
    assert IsDigit(s[0]);
  }

  lemma ParseNegative(m: nat)
    requires m > 0
    ensures ParseInt32("-" + FormatNat(m)) == if MinInt32 <= -(m as int) then Some(-(m as int)) else None
  {
    DigitsRoundTrip(m);
    var s := "-" + FormatNat(m);
    assert s[1..] == FormatNat(m);
  }

  /** A leading plus sign and leading zeros are accepted. */
  lemma ParseAcceptsPlusAndZeros(n: nat)
    requires n <= MaxInt32
    ensures ParseInt32("+" + FormatNat(n)) == Some(n)
    ensures ParseInt32("0" + FormatNat(n)) == Some(n)
  {
    DigitsRoundTrip(n);
    var s := FormatNat(n);
    assert ("+" + s)[1..] == s;
    var z := "0" + s;
    assert AllDigits(z);
    LeadingZero(s);
  }

  lemma {:induction false} LeadingZero(s: string)
    requires AllDigits(s)
    ensures AllDigits("0" + s) && DigitsValue("0" + s) == DigitsValue(s)
    decreases |s|
  {
    if s != [] {
      var p := s[..|s| - 1];
      LeadingZero(p);
      assert ("0" + s)[..|"0" + s| - 1] == "0" + p;
    }
  }

  /** `actionOpts.getInt`: a decimal string of 32-bit range, or a Go int, int32 or int64. */
  function GetInt(opts: ActionOpts, k: string): (r: Result<int64, OptError>)
    ensures k !in opts ==> r == Err(KeyNotFound(k))
    ensures k in opts && opts[k].Str? ==>
      r == if ParseInt32(opts[k].s).Some? then Ok(ParseInt32(opts[k].s).value) else Err(NotAnInteger(k, opts[k]))
    ensures k in opts && opts[k].Int? ==> r == Ok(opts[k].i)
    ensures k in opts && opts[k].Int32? ==> r == Ok(opts[k].i32)
    ensures k in opts && opts[k].Int64? ==> r == Ok(opts[k].i64)
    ensures k in opts && opts[k].Other? ==> r == Err(NotAnInteger(k, opts[k]))
  {
    if k !in opts then Err(KeyNotFound(k))
    else
      match opts[k]
      case Str(s) =>
        var p := ParseInt32(s);
        if p.Some? then Ok(p.value) else Err(NotAnInteger(k, opts[k]))
      case Int(i) => Ok(i)
      case Int32(i) => Ok(i)
      case Int64(i) => Ok(i)
      case Other => Err(NotAnInteger(k, opts[k]))
  }

  /** An integer written as a string is accepted exactly when it fits in 32 bits. */
  lemma GetIntOfFormatted(opts: ActionOpts, k: string, n: int)
    requires k in opts && opts[k] == Str(FormatInt(n))
    ensures GetInt(opts, k).Ok? <==> MinInt32 <= n <= MaxInt32
    ensures GetInt(opts, k).Ok? ==> GetInt(opts, k).value == n
  {
    ParseFormatRoundTrip(n);
  }

  /**
   * `actionOpts.getDuration`: a string handed to `time.ParseDuration`, which
   * is the parameter `parse` here (a duration in nanoseconds, or no parse).
   */
  function GetDuration(opts: ActionOpts, k: string, parse: string -> Option<int64>): (r: Result<int64, OptError>)
    ensures r.Ok? <==> k in opts && opts[k].Str? && parse(opts[k].s).Some?
    ensures r.Ok? ==> r.value == parse(opts[k].s).value
    ensures k !in opts ==> r == Err(KeyNotFound(k))
    ensures k in opts && !opts[k].Str? ==> r == Err(NotAString(k, opts[k]))
  {
    if k !in opts then Err(KeyNotFound(k))
    else if !opts[k].Str? then Err(NotAString(k, opts[k]))
    else
      var d := parse(opts[k].s);
      if d.Some? then Ok(d.value) else Err(NotADuration(k, opts[k]))
  }

  // ---------------------------------------------------------------------------
  // Actions
  // ---------------------------------------------------------------------------

  /** The two kinds of action and the fields their `init` fills in. */
  datatype Action = Scale(pod: string, units: int64) | Pause(duration: int64)

  /** The errors of the `init` methods. */
  datatype InitError =
    | BadOption(option: string, cause: OptError)   // "invalid '<option>' option in '<action>' action"
    | ImageNotDefined(shown: string)               // "image %s not defined in Images section"

  /**
   * `scaleAction.init`. The failed map lookup has already overwritten
   * `s.pod` with "" when the message is formatted, so it shows "".
   */
  function ScaleInit(opts: ActionOpts, images: map<string, string>): (r: Result<Action, InitError>)
    ensures r.Ok? <==> GetString(opts, "Pod").Ok? && GetString(opts, "Pod").value in images
                       && GetInt(opts, "Units").Ok?
    ensures r.Ok? ==> r.value == Scale(images[opts["Pod"].s], GetInt(opts, "Units").value)
    ensures r.Err? && r.error.ImageNotDefined? ==> r.error.shown == ""
    ensures GetString(opts, "Pod").Ok? && GetString(opts, "Pod").value !in images ==> r == Err(ImageNotDefined(""))
    ensures GetString(opts, "Pod").Err? ==> r == Err(BadOption("Pod", GetString(opts, "Pod").error))
  {
    match GetString(opts, "Pod")
    case Err(e) => Err(BadOption("Pod", e))
    case Ok(name) =>
      if name !in images then Err(ImageNotDefined(""))
      else
        match GetInt(opts, "Units")
        case Err(e) => Err(BadOption("Units", e))
        case Ok(u) => Ok(Scale(images[name], u))
  }

  /** Negative units are not rejected. */
  lemma ScaleInitAcceptsNegativeUnits(opts: ActionOpts, images: map<string, string>)
    requires "Pod" in opts && opts["Pod"].Str? && opts["Pod"].s in images
    requires "Units" in opts && opts["Units"] == Int(-1)
    ensures ScaleInit(opts, images) == Ok(Scale(images[opts["Pod"].s], -1))
  {
  }

  /** `pauseAction.init`. */
  function PauseInit(opts: ActionOpts, parse: string -> Option<int64>): (r: Result<Action, InitError>)
    ensures r.Ok? <==> GetDuration(opts, "For", parse).Ok?
    ensures r.Ok? ==> r.value == Pause(GetDuration(opts, "For", parse).value)
  {
    match GetDuration(opts, "For", parse)
    case Err(e) => Err(BadOption("For", e))
    case Ok(d) => Ok(Pause(d))
  }

  /** The errors of `buildAction`. */
  datatype BuildError =
    | NoActionKey(keyError: OptError)                 // "invalid action without 'Action' key"
    | UnknownAction(name: string)                  // "invalid action type %s"
    | CannotInit(name: string, initError: InitError)   // "cannot init action %s"

  /** `buildAction`: dispatch on the "Action" string, then `init`. */
  function BuildAction(opts: ActionOpts, images: map<string, string>, parse: string -> Option<int64>)
    : (r: Result<Action, BuildError>)
    ensures r.Ok? <==>
      && "Action" in opts
      && ((opts["Action"] == Str("scale") && ScaleInit(opts, images).Ok?) ||
          (opts["Action"] == Str("pause") && PauseInit(opts, parse).Ok?))
    ensures r.Ok? ==> r.value == if opts["Action"] == Str("scale") then ScaleInit(opts, images).value
                                 else PauseInit(opts, parse).value
    ensures "Action" in opts && opts["Action"].Str? && opts["Action"].s !in {"scale", "pause"} ==>
      r == Err(UnknownAction(opts["Action"].s))
  {
    match GetString(opts, "Action")
    case Err(e) => Err(NoActionKey(e))
    case Ok(name) =>
      if name == "scale" then
        match ScaleInit(opts, images)
        case Err(e) => Err(CannotInit(name, e))
        case Ok(a) => Ok(a)
      else if name == "pause" then
        match PauseInit(opts, parse)
        case Err(e) => Err(CannotInit(name, e))
        case Ok(a) => Ok(a)
      else Err(UnknownAction(name))
  }

  // ---------------------------------------------------------------------------
  // Building the tests
  // ---------------------------------------------------------------------------

  /** The error of `buildTests`: a failing action, with the name of its test. */
  datatype TestsError = InTest(test: string, buildError: BuildError)   // "error in test %q"

  /** Every option bag of every test builds. */
  predicate AllActionsBuild(testscf: map<string, seq<ActionOpts>>, images: map<string, string>,
                            parse: string -> Option<int64>)
  {
    forall name, i :: name in testscf && 0 <= i < |testscf[name]| ==>
      BuildAction(testscf[name][i], images, parse).Ok?
  }

  /** `actions` holds, position by position, the actions built from `opts`. */
  predicate BuiltFrom(actions: seq<Action>, opts: seq<ActionOpts>, images: map<string, string>,
                      parse: string -> Option<int64>)
  {
    && |actions| == |opts|
    && forall i :: 0 <= i < |opts| ==>
         BuildAction(opts[i], images, parse).Ok? && actions[i] == BuildAction(opts[i], images, parse).value
  }

  /** The tests a successful build yields. */
  function BuiltTests(testscf: map<string, seq<ActionOpts>>, images: map<string, string>,
                      parse: string -> Option<int64>): (tests: map<string, seq<Action>>)
    requires AllActionsBuild(testscf, images, parse)
    ensures tests.Keys == testscf.Keys
    ensures forall name :: name in tests ==> BuiltFrom(tests[name], testscf[name], images, parse)
  {
    map name | name in testscf ::
      seq(|testscf[name]|, i requires 0 <= i < |testscf[name]| => BuildAction(testscf[name][i], images, parse).value)
  }

  /**
   * `buildTests`: all or nothing. Every action of every test is built, into a
   * slice of the option list's length; the first failure met ends the build
   * with no tests at all.
   */
  method BuildTests(testscf: map<string, seq<ActionOpts>>, images: map<string, string>,
                    parse: string -> Option<int64>)
    returns (r: Result<map<string, seq<Action>>, TestsError>)
    ensures r.Ok? <==> AllActionsBuild(testscf, images, parse)
    ensures r.Ok? ==> r.value == BuiltTests(testscf, images, parse)
    ensures r.Err? ==> r.error.test in testscf
    ensures r.Err? ==>
      exists i :: 0 <= i < |testscf[r.error.test]|
        && BuildAction(testscf[r.error.test][i], images, parse) == Err(r.error.buildError)
        && forall m :: 0 <= m < i ==> BuildAction(testscf[r.error.test][m], images, parse).Ok?
  {
    var tests: map<string, seq<Action>> := map[];
    var remaining := testscf.Keys;
    while remaining != {}
      invariant remaining <= testscf.Keys
      invariant tests.Keys == testscf.Keys - remaining
      invariant forall name :: name in tests ==> BuiltFrom(tests[name], testscf[name], images, parse)
      decreases remaining
    {
      var name :| name in remaining;
      var opts := testscf[name];
      var actions := new Action[|opts|];
      for i := 0 to |opts|
        invariant forall m :: 0 <= m < i ==>
          BuildAction(opts[m], images, parse).Ok? && actions[m] == BuildAction(opts[m], images, parse).value
      {
        var a := BuildAction(opts[i], images, parse);
        if a.Err? {
          return Err(InTest(name, a.error));
        }
        actions[i] := a.value;
      }
      tests := tests[name := actions[..]];
      remaining := remaining - {name};
    }
    assert AllActionsBuild(testscf, images, parse) by {
      forall name, i | name in testscf && 0 <= i < |testscf[name]|
        ensures BuildAction(testscf[name][i], images, parse).Ok?
      {
        assert BuiltFrom(tests[name], testscf[name], images, parse);
      }
    }
    ghost var expected := BuiltTests(testscf, images, parse);
    forall name | name in tests
      ensures tests[name] == expected[name]
    {
      assert BuiltFrom(expected[name], testscf[name], images, parse);
    }
    return Ok(tests);
  }

  // ---------------------------------------------------------------------------
  // Running actions
  // ---------------------------------------------------------------------------

  /** What the cluster does for one scale action: the `oc scale` result and the `oc get` outputs of its poll. */
  datatype ClusterResponse = ClusterResponse(scaleOk: bool, fetch: nat -> Fetch)

  /** The error of `run`. */
  datatype ActionError = ScaleStepFailed(cause: ScaleResult)   // "cannot run scale step"

  /** What running an action returns, and the deployments it sends on the `up` channel. */
  datatype StepOutcome = StepOutcome(err: Option<ActionError>, up: seq<string>)

  /** The outcome of running `a` against the cluster's response `c`. */
  function ActionOutcome(a: Action, c: ClusterResponse): (o: StepOutcome)
    ensures o.up != [] ==> o.err.None? && a.Scale? && a.units > 0 && o.up == [a.pod]
    ensures a.Pause? ==> o == StepOutcome(None, [])
    ensures a.Scale? && !c.scaleOk ==> o.err == Some(ScaleStepFailed(ScaleCommandFailed))
  {
    match a
    case Scale(pod, units) =>
      var s := ScaleOutcome(pod, units, c.scaleOk, c.fetch);
      if s != Scaled then StepOutcome(Some(ScaleStepFailed(s)), [])
      else StepOutcome(None, if units > 0 then [pod] else [])
    case Pause(_) => StepOutcome(None, [])
  }

  /**
   * `scaleAction.run`: the deployment goes out on `up` exactly when the scale
   * converged and more than zero units were asked for; a failed scale sends
   * nothing and is returned as an error.
   */
  method RunScale(pod: string, units: int64, c: ClusterResponse) returns (o: StepOutcome)
    ensures o == ActionOutcome(Scale(pod, units), c)
    ensures o.up != [] <==> o.err.None? && units > 0
    ensures o.up != [] ==> o.up == [pod]
    ensures o.err.None? <==> c.scaleOk && Poll(StatusCheck(pod), c.fetch, RetryBudget(units), 0).result.Succeeded?
  {
    var r, fetches, sleeps := OcScale(pod, units, c.scaleOk, c.fetch);
    if r != Scaled {
      return StepOutcome(Some(ScaleStepFailed(r)), []);
    }
    var up := [];
    if units > 0 {
      up := up + [pod];
    }
    o := StepOutcome(None, up);
  }

  /** `pauseAction.run`: sleeps for its duration and never fails. */
  method RunPause(duration: int64) returns (o: StepOutcome, slept: int64)
    ensures o.err.None? && o.up == [] && slept == duration
  {
    o, slept := StepOutcome(None, []), duration;
  }

  /** `action.run`, dispatched on the kind of action. */
  method RunAction(a: Action, c: ClusterResponse) returns (o: StepOutcome)
    ensures o == ActionOutcome(a, c)
  {
    match a
    case Scale(pod, units) =>
      o := RunScale(pod, units, c);
    case Pause(d) =>
      var slept;
      o, slept := RunPause(d);
  }

  // ---------------------------------------------------------------------------
  // The test runner
  // ---------------------------------------------------------------------------

  /** One action run: its test, its index in the test, and its outcome. */
  datatype Step = Step(test: string, index: nat, outcome: StepOutcome)

  predicate Known(tests: map<string, seq<Action>>, order: seq<string>) {
    forall k :: 0 <= k < |order| ==> order[k] in tests
  }

  /** The steps of running the actions of test `name`, one after the other. */
  function TestSteps(name: string, actions: seq<Action>, world: (string, nat) -> ClusterResponse): (r: seq<Step>)
    ensures |r| == |actions|
    ensures forall i :: 0 <= i < |r| ==> r[i] == Step(name, i, ActionOutcome(actions[i], world(name, i)))
  {
    if actions == [] then []
    else
      var n := |actions| - 1;
      TestSteps(name, actions[..n], world) + [Step(name, n, ActionOutcome(actions[n], world(name, n)))]
  }

  /** The steps of running the tests in `order`. */
  function Run(tests: map<string, seq<Action>>, order: seq<string>, world: (string, nat) -> ClusterResponse): seq<Step>
    requires Known(tests, order)
  {
    if order == [] then []
    else
      var name := order[|order| - 1];
      Run(tests, order[..|order| - 1], world) + TestSteps(name, tests[name], world)
  }

  /** Everything sent on `up` during `trace`, in order. */
  function Emitted(trace: seq<Step>): seq<string> {
    if trace == [] then [] else Emitted(trace[..|trace| - 1]) + trace[|trace| - 1].outcome.up
  }

  lemma {:induction false} EmittedAppend(a: seq<Step>, b: seq<Step>)
    ensures Emitted(a + b) == Emitted(a) + Emitted(b)
    decreases |b|
  {
    if b == [] {
      assert a + b == a;
    } else {
      var n := |b| - 1;
      assert (a + b)[..|a + b| - 1] == a + b[..n];
      EmittedAppend(a, b[..n]);
    }
  }

  /** The body of the inner loop of `main`: the actions of one test, in index order. */
  method RunTest(name: string, actions: seq<Action>, world: (string, nat) -> ClusterResponse)
    returns (steps: seq<Step>, up: seq<string>)
    ensures steps == TestSteps(name, actions, world)
    ensures up == Emitted(steps)
  {
    steps, up := [], [];
    for i := 0 to |actions|
      invariant steps == TestSteps(name, actions[..i], world)
      invariant up == Emitted(steps)
    {
      var o := RunAction(actions[i], world(name, i));
      assert actions[..i + 1][..i] == actions[..i];
      steps := steps + [Step(name, i, o)];
      up := up + o.up;
    }
    assert actions[..|actions|] == actions;
  }

  /**
   * The action loop of `main`: the tests in map order, the actions of each in
   * index order; an action's error is only logged, and the next action runs.
   */
  method RunTests(tests: map<string, seq<Action>>, order: seq<string>, world: (string, nat) -> ClusterResponse)
    returns (trace: seq<Step>, up: seq<string>)
    requires Known(tests, order)
    ensures trace == Run(tests, order, world)
    ensures up == Emitted(trace)
  {
    trace, up := [], [];
    for t := 0 to |order|
      invariant trace == Run(tests, order[..t], world)
      invariant up == Emitted(trace)
    {
      var steps, sent := RunTest(order[t], tests[order[t]], world);
      EmittedAppend(trace, steps);
      assert order[..t + 1][..t] == order[..t];
      trace := trace + steps;
      up := up + sent;
    }
    assert order[..|order|] == order;
  }

  /** The actions in the order they run: each test of `order` in turn, its actions by index. */
  function Schedule(tests: map<string, seq<Action>>, order: seq<string>): (r: seq<(string, nat)>)
    requires Known(tests, order)
    ensures forall k :: 0 <= k < |r| ==> r[k].0 in order && r[k].1 < |tests[r[k].0]|
  {
    if order == [] then []
    else
      var name := order[|order| - 1];
      Schedule(tests, order[..|order| - 1]) + Indices(name, |tests[name]|)
  }

  /** The first `n` actions of test `name`. */
  function Indices(name: string, n: nat): (r: seq<(string, nat)>)
    ensures |r| == n && forall k :: 0 <= k < n ==> r[k] == (name, k)
  {
    if n == 0 then [] else Indices(name, n - 1) + [(name, n - 1)]
  }

  /** Step `s` is the run of the action at position `p` of the tests, against its own cluster response. */
  predicate RunsAs(tests: map<string, seq<Action>>, world: (string, nat) -> ClusterResponse, p: (string, nat), s: Step) {
    p.0 in tests && p.1 < |tests[p.0]| && s == Step(p.0, p.1, ActionOutcome(tests[p.0][p.1], world(p.0, p.1)))
  }

  /** The run is the schedule, each action run against its own cluster response. */
  lemma {:induction false} RunFollowsSchedule(tests: map<string, seq<Action>>, order: seq<string>,
                                              world: (string, nat) -> ClusterResponse)
    requires Known(tests, order)
    ensures |Run(tests, order, world)| == |Schedule(tests, order)|
    ensures forall k :: 0 <= k < |Schedule(tests, order)| ==>
      RunsAs(tests, world, Schedule(tests, order)[k], Run(tests, order, world)[k])
  {
    if order != [] {
      var n := |order| - 1;
      var name := order[n];
      RunFollowsSchedule(tests, order[..n], world);
      var r0, s0 := Run(tests, order[..n], world), Schedule(tests, order[..n]);
      var t, ix := TestSteps(name, tests[name], world), Indices(name, |tests[name]|);
      assert Run(tests, order, world) == r0 + t;
      assert Schedule(tests, order) == s0 + ix;
      forall k | 0 <= k < |s0| + |ix|
        ensures RunsAs(tests, world, (s0 + ix)[k], (r0 + t)[k])
      {
        if k < |s0| {
          assert (s0 + ix)[k] == s0[k] && (r0 + t)[k] == r0[k];
        } else {
          assert (s0 + ix)[k] == ix[k - |s0|] && (r0 + t)[k] == t[k - |s0|];
          TestStepRunsAs(tests, world, name, k - |s0|);
        }
      }
    }
  }

  /** Action `i` of test `name` runs as its own step of that test. */
  lemma TestStepRunsAs(tests: map<string, seq<Action>>, world: (string, nat) -> ClusterResponse, name: string, i: nat)
    requires name in tests && i < |tests[name]|
    ensures RunsAs(tests, world, Indices(name, |tests[name]|)[i], TestSteps(name, tests[name], world)[i])
  {
  }

  /** When `order` holds every test, every action of every test is scheduled. */
  lemma {:induction false} ScheduleCovers(tests: map<string, seq<Action>>, order: seq<string>, name: string, i: nat)
    requires Known(tests, order)
    requires name in order && name in tests && i < |tests[name]|
    ensures (name, i) in Schedule(tests, order)
  {
    var n := |order| - 1;
    if order[n] == name {
      assert Indices(name, |tests[name]|)[i] == (name, i);
    } else {
      assert name in order[..n] by {
        var k :| 0 <= k < |order| && order[k] == name;
        assert order[..n][k] == name;
      }
      ScheduleCovers(tests, order[..n], name, i);
    }
  }

  predicate NoDuplicates(order: seq<string>) {
    forall k, m :: 0 <= k < m < |order| ==> order[k] != order[m]
  }

  /** With each test listed once, the actions of a test run once each, in index order. */
  lemma {:induction false} ScheduleInIndexOrder(tests: map<string, seq<Action>>, order: seq<string>)
    requires Known(tests, order) && NoDuplicates(order)
    ensures forall k, m :: 0 <= k < m < |Schedule(tests, order)| && Schedule(tests, order)[k].0 == Schedule(tests, order)[m].0 ==>
      Schedule(tests, order)[k].1 < Schedule(tests, order)[m].1
  {
    if order != [] {
      var n := |order| - 1;
      var name := order[n];
      var prefix := Schedule(tests, order[..n]);
      ScheduleInIndexOrder(tests, order[..n]);
      var s := Schedule(tests, order);
      assert s == prefix + Indices(name, |tests[name]|);
      forall k, m | 0 <= k < m < |s| && s[k].0 == s[m].0
        ensures s[k].1 < s[m].1
      {
      }
    }
  }

  /**
   * An action that fails does not stop the suite: with every test in `order`,
   * each action of each test has its step in the run, with its own outcome.
   */
  lemma EveryActionRuns(tests: map<string, seq<Action>>, order: seq<string>,
                        world: (string, nat) -> ClusterResponse, name: string, i: nat)
    requires Known(tests, order)
    requires name in order && name in tests && i < |tests[name]|
    ensures Step(name, i, ActionOutcome(tests[name][i], world(name, i))) in Run(tests, order, world)
  {
    ScheduleCovers(tests, order, name, i);
    RunFollowsSchedule(tests, order, world);
    var k :| 0 <= k < |Schedule(tests, order)| && Schedule(tests, order)[k] == (name, i);
    assert RunsAs(tests, world, (name, i), Run(tests, order, world)[k]);
  }

  /**
   * `main` once the configuration is decoded: the tests are built, and run
   * in `order`, the iteration order of the tests map. `main` does not check
   * the build error, but a failed build leaves a nil map, so nothing runs.
   */
  method RunAll(testscf: map<string, seq<ActionOpts>>, images: map<string, string>,
                parse: string -> Option<int64>, order: seq<string>,
                world: (string, nat) -> ClusterResponse)
    returns (trace: seq<Step>, up: seq<string>)
    requires forall name :: name in order <==> name in testscf
    requires NoDuplicates(order)
    ensures !AllActionsBuild(testscf, images, parse) ==> trace == [] && up == []
    ensures AllActionsBuild(testscf, images, parse) ==>
      Known(BuiltTests(testscf, images, parse), order) && trace == Run(BuiltTests(testscf, images, parse), order, world)
    ensures up == Emitted(trace)
  {
    var built := BuildTests(testscf, images, parse);
    if built.Ok? {
      trace, up := RunTests(built.value, order, world);
    } else {
      trace, up := RunTests(map[], [], world);
    }
  }
}
