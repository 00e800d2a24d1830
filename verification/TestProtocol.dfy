/** The steps of a test run, as functions of the run's state: the transitions of src/ltf_state.c,
    the hook stages of src/ltf_hooks.c, defer registration in src/modules/ltf/ltf.c, and the failure
    mark of src/ltf_test.c; and the invariant every one of them keeps.

    A piece of Lua code is modelled by what it does to the run: the lines it logs and the defers it
    registers, in order, and how it ends.  Times and texts are given with the steps. */
module TestProtocol {
  import opened Options
  import opened Keywords
  import opened RunState
  import LogLevel

  /** What a failing protected call leaves: the traceback, and the place read out of it. */
  datatype Raised = Raised(file: Option<string>, line: int, time: string, trace: string)

  datatype Effect =
    | Log(file: Option<string>, line: int, time: string, level: int, msg: string)
    | Defer(deferred: Deferred)

  /** One protected call of Lua code. */
  datatype Chunk = Chunk(effects: seq<Effect>, error: Option<Raised>)

  datatype Deferred = Deferred(args: seq<string>, body: Chunk)

  /** An executed defer: with its own arguments, or else with the status. */
  datatype Execution = Execution(deferred: Deferred, args: seq<string>)

  datatype Stage = HOOK_STAGE | TEST_STAGE

  datatype Run = Run(
    tests: seq<TestRecord>,
    passedAmount: nat,
    failedAmount: nat,
    finishedAmount: nat,
    stage: Stage,
    marked: bool,                 // test_marked_failed
    defers: seq<Deferred>,        // the registry's defer list; no list is an empty one
    executed: seq<Execution>,     // the defers that have run, in order
    aborted: bool)                // the assertion that a current test exists has failed
  {
    function Last(): TestRecord
      requires tests != []
    {
      tests[|tests| - 1]
    }

    /** The run with its current test replaced. */
    function WithLast(t: TestRecord): (r: Run)
      requires tests != []
      ensures r == this.(tests := r.tests) && |r.tests| == |tests| && r.Last() == t
      ensures forall i | 0 <= i < |tests| - 1 :: r.tests[i] == tests[i]
    {
      this.(tests := tests[..|tests| - 1] + [t])
    }
  }

  const NEW_RUN := Run([], 0, 0, 0, TEST_STAGE, false, [], [], false)

  datatype TestCase = TestCase(name: string, description: Option<string>, tags: seq<string>)

  function OrUnknown(file: Option<string>): Option<string> {
    if file.Some? then file else Some("unknown")
  }

  function LineOf(e: Effect): Output
    requires e.Log?
  {
    Output(OrUnknown(e.file), e.line, Some(e.time), e.level, Some(e.msg))
  }

  // ----- the steps -----

  function TestStarted(r: Run, test: TestCase, time: string): Run {
    r.(marked := false,
       tests := r.tests + [TestRecord(Some(test.name), test.description, Some(time), None, None, None,
                                      RUNNING, None, test.tags, [], [], [], [], [])])
  }

  /** ltf_state_log: where a line goes depends on the stage and on the current test's status. */
  function Logged(r: Run, o: Output): Run {
    if r.aborted || r.stage == HOOK_STAGE then r
    else if r.tests == [] then r.(aborted := true)
    else
      var t := r.Last();
      match t.status
      case RUNNING =>
        var t1 := t.(outputs := t.outputs + [o]);
        if o.level == LogLevel.ERROR
        then r.WithLast(t1.(failureReasons := t.failureReasons + [o])).(marked := true)
        else r.WithLast(t1)
      case TEARDOWN_AFTER_PASSED | TEARDOWN_AFTER_FAILED =>
        r.WithLast(t.(teardownOutputs := t.teardownOutputs + [o]))
      case _ => r
  }

  function DeferAdded(r: Run, d: Deferred): Run {
    if r.aborted then r else r.(defers := r.defers + [d])
  }

  function Acted(r: Run, e: Effect): Run {
    match e
    case Log(_, _, _, _, _) => Logged(r, LineOf(e))
    case Defer(d) => DeferAdded(r, d)
  }

  function TestPassed(r: Run, time: string, keywords: seq<Keyword>): Run
    requires r.tests != []
  {
    r.WithLast(r.Last().(status := PASSED, statusStr := Some("PASSED"), finished := Some(time), keywords := keywords))
     .(passedAmount := r.passedAmount + 1, finishedAmount := r.finishedAmount + 1)
  }

  /** The failure reason of a body that raised; it carries the time of the verdict. */
  function Reason(e: Raised, time: string): Output {
    ErrorOf(e).(dateTime := Some(time))
  }

  function TestFailed(r: Run, error: Option<Raised>, time: string, keywords: seq<Keyword>): Run
    requires r.tests != []
  {
    var t := r.Last();
    r.WithLast(t.(status := FAILED, statusStr := Some("FAILED"), finished := Some(time), keywords := keywords,
                  failureReasons := t.failureReasons + if error.Some? then [Reason(error.value, time)] else []))
     .(failedAmount := r.failedAmount + 1, finishedAmount := r.finishedAmount + 1)
  }

  /** The verdict, from how the body's call ended and the failure mark. */
  function Judged(r: Run, error: Option<Raised>, time: string, keywords: seq<Keyword>): Run
    requires r.tests != []
  {
    if error.None? && !r.marked then TestPassed(r, time, keywords)
    else TestFailed(r, error, time, keywords)
  }

  function TeardownStarted(r: Run, time: string): Run
    requires r.tests != []
  {
    var t := r.Last();
    r.WithLast(t.(teardownStart := Some(time),
                  status := match t.status
                            case FAILED => TEARDOWN_AFTER_FAILED
                            case PASSED => TEARDOWN_AFTER_PASSED
                            case s => s))
  }

  function ErrorOf(e: Raised): Output {
    Output(OrUnknown(e.file), e.line, Some(e.time), LogLevel.CRITICAL, Some(e.trace))
  }

  function DeferFailed(r: Run, e: Raised): Run
    requires r.tests != []
  {
    var t := r.Last();
    r.WithLast(t.(teardownErrors := t.teardownErrors + [ErrorOf(e)]))
  }

  function TeardownFinished(r: Run, time: string): Run
    requires r.tests != []
  {
    var t := r.Last();
    r.WithLast(t.(teardownEnd := Some(time),
                  status := match t.status
                            case TEARDOWN_AFTER_FAILED => FAILED
                            case TEARDOWN_AFTER_PASSED => PASSED
                            case s => s))
  }

  /** What is passed to a defer: its own arguments, or the status when it has none. */
  function Executed(r: Run, d: Deferred, status: string): Run {
    r.(executed := r.executed + [Execution(d, if d.args == [] then [status] else d.args)])
  }

  // ----- the invariant -----

  predicate HasVerdict(t: TestRecord) {
    t.statusStr.Some?
  }

  predicate Judgement(t: TestRecord, verdict: string) {
    t.statusStr == Some(verdict)
  }

  /** A test that has its verdict: the status agrees with it, during teardown too, and it is FAILED
      exactly when there is a reason. */
  predicate Settled(t: TestRecord) {
    && (Judgement(t, "FAILED") || Judgement(t, "PASSED"))
    && (Judgement(t, "FAILED") <==> t.failureReasons != [])
    && (t.status == FAILED || t.status == TEARDOWN_AFTER_FAILED ==> Judgement(t, "FAILED"))
    && (t.status == PASSED || t.status == TEARDOWN_AFTER_PASSED ==> Judgement(t, "PASSED"))
    && t.status != RUNNING
  }

  /** A test that has not: nothing of the teardown has happened, and it is marked as failed exactly
      when there is a reason. */
  predicate Pending(t: TestRecord, marked: bool) {
    && t.status == RUNNING && t.statusStr == None
    && (marked <==> t.failureReasons != [])
    && t.teardownOutputs == [] && t.teardownErrors == []
  }

  function Verdicts(tests: seq<TestRecord>, verdict: string): nat {
    if tests == [] then 0
    else Verdicts(tests[..|tests| - 1], verdict) + if Judgement(tests[|tests| - 1], verdict) then 1 else 0
  }

  predicate Consistent(r: Run) {
    && (forall i | 0 <= i < |r.tests| - 1 :: Settled(r.tests[i]))
    && (r.tests != [] ==> Settled(r.Last()) || Pending(r.Last(), r.marked))
    && r.passedAmount == Verdicts(r.tests, "PASSED")
    && r.failedAmount == Verdicts(r.tests, "FAILED")
    && r.finishedAmount == r.passedAmount + r.failedAmount
  }

  /** No test is waiting for its verdict. */
  predicate Idle(r: Run) {
    r.tests != [] ==> Settled(r.Last())
  }

  lemma VerdictsPush(tests: seq<TestRecord>, t: TestRecord, verdict: string)
    ensures Verdicts(tests + [t], verdict) == Verdicts(tests, verdict) + if Judgement(t, verdict) then 1 else 0
  {
    assert (tests + [t])[..|tests|] == tests;
  }

  /** In a consistent run exactly the tests with a verdict are counted as finished. */
  lemma {:induction false} FinishedCounts(tests: seq<TestRecord>)
    requires forall i | 0 <= i < |tests| - 1 :: Settled(tests[i])
    requires tests != [] ==> Settled(tests[|tests| - 1]) || tests[|tests| - 1].statusStr == None
    ensures Verdicts(tests, "PASSED") + Verdicts(tests, "FAILED")
         == |tests| - if tests != [] && !HasVerdict(tests[|tests| - 1]) then 1 else 0
  {
    if tests != [] {
      var front := tests[..|tests| - 1];
      assert front != [] ==> front[|front| - 1] == tests[|tests| - 2];
      FinishedCounts(front);
    }
  }

  lemma StartKeeps(r: Run, test: TestCase, time: string)
    requires Consistent(r) && Idle(r)
    ensures Consistent(TestStarted(r, test, time))
  {
    var t := TestStarted(r, test, time).Last();
    VerdictsPush(r.tests, t, "PASSED");
    VerdictsPush(r.tests, t, "FAILED");
  }

  lemma VerdictsReplace(r: Run, t: TestRecord, verdict: string)
    requires r.tests != []
    ensures Verdicts(r.WithLast(t).tests, verdict) + (if Judgement(r.Last(), verdict) then 1 else 0)
         == Verdicts(r.tests, verdict) + if Judgement(t, verdict) then 1 else 0
  {
    VerdictsPush(r.tests[..|r.tests| - 1], t, verdict);
  }

  /** Editing the current test keeps the invariant when the verdict stays. */
  lemma EditKeeps(r: Run, t: TestRecord, marked: bool)
    requires Consistent(r) && r.tests != []
    requires Settled(t) || Pending(t, marked)
    requires t.statusStr == r.Last().statusStr
    ensures Consistent(r.WithLast(t).(marked := marked))
  {
    VerdictsReplace(r, t, "PASSED");
    VerdictsReplace(r, t, "FAILED");
  }

  lemma ActKeeps(r: Run, e: Effect)
    requires Consistent(r)
    ensures Consistent(Acted(r, e)) && (Idle(Acted(r, e)) <==> Idle(r))
  {
    if e.Log? && r.tests != [] {
      var r' := Acted(r, e);
      EditKeeps(r, r'.Last(), r'.marked);
      assert r' == r.WithLast(r'.Last()).(marked := r'.marked) || r' == r || r' == r.(aborted := true);
    }
  }

  lemma JudgeKeeps(r: Run, error: Option<Raised>, time: string, keywords: seq<Keyword>)
    requires Consistent(r) && r.tests != [] && Pending(r.Last(), r.marked)
    ensures var r' := Judged(r, error, time, keywords); Consistent(r') && Idle(r')
  {
    var r' := Judged(r, error, time, keywords);
    var t := r'.Last();
    assert r'.tests == r.WithLast(t).tests && Settled(t);
    hide Verdicts;
    VerdictsReplace(r, t, "PASSED");
    VerdictsReplace(r, t, "FAILED");
    hide Settled;
  }

  lemma TeardownKeeps(r: Run, e: Raised, time: string)
    requires Consistent(r) && r.tests != [] && Settled(r.Last())
    ensures Consistent(TeardownStarted(r, time)) && Idle(TeardownStarted(r, time))
    ensures Consistent(DeferFailed(r, e)) && Idle(DeferFailed(r, e))
    ensures Consistent(TeardownFinished(r, time)) && Idle(TeardownFinished(r, time))
  {
    EditKeeps(r, TeardownStarted(r, time).Last(), r.marked);
    EditKeeps(r, DeferFailed(r, e).Last(), r.marked);
    EditKeeps(r, TeardownFinished(r, time).Last(), r.marked);
  }
}
