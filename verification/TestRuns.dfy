/** Whole test runs: run_all_tests and run_deferred of src/ltf_test.c with the hook loop of
    src/ltf_hooks.c, as functions of what the Lua code does, and what a test's record is in the end. */
module TestRuns {
  import opened Options
  import opened Keywords
  import opened RunState
  import opened Seqs
  import opened TestProtocol
  import LogLevel

  datatype Times = Times(started: string, finished: string, teardownStart: string, teardownEnd: string)

  /** Everything the Lua code does around one test. */
  datatype TestPlan = TestPlan(
    test: TestCase,
    times: Times,
    startHooks: seq<Chunk>,
    body: Chunk,
    keywords: seq<Keyword>,
    finishHooks: seq<Chunk>)

  function Performed(r: Run, effects: seq<Effect>): Run
    decreases effects
  {
    if effects == [] then r else Performed(Acted(r, effects[0]), effects[1..])
  }

  /** The loop over the hooks of one event: a hook's failure is swallowed, and after the first hook
      the stage is back at TEST_STAGE. */
  function HookLoop(r: Run, hooks: seq<Chunk>): Run
    decreases hooks
  {
    if hooks == [] then r
    else HookLoop(Performed(r, hooks[0].effects).(stage := TEST_STAGE), hooks[1..])
  }

  function HooksRun(r: Run, hooks: seq<Chunk>): Run {
    if hooks == [] then r.(stage := TEST_STAGE) else HookLoop(r.(stage := HOOK_STAGE), hooks)
  }

  function DeferRun(r: Run, d: Deferred, status: string): (r': Run)
    requires r.tests != []
    ensures |r'.tests| == |r.tests| && r.defers <= r'.defers
  {
    PerformedKeeps(Executed(r, d, status), d.body.effects);
    var done := Performed(Executed(r, d, status), d.body.effects);
    if d.body.error.Some? then DeferFailed(done, d.body.error.value) else done
  }

  /** The defers at positions n down to 1; what they register meanwhile goes behind them. */
  function DefersRun(r: Run, n: nat, status: string): (r': Run)
    requires n <= |r.defers| && r.tests != []
    ensures |r'.tests| == |r.tests| && r.defers <= r'.defers
    decreases n
  {
    if n == 0 then r
    else
      var done := DeferRun(r, r.defers[n - 1], status);
      DefersRun(done, n - 1, status)
  }

  lemma {:induction false} PerformedKeeps(r: Run, effects: seq<Effect>)
    ensures |Performed(r, effects).tests| == |r.tests| && r.defers <= Performed(r, effects).defers
    decreases effects
  {
    if effects != [] {
      PerformedKeeps(Acted(r, effects[0]), effects[1..]);
    }
  }

  lemma {:induction false} HooksKeep(r: Run, hooks: seq<Chunk>)
    ensures |HookLoop(r, hooks).tests| == |r.tests|
    decreases hooks
  {
    if hooks != [] {
      PerformedKeeps(r, hooks[0].effects);
      HooksKeep(Performed(r, hooks[0].effects).(stage := TEST_STAGE), hooks[1..]);
    }
  }

  function DeferredRun(r: Run, status: string, times: Times): Run
    requires r.tests != []
  {
    if r.defers == [] then r
    else
      TeardownFinished(DefersRun(TeardownStarted(r, times.teardownStart), |r.defers|, status), times.teardownEnd)
        .(defers := [])
  }

  /** The status defers are told: how the body's call ended. */
  function StatusOf(body: Chunk): string {
    if body.error.None? then "passed" else "failed"
  }

  function BodyRun(r: Run, p: TestPlan): (r': Run)
    ensures |r'.tests| == |r.tests| + 1
  {
    var begun := TestStarted(r, p.test, p.times.started);
    HooksKeep(begun.(stage := HOOK_STAGE), p.startHooks);
    PerformedKeeps(HooksRun(begun, p.startHooks), p.body.effects);
    Performed(HooksRun(begun, p.startHooks), p.body.effects)
  }

  function TestRun(r: Run, p: TestPlan): Run {
    var judged := Judged(BodyRun(r, p), p.body.error, p.times.finished, p.keywords);
    HooksRun(DeferredRun(judged, StatusOf(p.body), p.times), p.finishHooks)
  }

  function TestsRun(r: Run, plans: seq<TestPlan>): Run
    decreases plans
  {
    if plans == [] then r else TestsRun(TestRun(r, plans[0]), plans[1..])
  }

  // ----- what the code does, without the state -----

  function Lines(effects: seq<Effect>): seq<Output> {
    if effects == [] then []
    else (if effects[0].Log? then [LineOf(effects[0])] else []) + Lines(effects[1..])
  }

  function Errors(lines: seq<Output>): seq<Output> {
    if lines == [] then []
    else (if lines[0].level == LogLevel.ERROR then [lines[0]] else []) + Errors(lines[1..])
  }

  function Defers(effects: seq<Effect>): seq<Deferred> {
    if effects == [] then []
    else (if effects[0].Defer? then [effects[0].deferred] else []) + Defers(effects[1..])
  }

  function EffectsOf(chunks: seq<Chunk>): seq<Effect> {
    if chunks == [] then [] else chunks[0].effects + EffectsOf(chunks[1..])
  }

  function Reversed<T>(s: seq<T>): seq<T> {
    if s == [] then [] else Reversed(s[1..]) + [s[0]]
  }

  function TeardownLines(defers: seq<Deferred>): seq<Output> {
    if defers == [] then [] else Lines(defers[0].body.effects) + TeardownLines(defers[1..])
  }

  function ErrorIn(body: Chunk): seq<Output> {
    if body.error.Some? then [ErrorOf(body.error.value)] else []
  }

  function TeardownErrors(defers: seq<Deferred>): seq<Output> {
    if defers == [] then [] else ErrorIn(defers[0].body) + TeardownErrors(defers[1..])
  }

  function Executions(defers: seq<Deferred>, status: string): seq<Execution> {
    if defers == [] then []
    else
      var args := if defers[0].args == [] then [status] else defers[0].args;
      [Execution(defers[0], args)] + Executions(defers[1..], status)
  }

  /** What counts for the test while its body runs: lines of the start hooks after the first, then
      the body's. */
  function RunningEffects(p: TestPlan): seq<Effect> {
    EffectsOf(if p.startHooks == [] then [] else p.startHooks[1..]) + p.body.effects
  }

  /** The test fails: its body raised, or an error line was logged before the verdict. */
  predicate Fails(p: TestPlan) {
    p.body.error.Some? || Errors(Lines(RunningEffects(p))) != []
  }

  /** The defers waiting when the verdict has been reached. */
  function Waiting(r: Run, p: TestPlan): seq<Deferred> {
    r.defers + Defers(EffectsOf(p.startHooks)) + Defers(p.body.effects)
  }

  /** The record a test ends with. */
  function FinalRecord(r: Run, p: TestPlan): TestRecord {
    var waiting := Reversed(Waiting(r, p));
    var lines := Lines(RunningEffects(p));
    TestRecord(
      Some(p.test.name), p.test.description, Some(p.times.started), Some(p.times.finished),
      if waiting == [] then None else Some(p.times.teardownStart),
      if waiting == [] then None else Some(p.times.teardownEnd),
      if Fails(p) then FAILED else PASSED,
      Some(if Fails(p) then "FAILED" else "PASSED"),
      p.test.tags,
      Errors(lines) + (if p.body.error.Some? then [Reason(p.body.error.value, p.times.finished)] else []),
      lines,
      TeardownLines(waiting),
      TeardownErrors(waiting),
      p.keywords)
  }

  // ----- the effects of a piece of code, by the state it runs in -----

  lemma {:induction false} ListsConcat(a: seq<Effect>, b: seq<Effect>)
    ensures Lines(a + b) == Lines(a) + Lines(b)
    ensures Defers(a + b) == Defers(a) + Defers(b)
  {
    if a == [] {
      assert a + b == b;
    } else {
      var line := if a[0].Log? then [LineOf(a[0])] else [];
      var deferred := if a[0].Defer? then [a[0].deferred] else [];
      assert (a + b)[1..] == a[1..] + b;
      assert Lines(a + b) == line + Lines(a[1..] + b) && Lines(a) == line + Lines(a[1..]);
      assert Defers(a + b) == deferred + Defers(a[1..] + b) && Defers(a) == deferred + Defers(a[1..]);
      hide Lines, Defers;
      ListsConcat(a[1..], b);
      Associative(line, Lines(a[1..]), Lines(b));
      Associative(deferred, Defers(a[1..]), Defers(b));
    }
  }

  lemma {:induction false} ErrorsConcat(a: seq<Output>, b: seq<Output>)
    ensures Errors(a + b) == Errors(a) + Errors(b)
  {
    if a == [] {
      assert a + b == b;
    } else {
      var error := if a[0].level == LogLevel.ERROR then [a[0]] else [];
      assert (a + b)[1..] == a[1..] + b;
      assert Errors(a + b) == error + Errors(a[1..] + b) && Errors(a) == error + Errors(a[1..]);
      hide Errors;
      ErrorsConcat(a[1..], b);
      Associative(error, Errors(a[1..]), Errors(b));
    }
  }

  /** The run after code has run in front of the verdict. */
  function WhileRunning(r: Run, lines: seq<Output>, defers: seq<Deferred>): Run
    requires r.tests != []
  {
    var t := r.Last();
    r.WithLast(t.(outputs := t.outputs + lines, failureReasons := t.failureReasons + Errors(lines)))
     .(marked := r.marked || Errors(lines) != [], defers := r.defers + defers)
  }

  lemma RunningTwice(r: Run, lines: seq<Output>, defers: seq<Deferred>, lines': seq<Output>, defers': seq<Deferred>)
    requires r.tests != []
    ensures WhileRunning(WhileRunning(r, lines, defers), lines', defers')
         == WhileRunning(r, lines + lines', defers + defers')
  {
    ErrorsConcat(lines, lines');
    hide Errors;
    var t := r.Last();
    Associative(t.outputs, lines, lines');
    Associative(t.failureReasons, Errors(lines), Errors(lines'));
    Associative(r.defers, defers, defers');
  }

  lemma RunningNothing(r: Run)
    requires r.tests != []
    ensures WhileRunning(r, [], []) == r
  {
    assert r.WithLast(r.Last()) == r;
    assert r.Last().outputs + [] == r.Last().outputs && r.Last().failureReasons + [] == r.Last().failureReasons;
    assert r.defers + [] == r.defers;
  }

  lemma {:induction false} PerformedRunning(r: Run, effects: seq<Effect>)
    requires !r.aborted && r.stage == TEST_STAGE && r.tests != [] && r.Last().status == RUNNING
    ensures Performed(r, effects) == WhileRunning(r, Lines(effects), Defers(effects))
    decreases effects
  {
    if effects == [] {
      RunningNothing(r);
    } else {
      ActedRunning(r, effects[0]);
      PerformedRunning(Acted(r, effects[0]), effects[1..]);
      Front(effects);
      RunningTwice(r, Lines([effects[0]]), Defers([effects[0]]), Lines(effects[1..]), Defers(effects[1..]));
    }
  }

  lemma ActedRunning(r: Run, e: Effect)
    requires !r.aborted && r.stage == TEST_STAGE && r.tests != [] && r.Last().status == RUNNING
    ensures Acted(r, e) == WhileRunning(r, Lines([e]), Defers([e]))
  {
    if e.Log? {
      assert Lines([e]) == [LineOf(e)] && Defers([e]) == [];
      assert Errors([LineOf(e)]) == if e.level == LogLevel.ERROR then [LineOf(e)] else [];
      assert r.Last().failureReasons + [] == r.Last().failureReasons && r.defers + [] == r.defers;
    } else {
      assert Lines([e]) == [] && Defers([e]) == [e.deferred];
      RunningNothing(r);
    }
  }

  lemma Front(effects: seq<Effect>)
    requires effects != []
    ensures Lines(effects) == Lines([effects[0]]) + Lines(effects[1..])
    ensures Defers(effects) == Defers([effects[0]]) + Defers(effects[1..])
  {
    assert [effects[0]] + effects[1..] == effects;
    ListsConcat([effects[0]], effects[1..]);
  }

  /** During a hook's own stage, and once the current test is over, lines leave the record alone. */
  lemma {:induction false} PerformedSilently(r: Run, effects: seq<Effect>)
    requires !r.aborted
    requires r.stage == HOOK_STAGE || (r.tests != [] && (r.Last().status == FAILED || r.Last().status == PASSED))
    ensures Performed(r, effects) == r.(defers := r.defers + Defers(effects))
    decreases effects
  {
    if effects == [] {
      assert r.defers + [] == r.defers;
    } else {
      ActedSilently(r, effects[0]);
      hide Acted, Defers;
      PerformedSilently(r.(defers := r.defers + Defers([effects[0]])), effects[1..]);
      Front(effects);
      Associative(r.defers, Defers([effects[0]]), Defers(effects[1..]));
    }
  }

  lemma ActedSilently(r: Run, e: Effect)
    requires !r.aborted
    requires r.stage == HOOK_STAGE || (r.tests != [] && (r.Last().status == FAILED || r.Last().status == PASSED))
    ensures Acted(r, e) == r.(defers := r.defers + Defers([e]))
  {
    assert r.defers + [] == r.defers;
    assert Defers([e]) == if e.Defer? then [e.deferred] else [];
  }

  /** The run after code has run during teardown. */
  function WhileTeardown(r: Run, lines: seq<Output>, defers: seq<Deferred>): Run
    requires r.tests != []
  {
    var t := r.Last();
    r.WithLast(t.(teardownOutputs := t.teardownOutputs + lines)).(defers := r.defers + defers)
  }

  lemma TeardownNothing(r: Run)
    requires r.tests != []
    ensures WhileTeardown(r, [], []) == r
  {
    assert r.WithLast(r.Last()) == r;
    assert r.Last().teardownOutputs + [] == r.Last().teardownOutputs && r.defers + [] == r.defers;
  }

  lemma TeardownTwice(r: Run, lines: seq<Output>, defers: seq<Deferred>, lines': seq<Output>, defers': seq<Deferred>)
    requires r.tests != []
    ensures WhileTeardown(WhileTeardown(r, lines, defers), lines', defers')
         == WhileTeardown(r, lines + lines', defers + defers')
  {
    assert r.Last().teardownOutputs + lines + lines' == r.Last().teardownOutputs + (lines + lines');
    assert r.defers + defers + defers' == r.defers + (defers + defers');
  }

  lemma ActedTeardown(r: Run, e: Effect)
    requires !r.aborted && r.stage == TEST_STAGE && r.tests != []
    requires r.Last().status == TEARDOWN_AFTER_FAILED || r.Last().status == TEARDOWN_AFTER_PASSED
    ensures Acted(r, e) == WhileTeardown(r, Lines([e]), Defers([e]))
  {
    if e.Log? {
      assert Lines([e]) == [LineOf(e)] && Defers([e]) == [] && r.defers + [] == r.defers;
    } else {
      assert Lines([e]) == [] && Defers([e]) == [e.deferred];
      TeardownNothing(r);
    }
  }

  lemma {:induction false} PerformedTeardown(r: Run, effects: seq<Effect>)
    requires !r.aborted && r.stage == TEST_STAGE && r.tests != []
    requires r.Last().status == TEARDOWN_AFTER_FAILED || r.Last().status == TEARDOWN_AFTER_PASSED
    ensures Performed(r, effects) == WhileTeardown(r, Lines(effects), Defers(effects))
    decreases effects
  {
    if effects == [] {
      TeardownNothing(r);
    } else {
      ActedTeardown(r, effects[0]);
      PerformedTeardown(Acted(r, effects[0]), effects[1..]);
      Front(effects);
      TeardownTwice(r, Lines([effects[0]]), Defers([effects[0]]), Lines(effects[1..]), Defers(effects[1..]));
    }
  }

  /** Before any test has started a line from anything but the first hook ends the program. */
  lemma {:induction false} PerformedTooEarly(r: Run, effects: seq<Effect>)
    requires r.tests == [] && r.stage == TEST_STAGE
    ensures Performed(r, effects).aborted <==> r.aborted || Lines(effects) != []
    ensures Performed(r, effects)
         == r.(aborted := Performed(r, effects).aborted, defers := Performed(r, effects).defers)
    decreases effects
  {
    if effects != [] {
      PerformedTooEarly(Acted(r, effects[0]), effects[1..]);
    }
  }

  // ----- hooks -----

  /** Start hooks: the first speaks at its own stage, the rest as if they were the test. */
  lemma {:induction false} LateHooksRunning(r: Run, hooks: seq<Chunk>)
    requires !r.aborted && r.stage == TEST_STAGE && r.tests != [] && r.Last().status == RUNNING
    ensures HookLoop(r, hooks) == WhileRunning(r, Lines(EffectsOf(hooks)), Defers(EffectsOf(hooks)))
    decreases hooks
  {
    if hooks == [] {
      RunningNothing(r);
    } else {
      var first, rest := hooks[0].effects, EffectsOf(hooks[1..]);
      PerformedRunning(r, first);
      LateHooksRunning(Performed(r, first).(stage := TEST_STAGE), hooks[1..]);
      ListsConcat(first, rest);
      RunningTwice(r, Lines(first), Defers(first), Lines(rest), Defers(rest));
    }
  }

  lemma {:induction false} SilentHook(r: Run, hooks: seq<Chunk>)
    requires !r.aborted && r.stage == TEST_STAGE && r.tests != [] && hooks != []
    requires r.Last().status == FAILED || r.Last().status == PASSED
    ensures HookLoop(r, hooks) == HookLoop(r.(defers := r.defers + Defers(hooks[0].effects)), hooks[1..])
  {
    PerformedSilently(r, hooks[0].effects);
    hide Performed, Defers;
    assert r.(defers := r.defers + Defers(hooks[0].effects)).(stage := TEST_STAGE)
        == r.(defers := r.defers + Defers(hooks[0].effects));
  }

  lemma {:induction false} HooksSilent(r: Run, hooks: seq<Chunk>)
    requires !r.aborted && r.stage == TEST_STAGE && r.tests != []
    requires r.Last().status == FAILED || r.Last().status == PASSED
    ensures HookLoop(r, hooks) == r.(defers := r.defers + Defers(EffectsOf(hooks)))
    decreases hooks
  {
    if hooks == [] {
      assert r.defers + [] == r.defers;
    } else {
      var first, rest := hooks[0].effects, EffectsOf(hooks[1..]);
      SilentHook(r, hooks);
      hide HookLoop;
      HooksSilent(r.(defers := r.defers + Defers(first)), hooks[1..]);
      ListsConcat(first, rest);
      hide Defers;
      Associative(r.defers, Defers(first), Defers(rest));
    }
  }

  /** Before the first test: the program ends exactly when a hook after the first one logs a line. */
  lemma {:induction false} EarlyHooks(r: Run, hooks: seq<Chunk>)
    requires r.tests == [] && r.stage == TEST_STAGE
    ensures var r' := HookLoop(r, hooks);
      && (r'.aborted <==> r.aborted || Lines(EffectsOf(hooks)) != [])
      && r' == r.(aborted := r'.aborted, defers := r'.defers)
    decreases hooks
  {
    if hooks != [] {
      PerformedTooEarly(r, hooks[0].effects);
      ListsConcat(hooks[0].effects, EffectsOf(hooks[1..]));
      EarlyHooks(Performed(r, hooks[0].effects).(stage := TEST_STAGE), hooks[1..]);
    }
  }

  // ----- teardown -----

  /** What defers register while they run. */
  function Late(defers: seq<Deferred>): seq<Deferred> {
    if defers == [] then [] else Defers(defers[0].body.effects) + Late(defers[1..])
  }

  /** The run after these defers have been executed, in this order. */
  function AfterDefers(r: Run, defers: seq<Deferred>, status: string): Run
    requires r.tests != []
  {
    var t := r.Last();
    r.WithLast(t.(teardownOutputs := t.teardownOutputs + TeardownLines(defers),
                  teardownErrors := t.teardownErrors + TeardownErrors(defers)))
     .(defers := r.defers + Late(defers), executed := r.executed + Executions(defers, status))
  }

  predicate TearingDown(r: Run) {
    && !r.aborted && r.stage == TEST_STAGE && r.tests != []
    && (r.Last().status == TEARDOWN_AFTER_FAILED || r.Last().status == TEARDOWN_AFTER_PASSED)
  }

  lemma OneDefer(r: Run, d: Deferred, status: string)
    requires TearingDown(r)
    ensures DeferRun(r, d, status) == AfterDefers(r, [d], status)
  {
    var begun := Executed(r, d, status);
    PerformedTeardown(begun, d.body.effects);
    var lines, t := Lines(d.body.effects), r.Last();
    assert [d][1..] == [];
    assert TeardownLines([d]) == lines + [] == lines;
    assert TeardownErrors([d]) == ErrorIn(d.body) + [] == ErrorIn(d.body);
    assert Late([d]) == Defers(d.body.effects) + [] == Defers(d.body.effects);
    assert t.teardownErrors + [] == t.teardownErrors;
    assert Executions([d], status) == [Execution(d, if d.args == [] then [status] else d.args)];
  }

  lemma DefersJoin(d: Deferred, rest: seq<Deferred>, status: string)
    ensures TeardownLines([d] + rest) == TeardownLines([d]) + TeardownLines(rest)
    ensures TeardownErrors([d] + rest) == TeardownErrors([d]) + TeardownErrors(rest)
    ensures Late([d] + rest) == Late([d]) + Late(rest)
    ensures Executions([d] + rest, status) == Executions([d], status) + Executions(rest, status)
  {
    assert ([d] + rest)[1..] == rest && [d][1..] == [];
    assert Lines(d.body.effects) + [] == Lines(d.body.effects);
    assert ErrorIn(d.body) + [] == ErrorIn(d.body);
    assert Defers(d.body.effects) + [] == Defers(d.body.effects);
  }

  lemma AfterDefersTwice(r: Run, d: Deferred, rest: seq<Deferred>, status: string)
    requires r.tests != []
    ensures AfterDefers(AfterDefers(r, [d], status), rest, status) == AfterDefers(r, [d] + rest, status)
  {
    DefersJoin(d, rest, status);
    hide TeardownLines, TeardownErrors, Late, Executions;
    var t := r.Last();
    assert t.teardownOutputs + TeardownLines([d]) + TeardownLines(rest)
        == t.teardownOutputs + (TeardownLines([d]) + TeardownLines(rest));
    assert t.teardownErrors + TeardownErrors([d]) + TeardownErrors(rest)
        == t.teardownErrors + (TeardownErrors([d]) + TeardownErrors(rest));
    assert r.defers + Late([d]) + Late(rest) == r.defers + (Late([d]) + Late(rest));
    assert r.executed + Executions([d], status) + Executions(rest, status)
        == r.executed + (Executions([d], status) + Executions(rest, status));
  }

  lemma AfterNoDefers(r: Run, status: string)
    requires r.tests != []
    ensures AfterDefers(r, [], status) == r
  {
    assert r.WithLast(r.Last()) == r;
    assert r.Last().teardownOutputs + [] == r.Last().teardownOutputs;
    assert r.Last().teardownErrors + [] == r.Last().teardownErrors;
    assert r.defers + [] == r.defers && r.executed + [] == r.executed;
  }

  lemma {:induction false} ReversedSnoc<T>(s: seq<T>, x: T)
    ensures Reversed(s + [x]) == [x] + Reversed(s)
  {
    if s == [] {
      assert s + [x] == [x];
    } else {
      assert (s + [x])[1..] == s[1..] + [x];
      ReversedSnoc(s[1..], x);
    }
  }

  /** The defers run newest first, each exactly once, whichever of them raise. */
  lemma {:induction false} DefersRunReversed(r: Run, n: nat, status: string)
    requires TearingDown(r) && n <= |r.defers|
    ensures DefersRun(r, n, status) == AfterDefers(r, Reversed(r.defers[..n]), status)
    decreases n
  {
    if n == 0 {
      AfterNoDefers(r, status);
    } else {
      var d := r.defers[n - 1];
      OneDefer(r, d, status);
      var r1 := DeferRun(r, d, status);
      hide DeferRun, TeardownLines, TeardownErrors, Late, Executions, Reversed;
      DefersRunReversed(r1, n - 1, status);
      assert r1.defers[..n - 1] == r.defers[..n - 1];
      assert r.defers[..n] == r.defers[..n - 1] + [d];
      ReversedSnoc(r.defers[..n - 1], d);
      AfterDefersTwice(r, d, Reversed(r.defers[..n - 1]), status);
    }
  }

  /** Teardown as a whole: every defer registered before it runs exactly once, newest first; the
      errors are recorded in the order of execution; defers registered meanwhile do not run and the
      queue ends empty; verdict, reasons, outputs and counters are as before. */
  lemma TeardownRuns(r: Run, status: string, times: Times)
    requires !r.aborted && r.stage == TEST_STAGE && r.tests != []
    requires r.Last().status == FAILED || r.Last().status == PASSED
    ensures var t, defers := r.Last(), Reversed(r.defers);
      DeferredRun(r, status, times) == if r.defers == [] then r else
        r.WithLast(t.(teardownStart := Some(times.teardownStart),
                      teardownEnd := Some(times.teardownEnd),
                      teardownOutputs := t.teardownOutputs + TeardownLines(defers),
                      teardownErrors := t.teardownErrors + TeardownErrors(defers)))
         .(defers := [], executed := r.executed + Executions(defers, status))
  {
    if r.defers != [] {
      var begun := TeardownStarted(r, times.teardownStart);
      assert begun.defers[..|r.defers|] == r.defers;
      DefersRunReversed(begun, |r.defers|, status);
    }
  }

  // ----- one test, and all of them -----

  /** The first hook's lines do not reach the test. */
  lemma FirstHookSilent(r: Run, hooks: seq<Chunk>)
    requires !r.aborted && hooks != []
    ensures HooksRun(r, hooks)
         == HookLoop(r.(stage := TEST_STAGE, defers := r.defers + Defers(hooks[0].effects)), hooks[1..])
  {
    PerformedSilently(r.(stage := HOOK_STAGE), hooks[0].effects);
  }

  lemma EarlierDefers(r: Run, earlier: seq<Deferred>, lines: seq<Output>, defers: seq<Deferred>)
    requires r.tests != []
    ensures WhileRunning(r.(defers := r.defers + earlier), lines, defers) == WhileRunning(r, lines, earlier + defers)
  {
    assert r.defers + earlier + defers == r.defers + (earlier + defers);
  }

  lemma StartHooksRun(r: Run, hooks: seq<Chunk>)
    requires !r.aborted && r.stage == TEST_STAGE && r.tests != [] && r.Last().status == RUNNING
    ensures var late := if hooks == [] then [] else EffectsOf(hooks[1..]);
      HooksRun(r, hooks) == WhileRunning(r, Lines(late), Defers(EffectsOf(hooks)))
  {
    if hooks == [] {
      RunningNothing(r);
    } else {
      var first, late := hooks[0].effects, EffectsOf(hooks[1..]);
      FirstHookSilent(r, hooks);
      ListsConcat(first, late);
      EarlierDefers(r, Defers(first), Lines(late), Defers(late));
      hide HooksRun, HookLoop, Defers, Lines, WhileRunning;
      var r1 := r.(defers := r.defers + Defers(first));
      assert r1 == r.(stage := TEST_STAGE, defers := r.defers + Defers(first));
      LateHooksRunning(r1, hooks[1..]);
    }
  }

  lemma FinishHooksRun(r: Run, hooks: seq<Chunk>)
    requires !r.aborted && r.stage == TEST_STAGE && r.tests != []
    requires r.Last().status == FAILED || r.Last().status == PASSED
    ensures HooksRun(r, hooks) == r.(defers := r.defers + Defers(EffectsOf(hooks)))
  {
    if hooks == [] {
      assert r.defers + [] == r.defers;
    } else {
      var first, rest := hooks[0].effects, EffectsOf(hooks[1..]);
      FirstHookSilent(r, hooks);
      ListsConcat(first, rest);
      hide HooksRun, HookLoop, Defers, EffectsOf;
      var r1 := r.(defers := r.defers + Defers(first));
      assert r.(stage := TEST_STAGE, defers := r1.defers) == r1;
      HooksSilent(r1, hooks[1..]);
      Associative(r.defers, Defers(first), Defers(rest));
    }
  }

  lemma BodyRuns(r: Run, p: TestPlan)
    requires !r.aborted && r.stage == TEST_STAGE
    ensures BodyRun(r, p)
         == WhileRunning(TestStarted(r, p.test, p.times.started), Lines(RunningEffects(p)),
                         Defers(EffectsOf(p.startHooks)) + Defers(p.body.effects))
  {
    var begun := TestStarted(r, p.test, p.times.started);
    var late := if p.startHooks == [] then [] else EffectsOf(p.startHooks[1..]);
    StartHooksRun(begun, p.startHooks);
    var hooked := WhileRunning(begun, Lines(late), Defers(EffectsOf(p.startHooks)));
    PerformedRunning(hooked, p.body.effects);
    RunningTwice(begun, Lines(late), Defers(EffectsOf(p.startHooks)), Lines(p.body.effects), Defers(p.body.effects));
    ListsConcat(late, p.body.effects);
    assert EffectsOf(if p.startHooks == [] then [] else p.startHooks[1..]) == late;
  }

  /** The run after one test: its record is the final record, one more test is counted under its
      verdict, the waiting defers have run newest first, and only defers of the finish hooks wait. */
  function AfterTest(r: Run, p: TestPlan): Run {
    Run(r.tests + [FinalRecord(r, p)],
        r.passedAmount + (if Fails(p) then 0 else 1),
        r.failedAmount + (if Fails(p) then 1 else 0),
        r.finishedAmount + 1,
        TEST_STAGE,
        Errors(Lines(RunningEffects(p))) != [],
        Defers(EffectsOf(p.finishHooks)),
        r.executed + Executions(Reversed(Waiting(r, p)), StatusOf(p.body)),
        false)
  }

  /** The run when the verdict has been reached, after these lines and defers. */
  function JudgedAs(r: Run, p: TestPlan, lines: seq<Output>, defers: seq<Deferred>): Run {
    var failed := p.body.error.Some? || Errors(lines) != [];
    var reasons := Errors(lines) + if p.body.error.Some? then [Reason(p.body.error.value, p.times.finished)] else [];
    var t := TestRecord(Some(p.test.name), p.test.description, Some(p.times.started), Some(p.times.finished),
                        None, None, if failed then FAILED else PASSED,
                        Some(if failed then "FAILED" else "PASSED"), p.test.tags, reasons, lines, [], [], p.keywords);
    Run(r.tests + [t],
        r.passedAmount + (if failed then 0 else 1), r.failedAmount + (if failed then 1 else 0),
        r.finishedAmount + 1, r.stage, Errors(lines) != [], r.defers + defers, r.executed, r.aborted)
  }

  lemma VerdictReached(r: Run, p: TestPlan, lines: seq<Output>, defers: seq<Deferred>)
    ensures Judged(WhileRunning(TestStarted(r, p.test, p.times.started), lines, defers),
                   p.body.error, p.times.finished, p.keywords)
         == JudgedAs(r, p, lines, defers)
  {
    hide Errors;
    assert [] + lines == lines && [] + Errors(lines) == Errors(lines) && Errors(lines) + [] == Errors(lines);
    var judged := Judged(WhileRunning(TestStarted(r, p.test, p.times.started), lines, defers),
                         p.body.error, p.times.finished, p.keywords);
    assert judged.tests == r.tests + [judged.Last()];
  }

  lemma {:induction false} ReversedEmpty<T>(s: seq<T>)
    ensures Reversed(s) == [] <==> s == []
  {
  }

  /** The run when a test's verdict has been reached. */
  function Verdict(r: Run, p: TestPlan): Run {
    JudgedAs(r, p, Lines(RunningEffects(p)), Defers(EffectsOf(p.startHooks)) + Defers(p.body.effects))
  }

  lemma VerdictIs(r: Run, p: TestPlan)
    requires !r.aborted && r.stage == TEST_STAGE
    ensures Judged(BodyRun(r, p), p.body.error, p.times.finished, p.keywords) == Verdict(r, p)
    ensures Verdict(r, p).defers == Waiting(r, p)
  {
    var early, own := Defers(EffectsOf(p.startHooks)), Defers(p.body.effects);
    hide Lines, Defers, EffectsOf, RunningEffects, Errors;
    BodyRuns(r, p);
    hide BodyRun, Judged, WhileRunning, TestStarted;
    VerdictReached(r, p, Lines(RunningEffects(p)), early + own);
    Associative(r.defers, early, own);
  }

  /** One test, whatever its code does. */
  lemma TestRunIs(r: Run, p: TestPlan)
    requires !r.aborted && r.stage == TEST_STAGE
    ensures TestRun(r, p) == AfterTest(r, p)
  {
    hide BodyRun, Judged, Verdict, DeferredRun, HooksRun, FinalRecord, Waiting, Executions, Lines, Defers, Errors,
         Fails;
    VerdictIs(r, p);
    TornDown(r, p);
    FinishHooksRun(DeferredRun(Verdict(r, p), StatusOf(p.body), p.times), p.finishHooks);
    assert [] + Defers(EffectsOf(p.finishHooks)) == Defers(EffectsOf(p.finishHooks));
  }

  /** A record as teardown leaves it. */
  function TornRecord(t: TestRecord, defers: seq<Deferred>, times: Times): TestRecord {
    if defers == [] then t
    else t.(teardownStart := Some(times.teardownStart),
            teardownEnd := Some(times.teardownEnd),
            teardownOutputs := t.teardownOutputs + TeardownLines(defers),
            teardownErrors := t.teardownErrors + TeardownErrors(defers))
  }

  lemma TornIsFinal(r: Run, p: TestPlan)
    ensures Verdict(r, p).tests == r.tests + [Verdict(r, p).Last()]
    ensures TornRecord(Verdict(r, p).Last(), Reversed(Waiting(r, p)), p.times) == FinalRecord(r, p)
    ensures FinalRecord(r, p).status == FAILED || FinalRecord(r, p).status == PASSED
    ensures Verdict(r, p).Last().status == FinalRecord(r, p).status
  {
    var waiting := Reversed(Waiting(r, p));
    hide Lines, Defers, Errors, RunningEffects, EffectsOf, Waiting;
    assert [] + TeardownLines(waiting) == TeardownLines(waiting);
    assert [] + TeardownErrors(waiting) == TeardownErrors(waiting);
  }

  lemma TornDown(r: Run, p: TestPlan)
    requires !r.aborted && r.stage == TEST_STAGE && Verdict(r, p).defers == Waiting(r, p)
    ensures Verdict(r, p).tests != []
    ensures DeferredRun(Verdict(r, p), StatusOf(p.body), p.times) == AfterTest(r, p).(defers := [])
    ensures AfterTest(r, p).Last().status == FAILED || AfterTest(r, p).Last().status == PASSED
  {
    var judged, waiting := Verdict(r, p), Waiting(r, p);
    TornIsFinal(r, p);
    hide FinalRecord, DeferredRun, Lines, Defers, Errors, RunningEffects, EffectsOf, Waiting, TeardownLines,
         TeardownErrors;
    TeardownRuns(judged, StatusOf(p.body), p.times);
    ReversedEmpty(waiting);
    if waiting == [] {
      assert r.executed + Executions(Reversed(waiting), StatusOf(p.body)) == r.executed;
    } else {
      hide Executions, Reversed;
      assert judged.WithLast(FinalRecord(r, p)).tests == r.tests + [FinalRecord(r, p)];
    }
  }

  /** One test keeps the run consistent. */
  lemma TestRunKeeps(r: Run, p: TestPlan)
    requires Consistent(r) && Idle(r) && !r.aborted && r.stage == TEST_STAGE
    ensures var r' := TestRun(r, p); Consistent(r') && Idle(r') && !r'.aborted && r'.stage == TEST_STAGE
  {
    TestRunIs(r, p);
    FinalIsSettled(r, p);
    hide TestRun, FinalRecord, Settled, Fails, Judgement;
    SettledAdded(r, AfterTest(r, p), FinalRecord(r, p));
  }

  lemma TestRunCounts(r: Run, p: TestPlan)
    requires !r.aborted && r.stage == TEST_STAGE
    ensures var r' := TestRun(r, p);
      && r'.passedAmount == r.passedAmount + (if Fails(p) then 0 else 1)
      && r'.failedAmount == r.failedAmount + (if Fails(p) then 1 else 0)
      && (Judged(BodyRun(r, p), p.body.error, p.times.finished, p.keywords).passedAmount == r'.passedAmount)
      && BodyRun(r, p).passedAmount == r.passedAmount
  {
    TestRunIs(r, p);
    BodyRuns(r, p);
    VerdictReached(r, p, Lines(RunningEffects(p)), Defers(EffectsOf(p.startHooks)) + Defers(p.body.effects));
  }

  lemma SettledAdded(r: Run, r': Run, t: TestRecord)
    requires Consistent(r) && Idle(r) && Settled(t) && r'.tests == r.tests + [t]
    requires r'.passedAmount == r.passedAmount + (if Judgement(t, "PASSED") then 1 else 0)
    requires r'.failedAmount == r.failedAmount + (if Judgement(t, "FAILED") then 1 else 0)
    requires r'.finishedAmount == r.finishedAmount + 1
    ensures Consistent(r') && Idle(r')
  {
    VerdictsPush(r.tests, t, "PASSED");
    VerdictsPush(r.tests, t, "FAILED");
  }

  lemma FinalIsSettled(r: Run, p: TestPlan)
    ensures Settled(FinalRecord(r, p)) && Answers(FinalRecord(r, p), p)
    ensures Judgement(FinalRecord(r, p), "FAILED") <==> Fails(p)
    ensures Judgement(FinalRecord(r, p), "PASSED") <==> !Fails(p)
  {
    hide Errors, Lines, EffectsOf, RunningEffects;
  }

  function Passing(plans: seq<TestPlan>): nat {
    if plans == [] then 0 else (if Fails(plans[0]) then 0 else 1) + Passing(plans[1..])
  }

  /** The record answers to the plan: what it is called, what it logged, and its verdict. */
  predicate Answers(t: TestRecord, p: TestPlan) {
    && t.name == Some(p.test.name)
    && t.outputs == Lines(RunningEffects(p))
    && t.statusStr == Some(if Fails(p) then "FAILED" else "PASSED")
    && t.status == (if Fails(p) then FAILED else PASSED)
  }

  predicate AllAnswer(tests: seq<TestRecord>, plans: seq<TestPlan>) {
    |tests| == |plans| && forall i | 0 <= i < |plans| :: Answers(tests[i], plans[i])
  }

  lemma AllAnswerJoin(before: seq<TestRecord>, first: seq<TestRecord>, after: seq<TestRecord>, plans: seq<TestPlan>)
    requires plans != [] && before <= first <= after && |first| == |before| + 1
    requires Answers(first[|before|], plans[0]) && AllAnswer(after[|first|..], plans[1..])
    ensures before <= after && AllAnswer(after[|before|..], plans)
  {
    hide Answers;
    var n := |before|;
    forall i | 0 <= i < |plans| ensures Answers(after[n..][i], plans[i]) {
      if i > 0 {
        assert after[n..][i] == after[|first|..][i - 1] && plans[1..][i - 1] == plans[i];
      }
    }
  }

  lemma FirstTest(r: Run, p: TestPlan)
    requires Consistent(r) && Idle(r) && !r.aborted && r.stage == TEST_STAGE
    ensures var r1 := TestRun(r, p);
      && Consistent(r1) && Idle(r1) && !r1.aborted && r1.stage == TEST_STAGE
      && |r1.tests| == |r.tests| + 1 && r.tests <= r1.tests
      && r1.passedAmount == r.passedAmount + (if Fails(p) then 0 else 1)
      && Answers(r1.tests[|r.tests|], p)
  {
    TestRunKeeps(r, p);
    TestRunIs(r, p);
    FinalIsSettled(r, p);
    hide TestRun, Consistent, Idle, Answers, Fails, FinalRecord;
  }

  /** Every test of a run ends with a record of its own, in order, and the counters agree. */
  lemma {:induction false} TestsRunIs(r: Run, plans: seq<TestPlan>)
    requires Consistent(r) && Idle(r) && !r.aborted && r.stage == TEST_STAGE
    ensures var r' := TestsRun(r, plans);
      && Consistent(r') && Idle(r') && !r'.aborted && r'.stage == TEST_STAGE
      && r.tests <= r'.tests && AllAnswer(r'.tests[|r.tests|..], plans)
      && r'.passedAmount == r.passedAmount + Passing(plans)
    decreases plans
  {
    if plans != [] {
      var r1 := TestRun(r, plans[0]);
      FirstTest(r, plans[0]);
      assert TestsRun(r, plans) == TestsRun(r1, plans[1..]);
      assert Passing(plans) == (if Fails(plans[0]) then 0 else 1) + Passing(plans[1..]);
      hide TestRun, TestsRun, Passing, Consistent, Idle, AllAnswer, Answers, Fails;
      TestsRunIs(r1, plans[1..]);
      AllAnswerJoin(r.tests, r1.tests, TestsRun(r1, plans[1..]).tests, plans);
    }
  }

  /** The records of consecutive tests: each is the final record of its test, in the state the tests
      before it have left. */
  predicate Recorded(r: Run, tests: seq<TestRecord>, plans: seq<TestPlan>) {
    |tests| == |plans| && forall i | 0 <= i < |plans| :: tests[i] == FinalRecord(TestsRun(r, plans[..i]), plans[i])
  }

  lemma PrefixExtended<T>(s: seq<T>, x: T, all: seq<T>)
    requires s + [x] <= all
    ensures s <= all && all[|s|..] != [] && all[|s|..][0] == x
    ensures all[|s|..][1..] == all[|s + [x]|..]
  {
    assert (s + [x])[|s|] == all[|s|];
    assert s == (s + [x])[..|s|] == all[..|s|];
  }

  lemma TestsRunFront(r: Run, plans: seq<TestPlan>, i: nat)
    requires 0 < i <= |plans|
    ensures TestsRun(r, plans[..i]) == TestsRun(TestRun(r, plans[0]), plans[1..][..i - 1])
  {
    assert plans[..i][0] == plans[0] && plans[..i][1..] == plans[1..][..i - 1];
  }

  lemma RecordedJoin(r: Run, tests: seq<TestRecord>, plans: seq<TestPlan>)
    requires plans != [] && tests != [] && tests[0] == FinalRecord(r, plans[0])
    requires Recorded(TestRun(r, plans[0]), tests[1..], plans[1..])
    ensures Recorded(r, tests, plans)
  {
    assert TestsRun(r, plans[..0]) == r;
    hide TestRun, TestsRun, FinalRecord;
    forall i | 0 <= i < |plans| ensures tests[i] == FinalRecord(TestsRun(r, plans[..i]), plans[i]) {
      if i > 0 {
        TestsRunFront(r, plans, i);
        assert tests[i] == tests[1..][i - 1] && plans[i] == plans[1..][i - 1];
      }
    }
  }

  /** Over any number of tests every record is whole: reasons, outputs, teardown lists, times, tags and
      keywords. */
  lemma {:induction false} RecordsAre(r: Run, plans: seq<TestPlan>)
    requires !r.aborted && r.stage == TEST_STAGE
    ensures var r' := TestsRun(r, plans); r.tests <= r'.tests && Recorded(r, r'.tests[|r.tests|..], plans)
    decreases plans
  {
    if plans != [] {
      TestRunIs(r, plans[0]);
      var r1 := TestRun(r, plans[0]);
      assert TestsRun(r, plans) == TestsRun(r1, plans[1..]);
      assert r1.tests == r.tests + [FinalRecord(r, plans[0])];
      hide TestRun, TestsRun, FinalRecord, AfterTest, Recorded;
      RecordsAre(r1, plans[1..]);
      var all := TestsRun(r, plans).tests;
      PrefixExtended(r.tests, FinalRecord(r, plans[0]), all);
      RecordedJoin(r, all[|r.tests|..], plans);
    }
  }

  lemma {:induction false} PassingAll(plans: seq<TestPlan>)
    ensures Passing(plans) <= |plans|
    ensures Passing(plans) == |plans| <==> forall i | 0 <= i < |plans| :: !Fails(plans[i])
  {
    hide Fails;
    if plans == [] {
      return;
    }
    PassingAll(plans[1..]);
    assert Passing(plans) == (if Fails(plans[0]) then 0 else 1) + Passing(plans[1..]);
    hide Passing;
    assert plans == [plans[0]] + plans[1..];
    if i: nat :| i < |plans| && Fails(plans[i]) {
      assert i > 0 ==> plans[1..][i - 1] == plans[i];
    } else {
      assert forall i | 0 <= i < |plans| - 1 :: plans[1..][i] == plans[i + 1];
    }
  }

  /** Everything the Lua code does in a run. */
  datatype Plan = Plan(startHooks: seq<Chunk>, tests: seq<TestPlan>, endHooks: seq<Chunk>)

  function AllRun(r: Run, plan: Plan): Run {
    var begun := HooksRun(r, plan.startHooks);
    if begun.aborted then begun else HooksRun(TestsRun(begun, plan.tests), plan.endHooks)
  }

  /** A run that is about to start; defers may have been registered while the files were loaded. */
  predicate Fresh(r: Run) {
    r == NEW_RUN.(defers := r.defers)
  }

  lemma BeginRun(r: Run, plan: Plan)
    requires Fresh(r)
    ensures var begun := HooksRun(r, plan.startHooks);
      && (begun.aborted <==> plan.startHooks != [] && Lines(EffectsOf(plan.startHooks[1..])) != [])
      && Fresh(begun.(aborted := false))
  {
    if plan.startHooks != [] {
      FirstHookSilent(r, plan.startHooks);
      var first := plan.startHooks[0].effects;
      EarlyHooks(r.(defers := r.defers + Defers(first)), plan.startHooks[1..]);
    }
  }

  lemma FromTheStart(r: Run, plans: seq<TestPlan>)
    requires Fresh(r) && plans != []
    ensures var r' := TestsRun(r, plans);
      && Consistent(r') && Idle(r') && !r'.aborted && r'.stage == TEST_STAGE
      && r'.passedAmount == Passing(plans) && AllAnswer(r'.tests, plans)
      && (r'.Last().status == FAILED || r'.Last().status == PASSED)
  {
    assert Consistent(r) && Idle(r);
    hide TestsRun, Passing, Consistent, Idle, Fails, RunningEffects, Lines;
    TestsRunIs(r, plans);
    var tests := TestsRun(r, plans).tests;
    assert tests[0..] == tests;
    assert Answers(tests[|plans| - 1], plans[|plans| - 1]);
  }

  /** The run is cut short: a start hook of the run after the first one logs a line. */
  predicate CutShort(plan: Plan) {
    plan.startHooks != [] && Lines(EffectsOf(plan.startHooks[1..])) != []
  }

  /** The end of a run: every test has its verdict, each FAILED one has a reason, the counters add
      up to the number of tests, and the exit code is success exactly when no test is FAILED. */
  predicate Completed(r: Run, plans: seq<TestPlan>) {
    && AllAnswer(r.tests, plans)
    && (forall i | 0 <= i < |r.tests| :: Settled(r.tests[i]))
    && r.passedAmount + r.failedAmount == r.finishedAmount == |r.tests|
    && (ExitsWithSuccess(r, |plans|) <==> forall i | 0 <= i < |r.tests| :: !Judgement(r.tests[i], "FAILED"))
  }

  predicate ExitsWithSuccess(r: Run, amount: nat) {
    r.passedAmount == amount
  }

  lemma Completes(r: Run, plans: seq<TestPlan>)
    requires Consistent(r) && Idle(r) && AllAnswer(r.tests, plans) && r.passedAmount == Passing(plans)
    ensures Completed(r, plans)
  {
    hide Passing, Lines, RunningEffects, Fails, Verdicts;
    FinishedCounts(r.tests);
    PassingAll(plans);
    assert forall i | 0 <= i < |plans| :: Answers(r.tests[i], plans[i]);
  }

  /** A whole run is cut short exactly when a start hook of the run after the first one logs a line;
      otherwise it completes. */
  lemma RunOutcome(r: Run, plan: Plan)
    requires Fresh(r) && plan.tests != []
    ensures AllRun(r, plan).aborted <==> CutShort(plan)
    ensures !CutShort(plan) ==> Completed(AllRun(r, plan), plan.tests)
    ensures !CutShort(plan) ==> Recorded(HooksRun(r, plan.startHooks), AllRun(r, plan).tests, plan.tests)
  {
    BeginRun(r, plan);
    var begun := HooksRun(r, plan.startHooks);
    if !begun.aborted {
      assert begun == begun.(aborted := false);
      RecordsAre(begun, plan.tests);
      assert begun.tests == [];
      hide HooksRun, TestsRun, Passing, CutShort, Completed, AllAnswer, Recorded;
      assert TestsRun(begun, plan.tests).tests[0..] == TestsRun(begun, plan.tests).tests;
      FromTheStart(begun, plan.tests);
      var done := TestsRun(begun, plan.tests);
      FinishHooksRun(done, plan.endHooks);
      SameOutcome(done, HooksRun(done, plan.endHooks), plan.tests);
    }
  }

  lemma {:induction false} SameOutcome(done: Run, r: Run, plans: seq<TestPlan>)
    requires Consistent(done) && Idle(done) && AllAnswer(done.tests, plans) && done.passedAmount == Passing(plans)
    requires r == done.(defers := r.defers)
    ensures Completed(r, plans)
  {
    Completes(r, plans);
  }

  /** Two hooks for the start of the run, of which the second logs a line: the run is cut short. */
  lemma SecondHookEndsRun(tests: seq<TestPlan>, time: string, level: int, msg: string)
    requires tests != []
    ensures var talking := Chunk([Log(None, 1, time, level, msg)], None);
      AllRun(NEW_RUN, Plan([Chunk([], None), talking], tests, [])).aborted
  {
    var line := Log(None, 1, time, level, msg);
    var hooks := [Chunk([], None), Chunk([line], None)];
    var plan := Plan(hooks, tests, []);
    RunOutcome(NEW_RUN, plan);
    hide AllRun;
    assert hooks[1..] == [Chunk([line], None)] && [Chunk([line], None)][1..] == [];
    assert EffectsOf(hooks[1..]) == [line] + [] == [line];
    OneEffect(line);
  }

  // ----- start hooks after the first -----

  /** What the hooks for the start of the test do after the first of them. */
  function LateHooks(p: TestPlan): seq<Effect> {
    EffectsOf(if p.startHooks == [] then [] else p.startHooks[1..])
  }

  /** Their lines count as the test's own: the outputs are the body's exactly when they log nothing, and
      a body that returns without an error line is FAILED exactly when they log one. */
  lemma LateHooksCount(r: Run, p: TestPlan)
    requires !r.aborted && r.stage == TEST_STAGE
    ensures TestRun(r, p).tests != []
    ensures TestRun(r, p).Last().outputs == Lines(LateHooks(p)) + Lines(p.body.effects)
    ensures TestRun(r, p).Last().outputs == Lines(p.body.effects) <==> Lines(LateHooks(p)) == []
    ensures p.body.error.None? && Errors(Lines(p.body.effects)) == [] ==>
      (TestRun(r, p).Last().status == FAILED <==> Errors(Lines(LateHooks(p))) != [])
  {
    AfterTestParts(r, p);
    ListsConcat(LateHooks(p), p.body.effects);
    var late, own := Lines(LateHooks(p)), Lines(p.body.effects);
    assert Lines(RunningEffects(p)) == late + own;
    hide TestRun, Lines, EffectsOf, Waiting, TeardownLines, TeardownErrors;
    ErrorsConcat(late, own);
    assert late == [] ==> late + own == own;
  }

  lemma OneLateHook(p: TestPlan, first: Chunk, e: Effect)
    requires p.startHooks == [first, Chunk([e], None)]
    ensures LateHooks(p) == [e]
  {
    var late := [Chunk([e], None)];
    assert p.startHooks[1..] == late && late[1..] == [];
    assert EffectsOf(late) == [e] + EffectsOf([]) == [e] + [];
  }

  /** A silent first hook, a second one that logs an error line, and a body that does nothing: the test
      is FAILED. */
  lemma SecondHookFailsTest(r: Run, test: TestCase, times: Times, msg: string)
    requires !r.aborted && r.stage == TEST_STAGE
    ensures var line := Log(None, 1, times.started, LogLevel.ERROR, msg);
      var hooks := [Chunk([], None), Chunk([line], None)];
      var r' := TestRun(r, TestPlan(test, times, hooks, Chunk([], None), [], []));
      r'.tests != [] && r'.Last().status == FAILED && r'.Last().outputs == [LineOf(line)]
  {
    var line := Log(None, 1, times.started, LogLevel.ERROR, msg);
    var hooks := [Chunk([], None), Chunk([line], None)];
    var p := TestPlan(test, times, hooks, Chunk([], None), [], []);
    LateHooksCount(r, p);
    OneLateHook(p, hooks[0], line);
    hide TestRun, LateHooks;
    OneEffect(line);
    assert Lines([]) == [] && Errors([]) == [] && Errors([LineOf(line)]) == [LineOf(line)];
    assert [LineOf(line)] + [] == [LineOf(line)];
  }

  // ----- what defers are told -----

  lemma {:induction false} ExecutionsAre(defers: seq<Deferred>, status: string, i: nat)
    requires i < |Executions(defers, status)|
    ensures |Executions(defers, status)| == |defers|
    ensures Executions(defers, status)[i]
         == Execution(defers[i], if defers[i].args == [] then [status] else defers[i].args)
  {
    if i > 0 {
      ExecutionsAre(defers[1..], status, i - 1);
    } else {
      ExecutionsCount(defers, status);
    }
  }

  lemma {:induction false} ExecutionsCount(defers: seq<Deferred>, status: string)
    ensures |Executions(defers, status)| == |defers|
  {
    if defers != [] {
      ExecutionsCount(defers[1..], status);
    }
  }

  /** The status a defer has been told is the verdict of its test. */
  predicate Agrees(told: string, t: TestRecord) {
    (told == "passed" && Judgement(t, "PASSED")) || (told == "failed" && Judgement(t, "FAILED"))
  }

  /** The body has returned, but an error line fails the test. */
  predicate FailedByLine(p: TestPlan) {
    p.body.error.None? && Errors(Lines(RunningEffects(p))) != []
  }

  /** The documentation says that a defer without arguments of its own is told the test's final
      status.  Each one that a test executes is, exactly when the test is not failed by an error line
      alone; a defer with arguments gets those. */
  lemma StatusIsVerdict(r: Run, p: TestPlan, i: nat)
    requires !r.aborted && r.stage == TEST_STAGE
    requires |r.executed| <= i < |TestRun(r, p).executed|
    ensures var r', e := TestRun(r, p), TestRun(r, p).executed[i];
      if e.deferred.args != [] then e.args == e.deferred.args
      else |e.args| == 1 && r'.tests != [] && (Agrees(e.args[0], r'.Last()) <==> !FailedByLine(p))
  {
    ExecutedIs(r, p, i);
    FinalIsSettled(r, p);
    hide *;
    AgreesUnlessByLine(p, FinalRecord(r, p));
  }

  lemma ExecutedIs(r: Run, p: TestPlan, i: nat)
    requires !r.aborted && r.stage == TEST_STAGE
    requires |r.executed| <= i < |TestRun(r, p).executed|
    ensures var r', e := TestRun(r, p), TestRun(r, p).executed[i];
      && e.args == (if e.deferred.args == [] then [StatusOf(p.body)] else e.deferred.args)
      && r'.tests != [] && r'.Last() == FinalRecord(r, p)
  {
    hide *;
    AfterTestParts(r, p);
    var defers := Reversed(Waiting(r, p));
    var executions := Executions(defers, StatusOf(p.body));
    ExecutionsAre(defers, StatusOf(p.body), i - |r.executed|);
    assert (r.executed + executions)[i] == executions[i - |r.executed|];
  }

  lemma AfterTestParts(r: Run, p: TestPlan)
    requires !r.aborted && r.stage == TEST_STAGE
    ensures TestRun(r, p).executed == r.executed + Executions(Reversed(Waiting(r, p)), StatusOf(p.body))
    ensures TestRun(r, p).tests != [] && TestRun(r, p).Last() == FinalRecord(r, p)
  {
    TestRunIs(r, p);
    hide TestRun, FinalRecord, Executions, Reversed, Waiting;
  }

  lemma AgreesUnlessByLine(p: TestPlan, t: TestRecord)
    requires Judgement(t, "FAILED") <==> Fails(p)
    requires Judgement(t, "PASSED") <==> !Fails(p)
    ensures Agrees(StatusOf(p.body), t) <==> !FailedByLine(p)
  {
    hide Lines, Errors, RunningEffects, Judgement;
  }

  /** A body that registers a defer, logs one error line and returns: the test is FAILED and the defer
      is told "passed". */
  lemma ErrorLineTellsPassed(test: TestCase, times: Times, msg: string)
    ensures var d := Deferred([], Chunk([], None));
      var line := Log(None, 1, times.started, LogLevel.ERROR, msg);
      var p := TestPlan(test, times, [], Chunk([Effect.Defer(d), line], None), [], []);
      var r' := TestRun(NEW_RUN, p);
      && r'.executed == [Execution(d, ["passed"])]
      && |r'.tests| == 1 && r'.tests[0].status == FAILED && Judgement(r'.tests[0], "FAILED")
  {
    var d := Deferred([], Chunk([], None));
    var line := Log(None, 1, times.started, LogLevel.ERROR, msg);
    var effects := [Effect.Defer(d), line];
    var p := TestPlan(test, times, [], Chunk(effects, None), [], []);
    TestRunIs(NEW_RUN, p);
    NoHooks(NEW_RUN, p);
    hide TestRun, Waiting, RunningEffects;
    assert effects[1..] == [line] && [d][1..] == [];
    Front(effects);
    OneEffect(line);
    OneEffect(effects[0]);
    hide Lines, Defers;
    assert NEW_RUN.defers + [d] == [d];
    assert Errors([LineOf(line)]) == [LineOf(line)];
    assert Reversed([d]) == [d];
    assert Executions([d], "passed") == [Execution(d, ["passed"])];
  }

  lemma OneEffect(e: Effect)
    ensures Lines([e]) == if e.Log? then [LineOf(e)] else []
    ensures Defers([e]) == if e.Defer? then [e.deferred] else []
  {
    assert [e][1..] == [];
  }

  lemma NoHooks(r: Run, p: TestPlan)
    requires p.startHooks == []
    ensures RunningEffects(p) == p.body.effects
    ensures Waiting(r, p) == r.defers + Defers(p.body.effects)
  {
    assert EffectsOf([]) == [];
    assert [] + p.body.effects == p.body.effects;
    assert r.defers + [] == r.defers;
  }
}
