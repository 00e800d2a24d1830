/** Every state a run goes through: after each line logged, each defer registered or started, each
    switch of the stage, each verdict and each step of the teardown.  All of them are consistent. */
module Reachable {
  import opened Options
  import opened Keywords
  import opened TestProtocol
  import opened TestRuns

  function PerformedStates(r: Run, effects: seq<Effect>): seq<Run>
    decreases effects
  {
    if effects == [] then []
    else [Acted(r, effects[0])] + PerformedStates(Acted(r, effects[0]), effects[1..])
  }

  function HookRun(r: Run, hook: Chunk): Run {
    Performed(r, hook.effects).(stage := TEST_STAGE)
  }

  function HookLoopStates(r: Run, hooks: seq<Chunk>): seq<Run>
    decreases hooks
  {
    if hooks == [] then []
    else
      PerformedStates(r, hooks[0].effects) + [HookRun(r, hooks[0])] + HookLoopStates(HookRun(r, hooks[0]), hooks[1..])
  }

  function HookStates(r: Run, hooks: seq<Chunk>): seq<Run> {
    var hooked := r.(stage := HOOK_STAGE);
    [hooked] + if hooks == [] then [r.(stage := TEST_STAGE)] else HookLoopStates(hooked, hooks)
  }

  function DeferStates(r: Run, d: Deferred, status: string): seq<Run>
    requires r.tests != []
  {
    var begun := Executed(r, d, status);
    [begun] + PerformedStates(begun, d.body.effects)
    + if d.body.error.Some? then [DeferRun(r, d, status)] else []
  }

  function DefersStates(r: Run, n: nat, status: string): seq<Run>
    requires n <= |r.defers| && r.tests != []
    decreases n
  {
    if n == 0 then []
    else
      var done := DeferRun(r, r.defers[n - 1], status);
      DeferStates(r, r.defers[n - 1], status) + DefersStates(done, n - 1, status)
  }

  function DeferredStates(r: Run, status: string, times: Times): seq<Run>
    requires r.tests != []
  {
    if r.defers == [] then []
    else
      var begun := TeardownStarted(r, times.teardownStart);
      var ended := TeardownFinished(DefersRun(begun, |r.defers|, status), times.teardownEnd);
      [begun] + DefersStates(begun, |r.defers|, status) + [ended] + [ended.(defers := [])]
  }

  /** Up to the verdict. */
  function BodyStates(r: Run, p: TestPlan): seq<Run> {
    var begun := TestStarted(r, p.test, p.times.started);
    [begun] + HookStates(begun, p.startHooks) + PerformedStates(HooksRun(begun, p.startHooks), p.body.effects)
  }

  function JudgedRun(r: Run, p: TestPlan): (judged: Run)
    ensures judged.tests != []
  {
    Judged(BodyRun(r, p), p.body.error, p.times.finished, p.keywords)
  }

  function TestStates(r: Run, p: TestPlan): seq<Run> {
    var judged := JudgedRun(r, p);
    BodyStates(r, p) + [judged] + DeferredStates(judged, StatusOf(p.body), p.times)
    + HookStates(DeferredRun(judged, StatusOf(p.body), p.times), p.finishHooks)
  }

  function TestsStates(r: Run, plans: seq<TestPlan>): seq<Run>
    decreases plans
  {
    if plans == [] then [] else TestStates(r, plans[0]) + TestsStates(TestRun(r, plans[0]), plans[1..])
  }

  /** The whole run, from the state it starts in; a failed assertion ends it. */
  function RunStates(r: Run, plan: Plan): seq<Run> {
    var begun := HooksRun(r, plan.startHooks);
    [r] + HookStates(r, plan.startHooks)
    + if begun.aborted then []
      else TestsStates(begun, plan.tests) + HookStates(TestsRun(begun, plan.tests), plan.endHooks)
  }

  // ----- where the states lead -----

  /** The state after these, when they are visited from r. */
  function EndOf(r: Run, states: seq<Run>): Run {
    if states == [] then r else states[|states| - 1]
  }

  lemma EndOfJoin(r: Run, a: seq<Run>, b: seq<Run>)
    ensures EndOf(r, a + b) == EndOf(EndOf(r, a), b)
  {
  }

  // ----- all of them are consistent -----

  predicate AllConsistent(states: seq<Run>) {
    forall i | 0 <= i < |states| :: Consistent(states[i])
  }

  lemma AllJoin(a: seq<Run>, b: seq<Run>)
    ensures AllConsistent(a + b) <==> AllConsistent(a) && AllConsistent(b)
  {
    hide Consistent;
    assert forall i | 0 <= i < |a| :: (a + b)[i] == a[i];
    assert forall i | 0 <= i < |b| :: (a + b)[|a| + i] == b[i];
  }

  // ----- each is one step from the one before -----

  /** The steps of a run. */
  datatype Change =
    | Effects(e: Effect)
    | Stages(stage: Stage)
    | Starts(test: TestCase, time: string)
    | Judges(error: Option<Raised>, time: string, keywords: seq<Keyword>)
    | TearsDown(time: string)
    | StartsDefer(d: Deferred, status: string)
    | FailsDefer(raised: Raised)
    | EndsTeardown(time: string)
    | ForgetsDefers

  function After(r: Run, c: Change): Run {
    match c
    case Effects(e) => Acted(r, e)
    case Stages(stage) => r.(stage := stage)
    case Starts(test, time) => TestStarted(r, test, time)
    case Judges(error, time, keywords) => if r.tests == [] then r else Judged(r, error, time, keywords)
    case TearsDown(time) => if r.tests == [] then r else TeardownStarted(r, time)
    case StartsDefer(d, status) => Executed(r, d, status)
    case FailsDefer(raised) => if r.tests == [] then r else DeferFailed(r, raised)
    case EndsTeardown(time) => if r.tests == [] then r else TeardownFinished(r, time)
    case ForgetsDefers => r.(defers := [])
  }

  ghost predicate OneStep(r: Run, s: Run) {
    exists c :: After(r, c) == s
  }

  /** The first state is a step from r, and every other one from the one before it. */
  ghost predicate Stepwise(r: Run, states: seq<Run>) {
    forall i | 0 <= i < |states| :: OneStep(EndOf(r, states[..i]), states[i])
  }

  lemma StepwiseJoin(r: Run, a: seq<Run>, b: seq<Run>)
    requires Stepwise(r, a) && Stepwise(EndOf(r, a), b)
    ensures Stepwise(r, a + b)
  {
    hide OneStep;
    forall i | 0 <= i < |a + b| ensures OneStep(EndOf(r, (a + b)[..i]), (a + b)[i]) {
      if i < |a| {
        assert (a + b)[..i] == a[..i];
      } else {
        assert (a + b)[..i] == a + b[..i - |a|];
      }
    }
  }

  /** The states lead from r to end, one step at a time, and are all consistent. */
  ghost predicate Leads(r: Run, states: seq<Run>, end: Run) {
    EndOf(r, states) == end && AllConsistent(states) && Stepwise(r, states)
  }

  lemma LeadsThen(r: Run, a: seq<Run>, middle: Run, b: seq<Run>, end: Run)
    requires Leads(r, a, middle) && Leads(middle, b, end)
    ensures Leads(r, a + b, end)
  {
    hide AllConsistent, Stepwise;
    AllJoin(a, b);
    EndOfJoin(r, a, b);
    StepwiseJoin(r, a, b);
  }

  lemma LeadsOne(r: Run, s: Run, c: Change)
    requires Consistent(s) && After(r, c) == s
    ensures Leads(r, [s], s)
  {
    assert OneStep(r, s);
    assert [s][..0] == [];
  }

  lemma LeadsNowhere(r: Run)
    ensures Leads(r, [], r)
  {
  }

  /** What the steps are on a run with a test. */
  lemma AfterIs(r: Run, d: Deferred, status: string, raised: Raised, time: string, error: Option<Raised>,
                keywords: seq<Keyword>)
    requires r.tests != []
    ensures After(r, StartsDefer(d, status)) == Executed(r, d, status)
    ensures After(r, FailsDefer(raised)) == DeferFailed(r, raised)
    ensures After(r, TearsDown(time)) == TeardownStarted(r, time)
    ensures After(r, EndsTeardown(time)) == TeardownFinished(r, time)
    ensures After(r, Judges(error, time, keywords)) == Judged(r, error, time, keywords)
    ensures After(r, ForgetsDefers) == r.(defers := [])
  {
  }

  /** The stage, the executed defers and the waiting ones are no part of what is kept. */
  lemma SameKeeps(r: Run, s: Run)
    requires s == r.(stage := s.stage, executed := s.executed, defers := s.defers)
    ensures Consistent(s) <==> Consistent(r)
    ensures Idle(s) <==> Idle(r)
  {
  }

  lemma {:induction false} PerformedLeads(r: Run, effects: seq<Effect>)
    requires Consistent(r)
    ensures Leads(r, PerformedStates(r, effects), Performed(r, effects))
    ensures Consistent(Performed(r, effects)) && (Idle(Performed(r, effects)) <==> Idle(r))
    decreases effects
  {
    if effects != [] {
      var r1 := Acted(r, effects[0]);
      ActKeeps(r, effects[0]);
      PerformedLeads(r1, effects[1..]);
      assert Performed(r, effects) == Performed(r1, effects[1..]);
      hide Acted, Performed, Consistent, Idle, Leads;
      LeadsOne(r, r1, Effects(effects[0]));
      LeadsThen(r, [r1], r1, PerformedStates(r1, effects[1..]), Performed(r, effects));
    }
  }

  lemma {:induction false} HookLoopLeads(r: Run, hooks: seq<Chunk>)
    requires Consistent(r)
    ensures Leads(r, HookLoopStates(r, hooks), HookLoop(r, hooks))
    ensures Consistent(HookLoop(r, hooks)) && (Idle(HookLoop(r, hooks)) <==> Idle(r))
    decreases hooks
  {
    if hooks != [] {
      var effects, r2 := hooks[0].effects, HookRun(r, hooks[0]);
      var r1 := Performed(r, effects);
      PerformedLeads(r, effects);
      SameKeeps(r1, r2);
      HookLoopLeads(r2, hooks[1..]);
      assert HookLoop(r, hooks) == HookLoop(r2, hooks[1..]);
      hide Performed, PerformedStates, HookLoop, HookRun, Consistent, Idle, Leads;
      LeadsOne(r1, r2, Stages(TEST_STAGE));
      LeadsThen(r, PerformedStates(r, effects), r1, [r2], r2);
      LeadsThen(r, PerformedStates(r, effects) + [r2], r2, HookLoopStates(r2, hooks[1..]), HookLoop(r, hooks));
    }
  }

  lemma HooksLead(r: Run, hooks: seq<Chunk>)
    requires Consistent(r)
    ensures Leads(r, HookStates(r, hooks), HooksRun(r, hooks))
    ensures Consistent(HooksRun(r, hooks)) && (Idle(HooksRun(r, hooks)) <==> Idle(r))
  {
    var hooked, unhooked := r.(stage := HOOK_STAGE), r.(stage := TEST_STAGE);
    SameKeeps(r, hooked);
    SameKeeps(r, unhooked);
    HookLoopLeads(hooked, hooks);
    hide HookLoop, HookLoopStates, Consistent, Idle, Leads;
    LeadsOne(r, hooked, Stages(HOOK_STAGE));
    LeadsOne(hooked, unhooked, Stages(TEST_STAGE));
    LeadsThen(r, [hooked], hooked, if hooks == [] then [unhooked] else HookLoopStates(hooked, hooks),
              HooksRun(r, hooks));
  }

  lemma DeferLeads(r: Run, d: Deferred, status: string)
    requires Consistent(r) && Idle(r) && r.tests != []
    ensures Leads(r, DeferStates(r, d, status), DeferRun(r, d, status))
    ensures Consistent(DeferRun(r, d, status)) && Idle(DeferRun(r, d, status))
  {
    hide Performed, PerformedStates, Consistent, Idle, Leads, Executed, DeferFailed, After;
    var begun, effects := Executed(r, d, status), d.body.effects;
    var done := Performed(begun, effects);
    ExecutedKeeps(r, d, status);
    PerformedKeeps(begun, effects);
    PerformedLeads(begun, effects);
    AfterIs(r, d, status, Raised(None, 0, "", ""), "", None, []);
    LeadsOne(r, begun, StartsDefer(d, status));
    LeadsThen(r, [begun], begun, PerformedStates(begun, effects), done);
    if d.body.error.Some? {
      DeferFailureKeeps(done, d.body.error.value);
      AfterIs(done, d, status, d.body.error.value, "", None, []);
      LeadsOne(done, DeferRun(r, d, status), FailsDefer(d.body.error.value));
      LeadsThen(r, [begun] + PerformedStates(begun, effects), done, [DeferRun(r, d, status)], DeferRun(r, d, status));
    } else {
      assert [begun] + PerformedStates(begun, effects) + [] == [begun] + PerformedStates(begun, effects);
    }
  }

  lemma ExecutedKeeps(r: Run, d: Deferred, status: string)
    ensures var r' := Executed(r, d, status);
      && (Consistent(r') <==> Consistent(r)) && (Idle(r') <==> Idle(r))
      && r'.tests == r.tests && r'.defers == r.defers
  {
    SameKeeps(r, Executed(r, d, status));
  }

  lemma DeferFailureKeeps(r: Run, e: Raised)
    requires Consistent(r) && Idle(r) && r.tests != []
    ensures Consistent(DeferFailed(r, e)) && Idle(DeferFailed(r, e))
  {
    TeardownKeeps(r, e, "");
  }

  lemma {:induction false} DefersLead(r: Run, n: nat, status: string)
    requires Consistent(r) && Idle(r) && r.tests != [] && n <= |r.defers|
    ensures Leads(r, DefersStates(r, n, status), DefersRun(r, n, status))
    ensures Consistent(DefersRun(r, n, status)) && Idle(DefersRun(r, n, status))
    decreases n
  {
    hide DeferRun, DeferStates, Consistent, Idle, Leads;
    if n == 0 {
      LeadsNowhere(r);
      return;
    }
    var d := r.defers[n - 1];
    var done := DeferRun(r, d, status);
    DeferLeads(r, d, status);
    DefersLead(done, n - 1, status);
    LeadsThen(r, DeferStates(r, d, status), done, DefersStates(done, n - 1, status), DefersRun(r, n, status));
  }

  lemma TeardownEndsKeep(r: Run, time: string)
    requires Consistent(r) && Idle(r) && r.tests != []
    ensures var begun := TeardownStarted(r, time);
      Consistent(begun) && Idle(begun) && begun.tests != [] && begun.defers == r.defers
    ensures var ended := TeardownFinished(r, time);
      && Consistent(ended) && Idle(ended) && ended.tests != []
      && Consistent(ended.(defers := [])) && Idle(ended.(defers := []))
  {
    TeardownKeeps(r, Raised(None, 0, "", ""), time);
    SameKeeps(TeardownFinished(r, time), TeardownFinished(r, time).(defers := []));
  }

  lemma DeferredLeads(r: Run, status: string, times: Times)
    requires Consistent(r) && Idle(r) && r.tests != []
    ensures Leads(r, DeferredStates(r, status, times), DeferredRun(r, status, times))
    ensures Consistent(DeferredRun(r, status, times)) && Idle(DeferredRun(r, status, times))
  {
    hide DefersRun, DefersStates, TeardownStarted, TeardownFinished, Consistent, Idle, Leads, After;
    if r.defers == [] {
      LeadsNowhere(r);
      return;
    }
    var begun, n := TeardownStarted(r, times.teardownStart), |r.defers|;
    TeardownEndsKeep(r, times.teardownStart);
    DefersLead(begun, n, status);
    var done := DefersRun(begun, n, status);
    TeardownEndsKeep(done, times.teardownEnd);
    var ended := TeardownFinished(done, times.teardownEnd);
    var raised, none := Raised(None, 0, "", ""), Deferred([], Chunk([], None));
    AfterIs(r, none, "", raised, times.teardownStart, None, []);
    AfterIs(done, none, "", raised, times.teardownEnd, None, []);
    AfterIs(ended, none, "", raised, "", None, []);
    LeadsOne(r, begun, TearsDown(times.teardownStart));
    LeadsThen(r, [begun], begun, DefersStates(begun, n, status), done);
    LeadsOne(done, ended, EndsTeardown(times.teardownEnd));
    LeadsThen(r, [begun] + DefersStates(begun, n, status), done, [ended], ended);
    LeadsOne(ended, ended.(defers := []), ForgetsDefers);
    LeadsThen(r, [begun] + DefersStates(begun, n, status) + [ended], ended, [ended.(defers := [])],
              ended.(defers := []));
  }

  /** When the body has run its test is waiting for the verdict. */
  lemma BodyPending(r: Run, p: TestPlan)
    requires !r.aborted && r.stage == TEST_STAGE
    ensures var b := BodyRun(r, p); Pending(b.Last(), b.marked)
  {
    BodyRuns(r, p);
    hide Lines, Defers, EffectsOf, RunningEffects, Errors;
    assert [] + Errors(Lines(RunningEffects(p))) == Errors(Lines(RunningEffects(p)));
  }

  lemma BodyLeads(r: Run, p: TestPlan)
    requires Consistent(r) && Idle(r)
    ensures Leads(r, BodyStates(r, p), BodyRun(r, p)) && Consistent(BodyRun(r, p))
  {
    var begun, effects := TestStarted(r, p.test, p.times.started), p.body.effects;
    StartKeeps(r, p.test, p.times.started);
    HooksLead(begun, p.startHooks);
    var hooked := HooksRun(begun, p.startHooks);
    PerformedLeads(hooked, effects);
    hide TestStarted, HooksRun, HookStates, Performed, PerformedStates, Consistent, Idle, Leads;
    LeadsOne(r, begun, Starts(p.test, p.times.started));
    LeadsThen(r, [begun], begun, HookStates(begun, p.startHooks), hooked);
    LeadsThen(r, [begun] + HookStates(begun, p.startHooks), hooked, PerformedStates(hooked, effects),
              BodyRun(r, p));
  }

  lemma VerdictLeads(r: Run, p: TestPlan)
    requires Consistent(r) && Idle(r) && !r.aborted && r.stage == TEST_STAGE
    ensures var body, judged := BodyRun(r, p), JudgedRun(r, p);
      Leads(body, [judged], judged) && Consistent(judged) && Idle(judged) && judged.tests != []
  {
    BodyPending(r, p);
    BodyLeads(r, p);
    hide BodyRun, BodyStates, Judged, Consistent, Idle, Leads, After, Pending;
    var body := BodyRun(r, p);
    JudgeKeeps(body, p.body.error, p.times.finished, p.keywords);
    AfterIs(body, Deferred([], p.body), "", Raised(None, 0, "", ""), p.times.finished, p.body.error, p.keywords);
    LeadsOne(body, JudgedRun(r, p), Judges(p.body.error, p.times.finished, p.keywords));
  }

  lemma TestLeads(r: Run, p: TestPlan)
    requires Consistent(r) && Idle(r) && !r.aborted && r.stage == TEST_STAGE
    ensures Leads(r, TestStates(r, p), TestRun(r, p))
  {
    hide BodyRun, BodyStates, Judged, DeferredRun, DeferredStates, HooksRun, HookStates, Consistent, Idle, Leads;
    BodyLeads(r, p);
    VerdictLeads(r, p);
    var body, judged := BodyRun(r, p), JudgedRun(r, p);
    DeferredLeads(judged, StatusOf(p.body), p.times);
    var done := DeferredRun(judged, StatusOf(p.body), p.times);
    HooksLead(done, p.finishHooks);
    LeadsThen(r, BodyStates(r, p), body, [judged], judged);
    LeadsThen(r, BodyStates(r, p) + [judged], judged, DeferredStates(judged, StatusOf(p.body), p.times), done);
    LeadsThen(r, BodyStates(r, p) + [judged] + DeferredStates(judged, StatusOf(p.body), p.times), done,
              HookStates(done, p.finishHooks), TestRun(r, p));
  }

  lemma {:induction false} TestsLead(r: Run, plans: seq<TestPlan>)
    requires Consistent(r) && Idle(r) && !r.aborted && r.stage == TEST_STAGE
    ensures Leads(r, TestsStates(r, plans), TestsRun(r, plans)) && Consistent(TestsRun(r, plans))
    decreases plans
  {
    if plans != [] {
      var r1 := TestRun(r, plans[0]);
      TestLeads(r, plans[0]);
      TestRunKeeps(r, plans[0]);
      TestsLead(r1, plans[1..]);
      hide TestRun, TestStates, Consistent, Idle, Leads;
      LeadsThen(r, TestStates(r, plans[0]), r1, TestsStates(r1, plans[1..]), TestsRun(r, plans));
    }
  }

  /** The visited states lead from the start of the run to its end, and all are consistent. */
  lemma RunLeads(r: Run, plan: Plan)
    requires Fresh(r)
    ensures Leads(r, RunStates(r, plan), AllRun(r, plan))
  {
    assert Consistent(r) && Idle(r);
    HooksLead(r, plan.startHooks);
    BeginRun(r, plan);
    var begun := HooksRun(r, plan.startHooks);
    hide HooksRun, HookStates, Consistent, Leads;
    LeadsOne(r, r, Stages(r.stage));
    LeadsThen(r, [r], r, HookStates(r, plan.startHooks), begun);
    var before := [r] + HookStates(r, plan.startHooks);
    if begun.aborted {
      assert before + [] == before;
    } else {
      assert Idle(begun) && begun.stage == TEST_STAGE;
      hide Idle;
      TestsLead(begun, plan.tests);
      var done := TestsRun(begun, plan.tests);
      HooksLead(done, plan.endHooks);
      hide TestsRun, TestsStates;
      LeadsThen(begun, TestsStates(begun, plan.tests), done, HookStates(done, plan.endHooks), AllRun(r, plan));
      LeadsThen(r, before, begun, TestsStates(begun, plan.tests) + HookStates(done, plan.endHooks), AllRun(r, plan));
    }
  }

  lemma Visited(r: Run, plan: Plan, s: Run)
    requires Fresh(r) && s in RunStates(r, plan)
    ensures Consistent(s)
  {
    hide RunStates, AllRun, Consistent, Stepwise, EndOf;
    RunLeads(r, plan);
  }

  /** In every reachable state of every run: passed + failed = finished = the number of tests that have
      their verdict, and such a test is FAILED exactly when it has a failure reason. */
  lemma EveryState(r: Run, plan: Plan, s: Run)
    requires Fresh(r) && s in RunStates(r, plan)
    ensures Consistent(s)
    ensures s.passedAmount + s.failedAmount == s.finishedAmount == |s.tests| - if Idle(s) then 0 else 1
    ensures forall i | 0 <= i < |s.tests| && HasVerdict(s.tests[i]) ::
      Judgement(s.tests[i], "FAILED") <==> s.tests[i].failureReasons != []
    ensures forall i | 0 <= i < |s.tests| :: !HasVerdict(s.tests[i]) ==> i == |s.tests| - 1
  {
    hide RunStates, Fresh, Verdicts;
    Visited(r, plan, s);
    FinishedCounts(s.tests);
    forall i | 0 <= i < |s.tests|
      ensures HasVerdict(s.tests[i]) ==> (Judgement(s.tests[i], "FAILED") <==> s.tests[i].failureReasons != [])
      ensures !HasVerdict(s.tests[i]) ==> i == |s.tests| - 1
    {
      if i == |s.tests| - 1 {
        assert s.tests[i] == s.Last();
      } else {
        assert Settled(s.tests[i]);
      }
    }
  }
}
