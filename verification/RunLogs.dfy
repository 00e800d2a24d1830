/** The raw log of a whole run: what the Lua code does with C ints and log levels can be stored, so the
    log of every completed run reads back whole. */
module RunLogs {
  import opened RunState
  import opened StateJson
  import opened TestProtocol
  import opened TestRuns
  import LogLevel

  // ----- what can be stored -----

  /** Lines and levels fit the C types they are kept in, at any depth of defers. */
  predicate EffectsStored(effects: seq<Effect>)
    decreases effects
  {
    effects == [] || (EffectStored(effects[0]) && EffectsStored(effects[1..]))
  }

  predicate EffectStored(e: Effect) {
    match e
    case Log(_, line, _, level, _) => IsInt32(line) && LogLevel.IsLevel(level)
    case Defer(d) => ChunkStored(d.body)
  }

  predicate ChunkStored(c: Chunk) {
    EffectsStored(c.effects) && (c.error.Some? ==> IsInt32(c.error.value.line))
  }

  predicate ChunksStored(chunks: seq<Chunk>) {
    forall i | 0 <= i < |chunks| :: ChunkStored(chunks[i])
  }

  predicate DefersStored(defers: seq<Deferred>) {
    forall i | 0 <= i < |defers| :: ChunkStored(defers[i].body)
  }

  predicate TestPlanStored(p: TestPlan) {
    && ChunksStored(p.startHooks) && ChunkStored(p.body) && ChunksStored(p.finishHooks)
    && KeywordsStored(p.keywords)
  }

  predicate PlanStored(plan: Plan) {
    && ChunksStored(plan.startHooks) && ChunksStored(plan.endHooks)
    && forall i | 0 <= i < |plan.tests| :: TestPlanStored(plan.tests[i])
  }

  // ----- what is made of it -----

  lemma OutputsJoin(a: seq<Output>, b: seq<Output>)
    requires OutputsStored(a) && OutputsStored(b)
    ensures OutputsStored(a + b)
  {
  }

  lemma StoredTogether(a: seq<Deferred>, b: seq<Deferred>)
    requires DefersStored(a) && DefersStored(b)
    ensures DefersStored(a + b)
  {
    hide ChunkStored;
  }

  lemma {:induction false} EffectsJoin(a: seq<Effect>, b: seq<Effect>)
    requires EffectsStored(a) && EffectsStored(b)
    ensures EffectsStored(a + b)
  {
    if a == [] {
      assert a + b == b;
    } else {
      assert (a + b)[1..] == a[1..] + b;
      EffectsJoin(a[1..], b);
    }
  }

  lemma {:induction false} ChunksEffects(chunks: seq<Chunk>)
    requires ChunksStored(chunks)
    ensures EffectsStored(EffectsOf(chunks))
  {
    if chunks != [] {
      ChunksEffects(chunks[1..]);
      EffectsJoin(chunks[0].effects, EffectsOf(chunks[1..]));
    }
  }

  lemma {:induction false} LinesStored(effects: seq<Effect>)
    requires EffectsStored(effects)
    ensures OutputsStored(Lines(effects)) && DefersStored(Defers(effects))
  {
    if effects != [] {
      var e := effects[0];
      LinesStored(effects[1..]);
      OutputsJoin(if e.Log? then [LineOf(e)] else [], Lines(effects[1..]));
      StoredTogether(if e.Defer? then [e.deferred] else [], Defers(effects[1..]));
    }
  }

  lemma {:induction false} ErrorsStored(lines: seq<Output>)
    requires OutputsStored(lines)
    ensures OutputsStored(Errors(lines))
  {
    if lines != [] {
      ErrorsStored(lines[1..]);
      OutputsJoin(if lines[0].level == LogLevel.ERROR then [lines[0]] else [], Errors(lines[1..]));
    }
  }

  lemma {:induction false} ReversedStored(defers: seq<Deferred>)
    requires DefersStored(defers)
    ensures DefersStored(Reversed(defers))
  {
    if defers != [] {
      ReversedStored(defers[1..]);
      StoredTogether(Reversed(defers[1..]), [defers[0]]);
    }
  }

  lemma {:induction false} TeardownStored(defers: seq<Deferred>)
    requires DefersStored(defers)
    ensures OutputsStored(TeardownLines(defers)) && OutputsStored(TeardownErrors(defers))
  {
    if defers != [] {
      var body := defers[0].body;
      assert ChunkStored(body);
      LinesStored(body.effects);
      TeardownStored(defers[1..]);
      OutputsJoin(Lines(body.effects), TeardownLines(defers[1..]));
      OutputsJoin(ErrorIn(body), TeardownErrors(defers[1..]));
    }
  }

  // ----- records -----

  lemma LateHooksStored(p: TestPlan)
    requires ChunksStored(p.startHooks)
    ensures EffectsStored(LateHooks(p))
  {
    ChunksEffects(if p.startHooks == [] then [] else p.startHooks[1..]);
  }

  lemma WaitingStored(r: Run, p: TestPlan)
    requires DefersStored(r.defers) && TestPlanStored(p)
    ensures DefersStored(Waiting(r, p))
  {
    ChunksEffects(p.startHooks);
    LinesStored(EffectsOf(p.startHooks));
    LinesStored(p.body.effects);
    StoredTogether(r.defers, Defers(EffectsOf(p.startHooks)));
    StoredTogether(r.defers + Defers(EffectsOf(p.startHooks)), Defers(p.body.effects));
  }

  lemma RunningStored(p: TestPlan)
    requires TestPlanStored(p)
    ensures OutputsStored(Lines(RunningEffects(p))) && OutputsStored(Errors(Lines(RunningEffects(p))))
  {
    LateHooksStored(p);
    EffectsJoin(LateHooks(p), p.body.effects);
    LinesStored(RunningEffects(p));
    ErrorsStored(Lines(RunningEffects(p)));
  }

  /** Every record a test ends with can be stored. */
  lemma FinalStored(r: Run, p: TestPlan)
    requires DefersStored(r.defers) && TestPlanStored(p)
    ensures TestStored(FinalRecord(r, p))
  {
    RunningStored(p);
    WaitingStored(r, p);
    ReversedStored(Waiting(r, p));
    TeardownStored(Reversed(Waiting(r, p)));
    var raised := if p.body.error.Some? then [Reason(p.body.error.value, p.times.finished)] else [];
    assert OutputsStored(raised);
    OutputsJoin(Errors(Lines(RunningEffects(p))), raised);
  }

  // ----- whole runs -----

  lemma {:induction false} PerformedDefers(r: Run, effects: seq<Effect>)
    requires DefersStored(r.defers) && EffectsStored(effects)
    ensures DefersStored(Performed(r, effects).defers)
    decreases effects
  {
    if effects != [] {
      var e := effects[0];
      if e.Defer? {
        StoredTogether(r.defers, [e.deferred]);
      }
      PerformedDefers(Acted(r, e), effects[1..]);
    }
  }

  lemma {:induction false} HookDefers(r: Run, hooks: seq<Chunk>)
    requires DefersStored(r.defers) && ChunksStored(hooks)
    ensures DefersStored(HookLoop(r, hooks).defers)
    decreases hooks
  {
    if hooks != [] {
      assert ChunkStored(hooks[0]);
      PerformedDefers(r, hooks[0].effects);
      HookDefers(Performed(r, hooks[0].effects).(stage := TEST_STAGE), hooks[1..]);
    }
  }

  lemma {:induction false} TestsDefers(r: Run, plans: seq<TestPlan>)
    requires !r.aborted && r.stage == TEST_STAGE && DefersStored(r.defers)
    requires forall i | 0 <= i < |plans| :: TestPlanStored(plans[i])
    ensures DefersStored(TestsRun(r, plans).defers)
    decreases plans
  {
    if plans != [] {
      TestRunIs(r, plans[0]);
      ChunksEffects(plans[0].finishHooks);
      LinesStored(EffectsOf(plans[0].finishHooks));
      assert TestRun(r, plans[0]).defers == Defers(EffectsOf(plans[0].finishHooks));
      TestsDefers(TestRun(r, plans[0]), plans[1..]);
    }
  }

  lemma RecordsStored(r: Run, tests: seq<TestRecord>, plans: seq<TestPlan>)
    requires !r.aborted && r.stage == TEST_STAGE && DefersStored(r.defers) && Recorded(r, tests, plans)
    requires forall i | 0 <= i < |plans| :: TestPlanStored(plans[i])
    ensures forall i | 0 <= i < |tests| :: TestStored(tests[i])
  {
    forall i | 0 <= i < |tests| ensures TestStored(tests[i]) {
      TestsDefers(r, plans[..i]);
      FinalStored(TestsRun(r, plans[..i]), plans[i]);
    }
  }

  lemma BegunDefers(r: Run, hooks: seq<Chunk>)
    requires DefersStored(r.defers) && ChunksStored(hooks)
    ensures DefersStored(HooksRun(r, hooks).defers)
  {
    if hooks != [] {
      HookDefers(r.(stage := HOOK_STAGE), hooks);
    }
  }

  /** The state of the run in the log, and the texts around it. */
  predicate LogOf(log: RunLog, r: Run, amount: nat) {
    && log.tests == r.tests && log.totalAmount == amount
    && log.passedAmount == r.passedAmount && log.failedAmount == r.failedAmount
    && log.finishedAmount == r.finishedAmount
  }

  lemma RunIsStored(r: Run, plan: Plan)
    requires Fresh(r) && plan.tests != [] && !CutShort(plan) && DefersStored(r.defers) && PlanStored(plan)
    ensures forall i | 0 <= i < |AllRun(r, plan).tests| :: TestStored(AllRun(r, plan).tests[i])
  {
    RunOutcome(r, plan);
    BeginRun(r, plan);
    BegunDefers(r, plan.startHooks);
    var begun := HooksRun(r, plan.startHooks);
    hide HooksRun, AllRun, CutShort, Completed, Recorded, TestPlanStored, TestStored, ChunksStored, DefersStored;
    RecordsStored(begun, AllRun(r, plan).tests, plan.tests);
  }

  /** The log of a run that is not cut short: all it persists comes back, the total included, because by
      then every test of the run has its entry; and the counters read back add up. */
  lemma FinishedRunReadsBack(log: RunLog, r: Run, plan: Plan)
    requires Fresh(r) && plan.tests != [] && !CutShort(plan) && DefersStored(r.defers) && PlanStored(plan)
    requires LogOf(log, AllRun(r, plan), |plan.tests|) && CountStored(|plan.tests|)
    requires AllResolved(log.vars) && DistinctNames(log.vars)
    ensures var back := LogFromJson(LogToJson(log));
      && back == log.(tests := back.tests)
      && |back.tests| == |log.tests| == |plan.tests|
      && (forall i | 0 <= i < |log.tests| :: back.tests[i] == Persisted(log.tests[i]))
      && back.passedAmount + back.failedAmount == back.finishedAmount == back.totalAmount
  {
    RunOutcome(r, plan);
    RunIsStored(r, plan);
    hide AllRun, CutShort, Recorded, PlanStored, LogToJson, LogFromJson, DistinctNames, Persisted, TestStored,
         AllAnswer, Fresh, Settled;
    assert |log.tests| == |plan.tests| by {
      AnswersCount(AllRun(r, plan).tests, plan.tests);
    }
    LogRoundTrip(log);
  }

  lemma AnswersCount(tests: seq<TestRecord>, plans: seq<TestPlan>)
    requires AllAnswer(tests, plans)
    ensures |tests| == |plans|
  {
  }
}
