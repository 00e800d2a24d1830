/** The test runner itself: the fields of ltf_state_t and the globals of src/ltf_test.c that a run
    changes, step by step.  `history` receives the state after each step, wherever an interrupt might
    end the run; it comes out as exactly the visited states of Reachable. */
module TestRunner {
  import opened Options
  import opened Keywords
  import opened RunState
  import opened Seqs
  import opened TestProtocol
  import opened TestRuns
  import opened Reachable
  import LogLevel

  class Runner {
    var tests: seq<TestRecord>
    var passedAmount: nat
    var failedAmount: nat
    var finishedAmount: nat
    var stage: Stage
    var marked: bool
    var defers: seq<Deferred>
    var executed: seq<Execution>
    var aborted: bool
    ghost var history: seq<Run>

    function Value(): Run
      reads this
    {
      Run(tests, passedAmount, failedAmount, finishedAmount, stage, marked, defers, executed, aborted)
    }

    /** Every state so far and the current one are consistent. */
    ghost predicate Valid()
      reads this
    {
      && Consistent(Value())
      && forall i | 0 <= i < |history| :: Consistent(history[i])
    }

    constructor ()
      ensures Valid() && Value() == NEW_RUN && history == []
    {
      tests, passedAmount, failedAmount, finishedAmount := [], 0, 0, 0;
      stage, marked, defers, executed, aborted := TEST_STAGE, false, [], [], false;
      history := [];
    }

    method SetLast(t: TestRecord)
      requires tests != []
      modifies this`tests
      ensures Value() == old(Value()).WithLast(t)
    {
      tests := tests[..|tests| - 1] + [t];
    }

    method TestStarted(test: TestCase, time: string)
      requires Valid() && Idle(Value())
      modifies this
      ensures Valid() && Value() == TestProtocol.TestStarted(old(Value()), test, time)
      ensures history == old(history) + [Value()]
    {
      StartKeeps(Value(), test, time);
      marked := false;
      tests := tests + [TestRecord(Some(test.name), test.description, Some(time), None, None, None,
                                   RUNNING, None, test.tags, [], [], [], [], [])];
      history := history + [Value()];
    }

    method Log(file: Option<string>, line: int, time: string, level: int, msg: string)
      requires Valid()
      modifies this
      ensures Valid() && Value() == Acted(old(Value()), Effect.Log(file, line, time, level, msg))
      ensures history == old(history) + [Value()]
    {
      ActKeeps(Value(), Effect.Log(file, line, time, level, msg));
      var o := Output(OrUnknown(file), line, Some(time), level, Some(msg));
      if !aborted && stage == TEST_STAGE {
        if tests == [] {
          aborted := true;
        } else {
          var t := tests[|tests| - 1];
          if t.status == RUNNING {
            if level == LogLevel.ERROR {
              SetLast(t.(outputs := t.outputs + [o], failureReasons := t.failureReasons + [o]));
              marked := true;
            } else {
              SetLast(t.(outputs := t.outputs + [o]));
            }
          } else if t.status == TEARDOWN_AFTER_PASSED || t.status == TEARDOWN_AFTER_FAILED {
            SetLast(t.(teardownOutputs := t.teardownOutputs + [o]));
          }
        }
      }
      history := history + [Value()];
    }

    method Defer(d: Deferred)
      requires Valid()
      modifies this
      ensures Valid() && Value() == Acted(old(Value()), Effect.Defer(d))
      ensures history == old(history) + [Value()]
    {
      ActKeeps(Value(), Effect.Defer(d));
      if !aborted {
        defers := defers + [d];
      }
      history := history + [Value()];
    }

    method SetStage(next: Stage)
      requires Valid()
      modifies this
      ensures Valid() && Value() == old(Value()).(stage := next)
      ensures history == old(history) + [Value()]
    {
      SameKeeps(Value(), Value().(stage := next));
      stage := next;
      history := history + [Value()];
    }

    /** Lua code runs. */
    method Perform(effects: seq<Effect>)
      requires Valid()
      modifies this
      ensures Valid() && Value() == Performed(old(Value()), effects)
      ensures history == old(history) + PerformedStates(old(Value()), effects)
      ensures Idle(Value()) <==> Idle(old(Value()))
    {
      hide Consistent, Idle, Acted;
      for i := 0 to |effects|
        invariant Valid()
        invariant Performed(old(Value()), effects) == Performed(Value(), effects[i..])
        invariant old(history) + PerformedStates(old(Value()), effects)
               == history + PerformedStates(Value(), effects[i..])
        invariant Idle(Value()) <==> Idle(old(Value()))
      {
        ActKeeps(Value(), effects[i]);
        assert effects[i..][1..] == effects[i + 1..];
        Associative(history, [Acted(Value(), effects[i])],
                    PerformedStates(Acted(Value(), effects[i]), effects[i + 1..]));
        match effects[i] {
          case Log(file, line, time, level, msg) => Log(file, line, time, level, msg);
          case Defer(d) => Defer(d);
        }
      }
    }

    /** One hook; its failure is swallowed. */
    method RunHook(hook: Chunk)
      requires Valid()
      modifies this
      ensures Valid() && Value() == HookRun(old(Value()), hook)
      ensures history == old(history) + (PerformedStates(old(Value()), hook.effects) + [Value()])
      ensures Idle(Value()) <==> Idle(old(Value()))
    {
      Associative(history, PerformedStates(Value(), hook.effects), [HookRun(Value(), hook)]);
      hide Consistent, Performed, PerformedStates;
      Perform(hook.effects);
      SameKeeps(Value(), Value().(stage := TEST_STAGE));
      SetStage(TEST_STAGE);
    }

    method RunHooks(hooks: seq<Chunk>)
      requires Valid()
      modifies this
      ensures Valid() && Value() == HooksRun(old(Value()), hooks)
      ensures history == old(history) + HookStates(old(Value()), hooks)
      ensures Idle(Value()) <==> Idle(old(Value()))
    {
      hide Consistent, Idle, HookLoop, HookLoopStates;
      ghost var hooked := Value().(stage := HOOK_STAGE);
      SameKeeps(Value(), hooked);
      SameKeeps(hooked, hooked.(stage := TEST_STAGE));
      SetStage(HOOK_STAGE);
      if |hooks| == 0 {
        SetStage(TEST_STAGE);
        return;
      }
      HookLoopFrom(hooks);
      Associative(old(history), [hooked], HookLoopStates(hooked, hooks));
    }

    method HookLoopFrom(hooks: seq<Chunk>)
      requires Valid()
      modifies this
      ensures Valid() && Value() == HookLoop(old(Value()), hooks)
      ensures history == old(history) + HookLoopStates(old(Value()), hooks)
      ensures Idle(Value()) <==> Idle(old(Value()))
    {
      hide Consistent, Idle, PerformedStates;
      for i := 0 to |hooks|
        invariant Valid()
        invariant HookLoop(old(Value()), hooks) == HookLoop(Value(), hooks[i..])
        invariant old(history) + HookLoopStates(old(Value()), hooks)
               == history + HookLoopStates(Value(), hooks[i..])
        invariant Idle(Value()) <==> Idle(old(Value()))
      {
        assert hooks[i..][1..] == hooks[i + 1..];
        ghost var next := HookRun(Value(), hooks[i]);
        Associative(history, PerformedStates(Value(), hooks[i].effects) + [next], HookLoopStates(next, hooks[i + 1..]));
        RunHook(hooks[i]);
      }
    }

    /** ltf_state_test_passed */
    method Pass(time: string, keywords: seq<Keyword>)
      requires tests != []
      modifies this`tests, this`passedAmount, this`finishedAmount
      ensures Value() == TestPassed(old(Value()), time, keywords)
    {
      SetLast(tests[|tests| - 1].(status := PASSED, statusStr := Some("PASSED"), finished := Some(time),
                                  keywords := keywords));
      passedAmount := passedAmount + 1;
      finishedAmount := finishedAmount + 1;
    }

    /** ltf_state_test_failed */
    method Fail(error: Option<Raised>, time: string, keywords: seq<Keyword>)
      requires tests != []
      modifies this`tests, this`failedAmount, this`finishedAmount
      ensures Value() == TestFailed(old(Value()), error, time, keywords)
    {
      var t := tests[|tests| - 1];
      var reasons := if error.Some? then [Reason(error.value, time)] else [];
      SetLast(t.(status := FAILED, statusStr := Some("FAILED"), finished := Some(time), keywords := keywords,
                 failureReasons := t.failureReasons + reasons));
      finishedAmount := finishedAmount + 1;
      failedAmount := failedAmount + 1;
    }

    method Judge(error: Option<Raised>, time: string, keywords: seq<Keyword>) returns (passed: bool)
      requires Valid() && tests != [] && Pending(tests[|tests| - 1], marked)
      modifies this
      ensures Valid() && Idle(Value()) && Value() == Judged(old(Value()), error, time, keywords)
      ensures history == old(history) + [Value()]
      ensures passedAmount == old(passedAmount) + if passed then 1 else 0
    {
      JudgeKeeps(Value(), error, time, keywords);
      hide Consistent, Idle;
      passed := error.None? && !marked;
      if passed {
        Pass(time, keywords);
      } else {
        Fail(error, time, keywords);
      }
      hide TestPassed, TestFailed;
      history := history + [Value()];
    }

    method BeginTeardown(time: string)
      requires Valid() && Idle(Value()) && tests != []
      modifies this
      ensures Valid() && Idle(Value()) && Value() == TeardownStarted(old(Value()), time)
      ensures history == old(history) + [Value()]
    {
      TeardownKeeps(Value(), Raised(None, 0, "", ""), time);
      var t := tests[|tests| - 1];
      SetLast(t.(teardownStart := Some(time),
                 status := match t.status case FAILED => TEARDOWN_AFTER_FAILED
                                          case PASSED => TEARDOWN_AFTER_PASSED
                                          case s => s));
      history := history + [Value()];
    }

    method EndTeardown(time: string)
      requires Valid() && Idle(Value()) && tests != []
      modifies this
      ensures Valid() && Idle(Value()) && Value() == TeardownFinished(old(Value()), time)
      ensures history == old(history) + [Value()]
    {
      TeardownKeeps(Value(), Raised(None, 0, "", ""), time);
      var t := tests[|tests| - 1];
      SetLast(t.(teardownEnd := Some(time),
                 status := match t.status case TEARDOWN_AFTER_FAILED => FAILED
                                          case TEARDOWN_AFTER_PASSED => PASSED
                                          case s => s));
      history := history + [Value()];
    }

    method BeginDefer(d: Deferred, status: string)
      requires Valid() && Idle(Value())
      modifies this
      ensures Valid() && Idle(Value()) && Value() == Executed(old(Value()), d, status)
      ensures tests == old(tests)
      ensures history == old(history) + [Value()]
    {
      SameKeeps(Value(), Executed(Value(), d, status));
      hide Consistent, Idle;
      executed := executed + [Execution(d, if |d.args| == 0 then [status] else d.args)];
      history := history + [Value()];
    }

    method FailDefer(e: Raised)
      requires Valid() && Idle(Value()) && tests != []
      modifies this
      ensures Valid() && Idle(Value()) && Value() == DeferFailed(old(Value()), e)
      ensures history == old(history) + [Value()]
    {
      DeferFailureKeeps(Value(), e);
      hide Consistent, Idle;
      var t := tests[|tests| - 1];
      SetLast(t.(teardownErrors := t.teardownErrors + [ErrorOf(e)]));
      history := history + [Value()];
    }

    method RunDefer(d: Deferred, status: string)
      requires Valid() && Idle(Value()) && tests != []
      modifies this
      ensures Valid() && Idle(Value()) && Value() == DeferRun(old(Value()), d, status)
      ensures history == old(history) + DeferStates(old(Value()), d, status)
    {
      hide Consistent, Idle, Executed, DeferFailed, Performed, PerformedStates;
      ghost var begun := Executed(Value(), d, status);
      ghost var states := PerformedStates(begun, d.body.effects);
      Associative(history, [begun], states);
      BeginDefer(d, status);
      PerformedKeeps(Value(), d.body.effects);
      Perform(d.body.effects);
      assert history == old(history) + ([begun] + states);
      if d.body.error.Some? {
        FailDefer(d.body.error.value);
        Associative(old(history), [begun] + states, [Value()]);
      } else {
        assert [begun] + states + [] == [begun] + states;
      }
    }

    /** The loop over the defer list, from its end. */
    method RunDefers(n: nat, status: string)
      requires Valid() && Idle(Value()) && tests != [] && n <= |defers|
      modifies this
      ensures Valid() && Idle(Value()) && tests != [] && Value() == DefersRun(old(Value()), n, status)
      ensures history == old(history) + DefersStates(old(Value()), n, status)
    {
      hide Consistent, DeferRun, DeferStates, Idle;
      for i := n downto 0
        invariant Valid() && Idle(Value()) && tests != []
        invariant i <= |defers|
        invariant DefersRun(old(Value()), n, status) == DefersRun(Value(), i, status)
        invariant old(history) + DefersStates(old(Value()), n, status)
               == history + DefersStates(Value(), i, status)
      {
        Associative(history, DeferStates(Value(), defers[i], status),
                    DefersStates(DeferRun(Value(), defers[i], status), i, status));
        RunDefer(defers[i], status);
      }
    }

    method ClearDefers()
      requires Valid() && Idle(Value())
      modifies this
      ensures Valid() && Idle(Value()) && Value() == old(Value()).(defers := [])
      ensures history == old(history) + [Value()]
    {
      SameKeeps(Value(), Value().(defers := []));
      hide Consistent, Idle;
      defers := [];
      history := history + [Value()];
    }

    method RunDeferred(status: string, times: Times)
      requires Valid() && Idle(Value()) && tests != []
      modifies this
      ensures Valid() && Idle(Value()) && Value() == DeferredRun(old(Value()), status, times)
      ensures history == old(history) + DeferredStates(old(Value()), status, times)
    {
      if defers == [] {
        return;
      }
      hide Consistent, Idle, DefersRun, DefersStates, TeardownStarted, TeardownFinished;
      var n := |defers|;
      TeardownKeepsDefers(Value(), times.teardownStart);
      BeginTeardown(times.teardownStart);
      ghost var begun := Value();
      RunDefers(n, status);
      EndTeardown(times.teardownEnd);
      ghost var ended := Value();
      ClearDefers();
      FourParts(old(history), [begun], DefersStates(begun, n, status), [ended], [Value()]);
    }

    /** run_all_tests.  Without an exit code the program has been ended by the failed assertion. */
    method RunAllTests(plan: Plan) returns (success: Option<bool>)
      requires Valid() && Fresh(Value()) && plan.tests != []
      modifies this
      ensures Valid() && Value() == AllRun(old(Value()), plan)
      ensures history == old(history) + RunStates(old(Value()), plan)
      ensures success.None? <==> CutShort(plan)
      ensures success.Some? ==> Completed(Value(), plan.tests)
      ensures success.Some? ==>
        (success.value <==> forall i | 0 <= i < |tests| :: !Judgement(tests[i], "FAILED"))
    {
      ghost var start := Value();
      RunOutcome(start, plan);
      BeginRun(start, plan);
      hide CutShort, Completed, HooksRun, HookStates, TestsRun, TestsStates, AllAnswer, Passing, Consistent, Fresh;
      history := history + [Value()];
      RunHooks(plan.startHooks);
      ghost var begun := Value();
      ghost var early := [start] + HookStates(start, plan.startHooks);
      Associative(old(history), [start], HookStates(start, plan.startHooks));
      if aborted {
        assert early + [] == early;
        return None;
      }
      FreshIsIdle(begun);
      FromTheStart(begun, plan.tests);
      var passed := RunTests(plan.tests);
      ghost var done := Value();
      FinishHooksRun(done, plan.endHooks);
      hide Idle;
      RunHooks(plan.endHooks);
      SuccessIs(Value(), plan.tests);
      success := Some(passed == |plan.tests|);
      ghost var middle, late := TestsStates(begun, plan.tests), HookStates(done, plan.endHooks);
      Associative(old(history) + early, middle, late);
      Associative(old(history), early, middle + late);
    }

    /** The loop over the tests. */
    method RunTests(plans: seq<TestPlan>) returns (passed: nat)
      requires Valid() && Idle(Value()) && !aborted && stage == TEST_STAGE && passedAmount == 0
      modifies this
      ensures Valid() && Idle(Value()) && !aborted && stage == TEST_STAGE && passed == passedAmount
      ensures Value() == TestsRun(old(Value()), plans)
      ensures history == old(history) + TestsStates(old(Value()), plans)
    {
      hide Consistent, TestRun, TestStates, Idle;
      passed := 0;
      for i := 0 to |plans|
        invariant Valid() && Idle(Value())
        invariant !aborted && stage == TEST_STAGE && passed == passedAmount
        invariant TestsRun(old(Value()), plans) == TestsRun(Value(), plans[i..])
        invariant old(history) + TestsStates(old(Value()), plans) == history + TestsStates(Value(), plans[i..])
      {
        assert plans[i..][1..] == plans[i + 1..];
        Associative(history, TestStates(Value(), plans[i]),
                    TestsStates(TestRun(Value(), plans[i]), plans[i + 1..]));
        var ok := RunTest(plans[i]);
        if ok {
          passed := passed + 1;
        }
      }
      assert plans[|plans|..] == [];
    }

    /** The body of the loop over the tests. */
    method RunTest(p: TestPlan) returns (passed: bool)
      requires Valid() && Idle(Value()) && !aborted && stage == TEST_STAGE
      modifies this
      ensures Valid() && Idle(Value()) && !aborted && stage == TEST_STAGE
      ensures Value() == TestRun(old(Value()), p)
      ensures history == old(history) + TestStates(old(Value()), p)
      ensures passedAmount == old(passedAmount) + if passed then 1 else 0
    {
      ghost var r := Value();
      TestRunKeeps(r, p);
      TestRunCounts(r, p);
      BodyPending(r, p);
      hide Consistent, TestRun, Pending, Judged, DeferredRun, DeferredStates, HooksRun, HookStates, BodyRun,
           BodyStates, Idle;
      RunBody(p);
      passed := Judge(p.body.error, p.times.finished, p.keywords);
      ghost var judged := Value();
      RunDeferred(StatusOf(p.body), p.times);
      ghost var done := Value();
      RunHooks(p.finishHooks);
      FourParts(old(history), BodyStates(r, p), [judged], DeferredStates(judged, StatusOf(p.body), p.times),
                HookStates(done, p.finishHooks));
    }

    /** The test starts, its hooks run, and its body. */
    method RunBody(p: TestPlan)
      requires Valid() && Idle(Value())
      modifies this
      ensures Valid() && Value() == BodyRun(old(Value()), p)
      ensures history == old(history) + BodyStates(old(Value()), p)
    {
      hide Consistent, Performed, PerformedStates, HooksRun, HookStates;
      TestStarted(p.test, p.times.started);
      ghost var begun := Value();
      RunHooks(p.startHooks);
      ghost var hooked := Value();
      Perform(p.body.effects);
      FourParts(old(history), [begun], HookStates(begun, p.startHooks), PerformedStates(hooked, p.body.effects), []);
    }
  }

  lemma FourParts<T>(before: seq<T>, a: seq<T>, b: seq<T>, c: seq<T>, d: seq<T>)
    ensures before + a + b + c + d == before + (a + b + c + d)
    ensures a + b + c + [] == a + b + c
  {
  }

  lemma TeardownKeepsDefers(r: Run, time: string)
    requires r.tests != []
    ensures TeardownStarted(r, time).tests != [] && TeardownStarted(r, time).defers == r.defers
  {
  }

  lemma FreshIsIdle(r: Run)
    requires Fresh(r)
    ensures Idle(r) && !r.aborted && r.stage == TEST_STAGE && r.passedAmount == 0
  {
  }

  lemma SuccessIs(r: Run, plans: seq<TestPlan>)
    requires Completed(r, plans)
    ensures r.passedAmount == |plans| <==> forall i | 0 <= i < |r.tests| :: !Judgement(r.tests[i], "FAILED")
  {
    hide Settled, AllAnswer, Judgement;
  }
}
