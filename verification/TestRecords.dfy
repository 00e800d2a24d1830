/** What a test's record says, field by field, in terms of what the Lua code did: every logged line, every
    error and every defer with its own texts, at its own place. */
module TestRecords {
  import opened Options
  import opened RunState
  import opened TestProtocol
  import opened TestRuns
  import LogLevel

  // ----- one line -----

  /** ltf_state_log in all states of the test. */
  lemma LineLogged(r: Run, file: Option<string>, line: int, time: string, level: int, msg: string)
    requires !r.aborted && r.stage == TEST_STAGE && r.tests != []
    ensures var r' := Acted(r, Effect.Log(file, line, time, level, msg));
      var n, o := |r.tests| - 1, Output(Some(if file.Some? then file.value else "unknown"), line, Some(time), level,
                                        Some(msg));
      && r' == r.(tests := r'.tests, marked := r'.marked)
      && |r'.tests| == n + 1 && r'.tests[..n] == r.tests[..n]
      && (r'.marked <==> r.marked || (r.tests[n].status == RUNNING && level == 1))
      && r'.tests[n] == r.tests[n].(
           outputs := r.tests[n].outputs + if r.tests[n].status == RUNNING then [o] else [],
           failureReasons := r.tests[n].failureReasons
             + if r.tests[n].status == RUNNING && level == 1 then [o] else [],
           teardownOutputs := r.tests[n].teardownOutputs
             + if r.tests[n].status == TEARDOWN_AFTER_PASSED || r.tests[n].status == TEARDOWN_AFTER_FAILED
               then [o] else [])
  {
    var t := r.Last();
    assert t.outputs + [] == t.outputs && t.failureReasons + [] == t.failureReasons;
    assert t.teardownOutputs + [] == t.teardownOutputs;
  }

  lemma LineIgnored(r: Run, file: Option<string>, line: int, time: string, level: int, msg: string)
    requires r.aborted || r.stage == HOOK_STAGE
    ensures Acted(r, Effect.Log(file, line, time, level, msg)) == r
  {
  }

  // ----- counting what code does -----

  function LineCount(effects: seq<Effect>): nat {
    if effects == [] then 0 else (if effects[0].Log? then 1 else 0) + LineCount(effects[1..])
  }

  function DeferCount(effects: seq<Effect>): nat {
    if effects == [] then 0 else (if effects[0].Defer? then 1 else 0) + DeferCount(effects[1..])
  }

  function LinesIn(chunks: seq<Chunk>): nat {
    if chunks == [] then 0 else LineCount(chunks[0].effects) + LinesIn(chunks[1..])
  }

  function DefersIn(chunks: seq<Chunk>): nat {
    if chunks == [] then 0 else DeferCount(chunks[0].effects) + DefersIn(chunks[1..])
  }

  lemma {:induction false} CountsAre(effects: seq<Effect>)
    ensures |Lines(effects)| == LineCount(effects) && |Defers(effects)| == DeferCount(effects)
  {
    if effects != [] {
      CountsAre(effects[1..]);
    }
  }

  lemma {:induction false} CountsIn(chunks: seq<Chunk>)
    ensures |Lines(EffectsOf(chunks))| == LinesIn(chunks) && |Defers(EffectsOf(chunks))| == DefersIn(chunks)
  {
    if chunks != [] {
      CountsIn(chunks[1..]);
      CountsAre(chunks[0].effects);
      ListsConcat(chunks[0].effects, EffectsOf(chunks[1..]));
    }
  }

  lemma Middle<T>(a: seq<T>, x: T, b: seq<T>)
    ensures |a| < |a + ([x] + b)| && (a + ([x] + b))[|a|] == x
    ensures |a + ([x] + b)| == |a| + 1 + |b|
  {
  }

  /** The entry a logged line makes. */
  predicate IsLine(o: Output, e: Effect)
    requires e.Log?
  {
    && o.file == Some(if e.file.Some? then e.file.value else "unknown")
    && o.line == e.line && o.dateTime == Some(e.time) && o.level == e.level && o.msg == Some(e.msg)
  }

  lemma LineAt(a: seq<Effect>, e: Effect, b: seq<Effect>)
    requires e.Log?
    ensures LineCount(a) < |Lines(a + [e] + b)| && IsLine(Lines(a + [e] + b)[LineCount(a)], e)
  {
    ListsConcat(a + [e], b);
    ListsConcat(a, [e]);
    OneEffect(e);
    CountsAre(a);
  }

  lemma DeferAt(a: seq<Effect>, d: Deferred, b: seq<Effect>)
    ensures Defers(a + [Effect.Defer(d)] + b) == Defers(a) + [d] + Defers(b)
    ensures |Defers(a)| == DeferCount(a) && |Defers(b)| == DeferCount(b)
  {
    ListsConcat(a + [Effect.Defer(d)], b);
    ListsConcat(a, [Effect.Defer(d)]);
    OneEffect(Effect.Defer(d));
    CountsAre(a);
    CountsAre(b);
  }

  lemma {:induction false} EffectsConcat(a: seq<Chunk>, b: seq<Chunk>)
    ensures EffectsOf(a + b) == EffectsOf(a) + EffectsOf(b)
  {
    if a == [] {
      assert a + b == b;
    } else {
      assert (a + b)[1..] == a[1..] + b;
      EffectsConcat(a[1..], b);
    }
  }

  lemma EffectsAround(before: seq<Chunk>, hook: Chunk, after: seq<Chunk>)
    ensures EffectsOf(before + [hook] + after) == EffectsOf(before) + hook.effects + EffectsOf(after)
  {
    EffectsConcat(before + [hook], after);
    EffectsConcat(before, [hook]);
    assert [hook][1..] == [] && EffectsOf([hook]) == hook.effects + [] == hook.effects;
  }

  // ----- the outputs of a test -----

  /** The hooks whose lines count as the test's. */
  function CountedHooks(p: TestPlan): seq<Chunk> {
    if p.startHooks == [] then [] else p.startHooks[1..]
  }

  /** Every line of the body has its entry, after those of the counted hooks and of what came before. */
  lemma BodyLine(r: Run, p: TestPlan, a: seq<Effect>, e: Effect, b: seq<Effect>)
    requires !r.aborted && r.stage == TEST_STAGE && p.body.effects == a + [e] + b && e.Log?
    ensures TestRun(r, p).tests != []
    ensures var outputs, i := TestRun(r, p).Last().outputs, LinesIn(CountedHooks(p)) + LineCount(a);
      i < |outputs| && IsLine(outputs[i], e)
  {
    LateHooksCount(r, p);
    CountsIn(CountedHooks(p));
    LineAt(a, e, b);
  }

  lemma HookLinesAround(before: seq<Chunk>, hook: Chunk, after: seq<Chunk>, a: seq<Effect>, e: Effect, b: seq<Effect>,
                        more: seq<Output>)
    requires hook.effects == a + [e] + b && e.Log?
    ensures var lines, i := Lines(EffectsOf(before + [hook] + after)) + more, LinesIn(before) + LineCount(a);
      i < |lines| && IsLine(lines[i], e)
  {
    hide *;
    EffectsAround(before, hook, after);
    ListsConcat(EffectsOf(before) + hook.effects, EffectsOf(after));
    ListsConcat(EffectsOf(before), hook.effects);
    CountsIn(before);
    LineAt(a, e, b);
  }

  /** So has every line of a counted hook, and there are no others. */
  lemma HookLine(r: Run, p: TestPlan, before: seq<Chunk>, hook: Chunk, after: seq<Chunk>,
                 a: seq<Effect>, e: Effect, b: seq<Effect>)
    requires !r.aborted && r.stage == TEST_STAGE && CountedHooks(p) == before + [hook] + after
    requires hook.effects == a + [e] + b && e.Log?
    ensures TestRun(r, p).tests != []
    ensures var outputs, i := TestRun(r, p).Last().outputs, LinesIn(before) + LineCount(a);
      i < |outputs| && IsLine(outputs[i], e)
  {
    hide TestRun, IsLine, Lines, LinesIn, LineCount, EffectsOf;
    LateHooksCount(r, p);
    HookLinesAround(before, hook, after, a, e, b, Lines(p.body.effects));
  }

  lemma OutputCount(r: Run, p: TestPlan)
    requires !r.aborted && r.stage == TEST_STAGE
    ensures TestRun(r, p).tests != []
    ensures |TestRun(r, p).Last().outputs| == LinesIn(CountedHooks(p)) + LineCount(p.body.effects)
  {
    LateHooksCount(r, p);
    CountsIn(CountedHooks(p));
    CountsAre(p.body.effects);
  }

  // ----- its failure reasons -----

  /** How many of these entries have level 1, ERROR. */
  function ErrorCount(outputs: seq<Output>): nat {
    if outputs == [] then 0
    else ErrorCount(outputs[..|outputs| - 1]) + if outputs[|outputs| - 1].level == 1 then 1 else 0
  }

  lemma {:induction false} ErrorsCounted(outputs: seq<Output>)
    ensures |Errors(outputs)| == ErrorCount(outputs)
    decreases |outputs|
  {
    if outputs != [] {
      var front, last := outputs[..|outputs| - 1], outputs[|outputs| - 1];
      ErrorsCounted(front);
      assert outputs == front + [last];
      ErrorsConcat(front, [last]);
      assert [last][1..] == [];
    }
  }

  lemma ErrorAt(outputs: seq<Output>, i: nat)
    requires i < |outputs| && outputs[i].level == 1
    ensures ErrorCount(outputs[..i]) < |Errors(outputs)| && Errors(outputs)[ErrorCount(outputs[..i])] == outputs[i]
  {
    var a, b := outputs[..i], outputs[i + 1..];
    assert outputs == a + [outputs[i]] + b;
    ErrorsConcat(a + [outputs[i]], b);
    ErrorsConcat(a, [outputs[i]]);
    assert [outputs[i]][1..] == [] && Errors([outputs[i]]) == [outputs[i]];
    ErrorsCounted(a);
  }

  lemma ReasonsParts(r: Run, p: TestPlan)
    requires !r.aborted && r.stage == TEST_STAGE
    ensures TestRun(r, p).tests != []
    ensures var t := TestRun(r, p).Last();
      && |t.failureReasons| == |Errors(t.outputs)| + (if p.body.error.Some? then 1 else 0)
      && t.failureReasons[..|Errors(t.outputs)|] == Errors(t.outputs)
      && (p.body.error.Some? ==>
            var last := t.failureReasons[|t.failureReasons| - 1];
            && last.file == Some(if p.body.error.value.file.Some? then p.body.error.value.file.value else "unknown")
            && last.line == p.body.error.value.line && last.level == 0
            && last.dateTime == Some(p.times.finished) && last.msg == Some(p.body.error.value.trace))
  {
    AfterTestParts(r, p);
    hide TestRun, Errors, Lines, Waiting, RunningEffects, TeardownLines, TeardownErrors;
  }

  /** The failure reasons are the outputs of level ERROR, in order, and then what the body raised: with its
      traceback, its place, the time of the verdict and level CRITICAL. */
  lemma ReasonsAre(r: Run, p: TestPlan, i: nat)
    requires !r.aborted && r.stage == TEST_STAGE
    ensures TestRun(r, p).tests != []
    ensures var t := TestRun(r, p).Last();
      && |t.failureReasons| == ErrorCount(t.outputs) + (if p.body.error.Some? then 1 else 0)
      && (i < |t.outputs| && t.outputs[i].level == 1 ==>
            ErrorCount(t.outputs[..i]) < |t.failureReasons|
            && t.failureReasons[ErrorCount(t.outputs[..i])] == t.outputs[i])
      && (p.body.error.Some? ==>
            var e, last := p.body.error.value, t.failureReasons[|t.failureReasons| - 1];
            last == Output(Some(if e.file.Some? then e.file.value else "unknown"), e.line, Some(p.times.finished), 0,
                           Some(e.trace)))
  {
    ReasonsParts(r, p);
    hide TestRun, Errors, ErrorCount;
    var t := TestRun(r, p).Last();
    ErrorsCounted(t.outputs);
    if i < |t.outputs| && t.outputs[i].level == 1 {
      ErrorAt(t.outputs, i);
    }
  }

  // ----- everything else about the record -----

  /** The record is the last one, and says when the test started and got its verdict, and which. */
  lemma RecordSays(r: Run, p: TestPlan)
    requires !r.aborted && r.stage == TEST_STAGE
    ensures var r' := TestRun(r, p);
      && |r'.tests| == |r.tests| + 1 && r'.tests[..|r.tests|] == r.tests
      && var t := r'.tests[|r.tests|];
      && t.name == Some(p.test.name) && t.description == p.test.description && t.tags == p.test.tags
      && t.started == Some(p.times.started) && t.finished == Some(p.times.finished)
      && t.keywords == p.keywords
      && (t.statusStr == Some("FAILED") <==> p.body.error.Some? || ErrorCount(t.outputs) > 0)
      && (t.statusStr == Some("PASSED") <==> p.body.error.None? && ErrorCount(t.outputs) == 0)
      && (t.status == FAILED <==> t.statusStr == Some("FAILED"))
      && (t.status == PASSED <==> t.statusStr == Some("PASSED"))
      && (t.teardownStart == if |r'.executed| > |r.executed| then Some(p.times.teardownStart) else None)
      && (t.teardownEnd == if |r'.executed| > |r.executed| then Some(p.times.teardownEnd) else None)
      && r'.passedAmount == r.passedAmount + (if t.status == PASSED then 1 else 0)
      && r'.failedAmount == r.failedAmount + (if t.status == FAILED then 1 else 0)
      && r'.finishedAmount == r.finishedAmount + 1
  {
    TestRunIs(r, p);
    AfterTestParts(r, p);
    var defers := Reversed(Waiting(r, p));
    hide TestRun, Errors, Lines, Waiting, RunningEffects, TeardownLines, TeardownErrors, Executions, Reversed;
    ErrorsCounted(Lines(RunningEffects(p)));
    ExecutionsCount(defers, StatusOf(p.body));
  }

  // ----- the defers of a test -----

  lemma {:induction false} ReversedAt<T>(s: seq<T>, i: nat)
    requires i < |s|
    ensures |Reversed(s)| == |s| && Reversed(s)[|s| - 1 - i] == s[i]
  {
    if i > 0 {
      ReversedAt(s[1..], i - 1);
    } else {
      ReversedCount(s[1..]);
    }
  }

  lemma {:induction false} ReversedCount<T>(s: seq<T>)
    ensures |Reversed(s)| == |s|
  {
    if s != [] {
      ReversedCount(s[1..]);
    }
  }

  /** The i-th of the waiting defers, counted from the newest. */
  lemma ExecutedAt(r: Run, p: TestPlan, i: nat)
    requires !r.aborted && r.stage == TEST_STAGE && i < |Waiting(r, p)|
    ensures var executed, n := TestRun(r, p).executed, |Waiting(r, p)|;
      && |executed| == |r.executed| + n
      && executed[..|r.executed|] == r.executed
      && executed[|r.executed| + n - 1 - i].deferred == Waiting(r, p)[i]
  {
    hide *;
    AfterTestParts(r, p);
    var n, defers := |Waiting(r, p)|, Reversed(Waiting(r, p));
    ReversedAt(Waiting(r, p), i);
    ExecutionsCount(defers, StatusOf(p.body));
    ExecutionsAre(defers, StatusOf(p.body), n - 1 - i);
  }

  /** As many defers run as are waiting, and those that ran before stay as they were. */
  lemma ExecutedCount(r: Run, p: TestPlan)
    requires !r.aborted && r.stage == TEST_STAGE
    ensures var executed := TestRun(r, p).executed;
      && |executed| == |r.executed| + |r.defers| + DefersIn(p.startHooks) + DeferCount(p.body.effects)
      && executed[..|r.executed|] == r.executed
  {
    hide TestRun, Executions, Reversed, Waiting;
    AfterTestParts(r, p);
    WaitingIs(r, p);
    ReversedCount(Waiting(r, p));
    ExecutionsCount(Reversed(Waiting(r, p)), StatusOf(p.body));
  }

  lemma WaitingIs(r: Run, p: TestPlan)
    ensures Waiting(r, p) == r.defers + Defers(EffectsOf(p.startHooks)) + Defers(p.body.effects)
    ensures |Defers(EffectsOf(p.startHooks))| == DefersIn(p.startHooks)
    ensures |Defers(p.body.effects)| == DeferCount(p.body.effects)
  {
    CountsIn(p.startHooks);
    CountsAre(p.body.effects);
  }

  lemma InTheMiddle<T>(before: seq<T>, a: seq<T>, x: T, b: seq<T>, after: seq<T>)
    ensures var all := before + (a + [x] + b) + after;
      && |all| == |before| + |a| + 1 + |b| + |after|
      && all[|before| + |a|] == x
  {
  }

  /** Newest first: a defer of the body runs after those the body registers later. */
  lemma BodyDeferRuns(r: Run, p: TestPlan, a: seq<Effect>, d: Deferred, b: seq<Effect>)
    requires !r.aborted && r.stage == TEST_STAGE && p.body.effects == a + [Effect.Defer(d)] + b
    ensures var executed, i := TestRun(r, p).executed, |r.executed| + DeferCount(b);
      i < |executed| && executed[i].deferred == d
  {
    hide *;
    var earlier := r.defers + Defers(EffectsOf(p.startHooks));
    WaitingIs(r, p);
    DeferAt(a, d, b);
    assert Waiting(r, p) == earlier + (Defers(a) + [d] + Defers(b)) + [];
    InTheMiddle(earlier, Defers(a), d, Defers(b), []);
    ExecutedAt(r, p, |earlier| + |Defers(a)|);
  }

  lemma HookDefersAround(before: seq<Chunk>, hook: Chunk, after: seq<Chunk>, a: seq<Effect>, d: Deferred,
                         b: seq<Effect>)
    requires hook.effects == a + [Effect.Defer(d)] + b
    ensures Defers(EffectsOf(before + [hook] + after))
         == Defers(EffectsOf(before)) + (Defers(a) + [d] + Defers(b)) + Defers(EffectsOf(after))
    ensures |Defers(EffectsOf(after))| == DefersIn(after) && |Defers(b)| == DeferCount(b)
    ensures |Defers(EffectsOf(before))| == DefersIn(before) && |Defers(a)| == DeferCount(a)
  {
    hide *;
    EffectsAround(before, hook, after);
    ListsConcat(EffectsOf(before) + hook.effects, EffectsOf(after));
    ListsConcat(EffectsOf(before), hook.effects);
    DeferAt(a, d, b);
    CountsIn(before);
    CountsIn(after);
  }

  /** A defer of a start hook runs after those of the body and of the hooks behind it. */
  lemma HookDeferRuns(r: Run, p: TestPlan, before: seq<Chunk>, hook: Chunk, after: seq<Chunk>,
                      a: seq<Effect>, d: Deferred, b: seq<Effect>)
    requires !r.aborted && r.stage == TEST_STAGE && p.startHooks == before + [hook] + after
    requires hook.effects == a + [Effect.Defer(d)] + b
    ensures var executed := TestRun(r, p).executed;
      var i := |r.executed| + DeferCount(p.body.effects) + DefersIn(after) + DeferCount(b);
      i < |executed| && executed[i].deferred == d
  {
    hide *;
    WaitingIs(r, p);
    HookDefersAround(before, hook, after, a, d, b);
    var early, late := Defers(EffectsOf(before)), Defers(EffectsOf(after));
    var own := Defers(p.body.effects);
    Regroup(r.defers, early, Defers(a) + [d] + Defers(b), late, own);
    InTheMiddle(r.defers + early, Defers(a), d, Defers(b), late + own);
    ExecutedAt(r, p, |r.defers + early| + |Defers(a)|);
  }

  lemma Regroup<T>(a: seq<T>, b: seq<T>, c: seq<T>, d: seq<T>, e: seq<T>)
    ensures a + (b + c + d) + e == a + b + c + (d + e)
  {
  }

  /** A defer that was waiting before the test runs after all of those, and is not left for the next. */
  lemma EarlierDeferRuns(r: Run, p: TestPlan, i: nat)
    requires !r.aborted && r.stage == TEST_STAGE && i < |r.defers|
    ensures var executed := TestRun(r, p).executed;
      var j := |r.executed| + DeferCount(p.body.effects) + DefersIn(p.startHooks) + (|r.defers| - 1 - i);
      j < |executed| && executed[j].deferred == r.defers[i]
  {
    hide *;
    WaitingIs(r, p);
    ExecutedAt(r, p, i);
  }

  lemma WaitingNext(r: Run, p: TestPlan)
    requires !r.aborted && r.stage == TEST_STAGE
    ensures TestRun(r, p).defers == Defers(EffectsOf(p.finishHooks))
  {
    TestRunIs(r, p);
    hide TestRun, FinalRecord;
  }

  /** Only what the finish hooks register waits for the next test. */
  lemma FinishHookWaits(r: Run, p: TestPlan, before: seq<Chunk>, hook: Chunk, after: seq<Chunk>,
                        a: seq<Effect>, d: Deferred, b: seq<Effect>)
    requires !r.aborted && r.stage == TEST_STAGE && p.finishHooks == before + [hook] + after
    requires hook.effects == a + [Effect.Defer(d)] + b
    ensures var waiting, i := TestRun(r, p).defers, DefersIn(before) + DeferCount(a);
      i < |waiting| && waiting[i] == d
  {
    hide *;
    WaitingNext(r, p);
    HookDefersAround(before, hook, after, a, d, b);
    InTheMiddle(Defers(EffectsOf(before)), Defers(a), d, Defers(b), Defers(EffectsOf(after)));
  }

  lemma WaitingAfter(r: Run, p: TestPlan)
    requires !r.aborted && r.stage == TEST_STAGE
    ensures |TestRun(r, p).defers| == DefersIn(p.finishHooks)
  {
    WaitingNext(r, p);
    CountsIn(p.finishHooks);
  }

  // ----- what the defers leave in the record -----

  function RaisedIn(executions: seq<Execution>): nat {
    if executions == [] then 0
    else (if executions[0].deferred.body.error.Some? then 1 else 0) + RaisedIn(executions[1..])
  }

  function LinesOf(executions: seq<Execution>): nat {
    if executions == [] then 0 else LineCount(executions[0].deferred.body.effects) + LinesOf(executions[1..])
  }

  lemma ExecutionsStep(defers: seq<Deferred>, status: string, i: nat)
    requires defers != [] && 0 < i <= |defers|
    ensures |Executions(defers, status)| == |defers| && |Executions(defers[1..], status)| == |defers| - 1
    ensures Executions(defers, status)[..i][1..] == Executions(defers[1..], status)[..i - 1]
    ensures Executions(defers, status)[0].deferred == defers[0]
  {
    ExecutionsCount(defers, status);
    ExecutionsCount(defers[1..], status);
    assert Executions(defers, status)[1..] == Executions(defers[1..], status);
  }

  lemma RaisedStep(executions: seq<Execution>)
    ensures executions == [] ==> RaisedIn(executions) == 0
    ensures executions != [] ==>
      RaisedIn(executions) == (if executions[0].deferred.body.error.Some? then 1 else 0) + RaisedIn(executions[1..])
  {
  }

  lemma ErrorsStep(defers: seq<Deferred>)
    ensures defers == [] ==> TeardownErrors(defers) == []
    ensures defers != [] ==>
      TeardownErrors(defers)
      == (match defers[0].body.error
          case None => []
          case Some(e) => [Output(Some(if e.file.Some? then e.file.value else "unknown"), e.line, Some(e.time), 0,
                                  Some(e.trace))])
         + TeardownErrors(defers[1..])
  {
  }

  lemma {:induction false} ErrorOfDefer(defers: seq<Deferred>, status: string, i: nat)
    requires i <= |defers|
    ensures |Executions(defers, status)| == |defers|
    ensures i == |defers| ==> RaisedIn(Executions(defers, status)) == |TeardownErrors(defers)|
    ensures i < |defers| && defers[i].body.error.Some? ==>
      var e, k := defers[i].body.error.value, RaisedIn(Executions(defers, status)[..i]);
      && k < |TeardownErrors(defers)|
      && TeardownErrors(defers)[k]
         == Output(Some(if e.file.Some? then e.file.value else "unknown"), e.line, Some(e.time), 0, Some(e.trace))
  {
    hide *;
    ExecutionsCount(defers, status);
    ErrorsStep(defers);
    var all := Executions(defers, status);
    RaisedStep(all[..i]);
    assert all[..|defers|] == all;
    if i > 0 {
      ExecutionsStep(defers, status, i);
      ErrorOfDefer(defers[1..], status, i - 1);
      assert all[..i][0] == all[0];
      if i == |defers| {
        assert Executions(defers[1..], status)[..i - 1] == Executions(defers[1..], status);
      } else {
        assert defers[1..][i - 1] == defers[i];
      }
    }
  }

  lemma LinesStep(defers: seq<Deferred>, executions: seq<Execution>)
    ensures defers == [] ==> TeardownLines(defers) == []
    ensures defers != [] ==> TeardownLines(defers) == Lines(defers[0].body.effects) + TeardownLines(defers[1..])
    ensures executions == [] ==> LinesOf(executions) == 0
    ensures executions != [] ==>
      LinesOf(executions) == LineCount(executions[0].deferred.body.effects) + LinesOf(executions[1..])
  {
  }

  lemma {:induction false} LinesOfDefer(defers: seq<Deferred>, status: string, i: nat,
                                         a: seq<Effect>, e: Effect, b: seq<Effect>)
    requires i < |defers| && defers[i].body.effects == a + [e] + b && e.Log?
    ensures |Executions(defers, status)| == |defers|
    ensures var k := LinesOf(Executions(defers, status)[..i]) + LineCount(a);
      k < |TeardownLines(defers)| && IsLine(TeardownLines(defers)[k], e)
  {
    hide *;
    ExecutionsCount(defers, status);
    var all := Executions(defers, status);
    LinesStep(defers, all[..i]);
    if i > 0 {
      ExecutionsStep(defers, status, i);
      LinesOfDefer(defers[1..], status, i - 1, a, e, b);
      CountsAre(defers[0].body.effects);
      assert all[..i][0] == all[0];
    } else {
      LineAt(a, e, b);
    }
  }

  lemma TeardownParts(r: Run, p: TestPlan)
    requires !r.aborted && r.stage == TEST_STAGE
    ensures var r', defers := TestRun(r, p), Reversed(Waiting(r, p));
      && r'.executed == r.executed + Executions(defers, StatusOf(p.body))
      && r'.tests != []
      && r'.Last().teardownErrors == TeardownErrors(defers) && r'.Last().teardownOutputs == TeardownLines(defers)
  {
    AfterTestParts(r, p);
    hide TestRun, Errors, Lines, Waiting, RunningEffects, TeardownLines, TeardownErrors, Executions, Reversed;
  }

  /** Every defer that raised has its error, in the order they ran, with its own traceback, place and time. */
  lemma DeferErrorAt(r: Run, p: TestPlan, i: nat)
    requires !r.aborted && r.stage == TEST_STAGE
    requires |r.executed| <= i < |TestRun(r, p).executed|
    ensures TestRun(r, p).tests != []
    ensures var errors, executed := TestRun(r, p).Last().teardownErrors, TestRun(r, p).executed;
      && |errors| == RaisedIn(executed[|r.executed|..])
      && (executed[i].deferred.body.error.Some? ==>
            var e, k := executed[i].deferred.body.error.value, RaisedIn(executed[|r.executed|..i]);
            && k < |errors|
            && errors[k] == Output(Some(if e.file.Some? then e.file.value else "unknown"), e.line, Some(e.time), 0,
                                   Some(e.trace)))
  {
    hide *;
    TeardownParts(r, p);
    var defers, status, n := Reversed(Waiting(r, p)), StatusOf(p.body), |r.executed|;
    var all := Executions(defers, status);
    ExecutionsAre(defers, status, i - n);
    ErrorOfDefer(defers, status, i - n);
    ErrorOfDefer(defers, status, |defers|);
    assert TestRun(r, p).executed[n..] == all && TestRun(r, p).executed[n..i] == all[..i - n];
  }

  /** Every line a defer logs has its entry in the teardown's outputs, in the order they ran. */
  lemma DeferLineAt(r: Run, p: TestPlan, i: nat, a: seq<Effect>, e: Effect, b: seq<Effect>)
    requires !r.aborted && r.stage == TEST_STAGE
    requires |r.executed| <= i < |TestRun(r, p).executed|
    requires TestRun(r, p).executed[i].deferred.body.effects == a + [e] + b && e.Log?
    ensures TestRun(r, p).tests != []
    ensures var outputs := TestRun(r, p).Last().teardownOutputs;
      var k := LinesOf(TestRun(r, p).executed[|r.executed|..i]) + LineCount(a);
      k < |outputs| && IsLine(outputs[k], e)
  {
    hide *;
    TeardownParts(r, p);
    var defers, status, n := Reversed(Waiting(r, p)), StatusOf(p.body), |r.executed|;
    var all := Executions(defers, status);
    ExecutionsAre(defers, status, i - n);
    LinesOfDefer(defers, status, i - n, a, e, b);
    assert TestRun(r, p).executed[n..i] == all[..i - n];
  }

  lemma {:induction false} TeardownLineCount(defers: seq<Deferred>, status: string)
    ensures |TeardownLines(defers)| == LinesOf(Executions(defers, status))
  {
    if defers != [] {
      var all := Executions(defers, status);
      TeardownLineCount(defers[1..], status);
      CountsAre(defers[0].body.effects);
      assert all[1..] == Executions(defers[1..], status);
    }
  }

  lemma TeardownOutputCount(r: Run, p: TestPlan)
    requires !r.aborted && r.stage == TEST_STAGE
    ensures |r.executed| <= |TestRun(r, p).executed| && TestRun(r, p).tests != []
    ensures |TestRun(r, p).Last().teardownOutputs| == LinesOf(TestRun(r, p).executed[|r.executed|..])
  {
    hide *;
    TeardownParts(r, p);
    var defers, status := Reversed(Waiting(r, p)), StatusOf(p.body);
    TeardownLineCount(defers, status);
    assert TestRun(r, p).executed[|r.executed|..] == Executions(defers, status);
  }

  // ----- a line before any test -----

  /** A run is cut short exactly when a start hook behind the first logs a line. */
  lemma RunEndsEarly(r: Run, plan: Plan)
    requires Fresh(r) && plan.tests != []
    ensures AllRun(r, plan).aborted <==> plan.startHooks != [] && LinesIn(plan.startHooks[1..]) > 0
  {
    RunOutcome(r, plan);
    if plan.startHooks != [] {
      CountsIn(plan.startHooks[1..]);
    }
  }

  /** What the defers of the run-start hooks and of the run-end hooks become: the first wait for the first test,
      and the last are never run. */
  lemma RunHookDefers(r: Run, plan: Plan)
    requires Fresh(r) && plan.tests != [] && !CutShort(plan)
    ensures var begun, done := HooksRun(r, plan.startHooks), TestsRun(HooksRun(r, plan.startHooks), plan.tests);
      && |begun.defers| == |r.defers| + DefersIn(plan.startHooks)
      && |AllRun(r, plan).defers| == |done.defers| + DefersIn(plan.endHooks)
      && AllRun(r, plan).executed == done.executed && AllRun(r, plan).tests == done.tests
  {
    BeginRun(r, plan);
    var begun := HooksRun(r, plan.startHooks);
    if plan.startHooks != [] {
      CountsIn(plan.startHooks[1..]);
    }
    StartDefers(r, plan.startHooks);
    FromTheStart(begun, plan.tests);
    FinishHooksRun(TestsRun(begun, plan.tests), plan.endHooks);
    CountsIn(plan.endHooks);
  }

  lemma {:induction false} EarlyDefers(r: Run, hooks: seq<Chunk>)
    requires r.tests == [] && !r.aborted && LinesIn(hooks) == 0
    ensures |HookLoop(r, hooks).defers| == |r.defers| + DefersIn(hooks)
    decreases hooks
  {
    if hooks != [] {
      EarlyEffects(r, hooks[0].effects);
      EarlyDefers(Performed(r, hooks[0].effects).(stage := TEST_STAGE), hooks[1..]);
    }
  }

  lemma {:induction false} EarlyEffects(r: Run, effects: seq<Effect>)
    requires r.tests == [] && !r.aborted && (r.stage == HOOK_STAGE || LineCount(effects) == 0)
    ensures var r' := Performed(r, effects);
      r'.tests == [] && !r'.aborted && |r'.defers| == |r.defers| + DeferCount(effects)
    decreases effects
  {
    if effects != [] {
      EarlyEffects(Acted(r, effects[0]), effects[1..]);
    }
  }

  lemma StartDefers(r: Run, hooks: seq<Chunk>)
    requires r.tests == [] && !r.aborted && (hooks == [] || LinesIn(hooks[1..]) == 0)
    ensures |HooksRun(r, hooks).defers| == |r.defers| + DefersIn(hooks)
  {
    if hooks != [] {
      EarlyEffects(r.(stage := HOOK_STAGE), hooks[0].effects);
      EarlyDefers(Performed(r.(stage := HOOK_STAGE), hooks[0].effects).(stage := TEST_STAGE), hooks[1..]);
    }
  }
}
