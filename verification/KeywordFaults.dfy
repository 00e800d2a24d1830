/** When a run follows a stale pointer, whatever it runs in: a recorded root is used at every recorded
    call it makes itself and at its return, and each time the roots must still be in the buffer they
    were in when it was added. */
module KeywordFaults {
  import opened Keywords
  import opened KeywordStatus
  import opened KeywordForest
  import opened KeywordPointers

  /** The pointer of the innermost call: into a buffer of the roots, or none that could go stale. */
  datatype Use = Free | Rooted(buffer: nat)

  predicate Usable(use: Use, n: nat) {
    use.Rooted? ==> use.buffer == Buffer(n)
  }

  /** The innermost call's use inside a new call, with n roots before it. */
  function UseInside(f: Activation, caller: Caller, n: nat, directory: string): Use {
    if AddsRoot(f, caller, directory) then Rooted(Buffer(n + 1)) else Free
  }

  function RootsAdded(f: Activation, caller: Caller, directory: string): nat {
    if AddsRoot(f, caller, directory) then 1 else 0
  }

  /** With n roots there before the run every use of a root in it is good. */
  predicate CallsFit(calls: Calls, caller: Caller, use: Use, n: nat, directory: string)
    decreases calls, 1
  {
    calls.Done? ||
    (HereFits(calls, caller, use, n, directory) &&
     CallsFit(calls.rest, caller, use, n + |Here(calls, caller, directory).roots|, directory))
  }

  predicate HereFits(calls: Calls, caller: Caller, use: Use, n: nat, directory: string)
    requires calls.Then?
    decreases calls, 0
  {
    var f := calls.f;
    if Filtered(f) then CallsFit(calls.inner, caller, use, n, directory)
    else
      var next, own := CallerInside(f, caller, directory), UseInside(f, caller, n, directory);
      && (next.Kept? ==> Usable(use, n))
      && CallsFit(calls.inner, next, own, n + RootsAdded(f, caller, directory), directory)
      && Usable(own, n + |Here(calls, caller, directory).roots|)
  }

  function UseOn(stack: seq<Entry>): Use {
    if stack != [] && Pointing(stack[|stack| - 1]) && stack[|stack| - 1].keyword.value.owner == []
    then Rooted(stack[|stack| - 1].keyword.value.buffer)
    else Free
  }

  // ----- pointers into the arrays of children never go stale -----

  ghost predicate NestedLive(s: State) {
    && PointersValid(s)
    && forall i | 0 <= i < |s.stack| && Pointing(s.stack[i]) && s.stack[i].keyword.value.owner != [] ::
         Live(s.roots, s.stack[i].keyword.value)
  }

  /** What holds between events: the stack is a chain and all pointers but those into the roots are
      good. */
  ghost predicate Steady(s: State) {
    Chain(s) && NestedLive(s)
  }

  lemma SteadyIsSound(s: State)
    requires Steady(s)
    ensures Sound(s) && Valid(s) && Chain(s) && PointersValid(s)
  {
  }

  lemma SteadyAtStart(s: State)
    ensures Steady(TestStarted(s)) && UseOn(TestStarted(s).stack) == Free && CallerOn(TestStarted(s).stack) == NoCaller
    ensures TestStarted(s).roots == [] && TestStarted(s).stack == [] && TestStarted(s).fault == s.fault
  {
    ChainAtStart(s);
  }

  lemma NestedAfterKept(s: State, f: Activation, time: string, directory: string)
    requires Steady(s) && !Filtered(f) && !Drops(s.stack, InLibrary(f.source, directory))
    ensures NestedLive(OnCall(s, f, time, directory))
  {
    var r := OnCall(s, f, time, directory);
    var owner, n, x := Target(s.stack), |s.stack|, NewKeyword(f, time);
    AppendsUnderPointer(s);
    forall i | 0 <= i < n && Pointing(s.stack[i]) && s.stack[i].keyword.value.owner != []
      ensures Live(r.roots, r.stack[i].keyword.value)
    {
      AppendLive(s, owner, x, s.stack[i].keyword.value);
      assert r.stack[i] == s.stack[i];
    }
    assert Live(r.roots, r.stack[n].keyword.value) by {
      AppendKeeps(s.roots, owner, [x], owner);
    }
  }

  lemma NestedAfterCall(s: State, f: Activation, time: string, directory: string)
    requires Steady(s)
    ensures Steady(OnCall(s, f, time, directory))
  {
    ChainAfterCall(s, f, time, directory);
    if !Filtered(f) && !Drops(s.stack, InLibrary(f.source, directory)) {
      NestedAfterKept(s, f, time, directory);
    }
  }

  lemma NestedAfterReturn(s: State, f: Activation, time: string)
    requires Steady(s)
    ensures Steady(OnReturn(s, f, time))
  {
    ChainAfterReturn(s, f, time);
    var r := OnReturn(s, f, time);
    if r.stack != s.stack && Pointing(s.stack[|s.stack| - 1]) {
      var path := s.stack[|s.stack| - 1].keyword.value.Path();
      forall i | 0 <= i < |r.stack| && Pointing(r.stack[i]) && r.stack[i].keyword.value.owner != []
        ensures Live(r.roots, r.stack[i].keyword.value)
      {
        var p := r.stack[i].keyword.value;
        OwnerValid(s.roots, p.owner, p.index);
        EditKeeps(s.roots, path, Finish(time), p.Path());
        EditKeeps(s.roots, path, Finish(time), p.owner);
      }
    }
  }

  lemma {:induction false} SteadyRun(s: State, events: seq<Event>, directory: string)
    requires Steady(s)
    ensures Steady(Run(s, events, directory))
    decreases events
  {
    if events != [] {
      match events[0] {
        case Called(f, time) => NestedAfterCall(s, f, time, directory);
        case Returned(f, time) => NestedAfterReturn(s, f, time);
      }
      SteadyRun(Step(s, events[0], directory), events[1..], directory);
    }
  }

  // ----- one event -----

  lemma RootLive(ks: seq<Keyword>, p: Pointer)
    requires p.owner == [] && ValidPath(ks, p.Path())
    ensures Live(ks, p) <==> p.buffer == Buffer(|ks|)
  {
    OwnerValid(ks, p.owner, p.index);
  }

  lemma TopLive(s: State)
    requires Steady(s) && s.stack != [] && Pointing(s.stack[|s.stack| - 1])
    ensures Live(s.roots, s.stack[|s.stack| - 1].keyword.value) <==> Usable(UseOn(s.stack), |s.roots|)
  {
    var p := s.stack[|s.stack| - 1].keyword.value;
    if p.owner == [] {
      RootLive(s.roots, p);
    }
  }

  /** A recorded call uses the pointer of its recorded caller. */
  lemma CallUses(s: State, f: Activation, time: string, directory: string)
    requires Steady(s) && !Filtered(f)
    ensures var s1, caller := OnCall(s, f, time, directory), CallerOn(s.stack);
      && (s1.fault <==> s.fault || (CallerInside(f, caller, directory).Kept? && !Usable(UseOn(s.stack), |s.roots|)))
      && CallerOn(s1.stack) == CallerInside(f, caller, directory)
      && UseOn(s1.stack) == UseInside(f, caller, |s.roots|, directory)
      && |s1.roots| == |s.roots| + RootsAdded(f, caller, directory)
  {
    CallIsSound(s, f, time, directory);
    RootsAfterCall(s, f, time, directory);
    if s.stack != [] && Pointing(s.stack[|s.stack| - 1]) {
      TopLive(s);
    }
  }

  /** A return uses the pointer of the call that returns. */
  lemma ReturnUses(s: State, f: Activation, time: string)
    requires Steady(s) && !Filtered(f) && s.stack != []
    ensures OnReturn(s, f, time).fault <==> s.fault || !Usable(UseOn(s.stack), |s.roots|)
  {
    if Pointing(s.stack[|s.stack| - 1]) {
      TopLive(s);
    }
  }

  lemma ReturnKeepsFault(s: State, f: Activation, time: string)
    requires Valid(s) && s.fault
    ensures OnReturn(s, f, time).fault
  {
  }

  // ----- complete calls -----

  lemma FilteredCall(s: State, calls: Calls, directory: string)
    requires Valid(s) && calls.Then? && Filtered(calls.f)
    ensures OnCall(s, calls.f, calls.started, directory) == s
    ensures var s2 := Run(s, Trace(calls.inner), directory); OnReturn(s2, calls.f, calls.finished) == s2
  {
  }

  lemma CallsFitStep(calls: Calls, caller: Caller, use: Use, n: nat, directory: string)
    requires calls.Then?
    ensures CallsFit(calls, caller, use, n, directory)
       <==> (&& HereFits(calls, caller, use, n, directory)
             && CallsFit(calls.rest, caller, use, n + |Here(calls, caller, directory).roots|, directory))
  {
  }

  lemma DoneUses(s: State, calls: Calls, caller: Caller, use: Use, n: nat, directory: string)
    requires Valid(s) && calls.Done?
    ensures Run(s, Trace(calls), directory) == s && CallsFit(calls, caller, use, n, directory)
  {
  }

  /** A complete run follows a stale pointer exactly when some use in it is not good. */
  lemma {:induction false} CallsFault(s: State, calls: Calls, directory: string)
    requires Steady(s) && !s.fault
    ensures Valid(s)
    ensures Run(s, Trace(calls), directory).fault
       <==> !CallsFit(calls, CallerOn(s.stack), UseOn(s.stack), |s.roots|, directory)
    decreases calls, 1
  {
    hide *;
    SteadyIsSound(s);
    var caller, use, n := CallerOn(s.stack), UseOn(s.stack), |s.roots|;
    if calls.Done? {
      DoneUses(s, calls, caller, use, n, directory);
      return;
    }
    CallsFitStep(calls, caller, use, n, directory);
    HereFault(s, calls, directory);
    RunThen(s, calls, directory);
    RootsOf(s, calls, directory);
    var s1 := OnCall(s, calls.f, calls.started, directory);
    var s2 := Run(s1, Trace(calls.inner), directory);
    var s3 := OnReturn(s2, calls.f, calls.finished);
    if s3.fault {
      SoundIsValid(s3);
      FaultSticks(s3, Trace(calls.rest), directory);
      return;
    }
    NestedAfterCall(s, calls.f, calls.started, directory);
    SteadyRun(s1, Trace(calls.inner), directory);
    NestedAfterReturn(s2, calls.f, calls.finished);
    CallsFault(s3, calls.rest, directory);
  }

  lemma {:induction false} HereFault(s: State, calls: Calls, directory: string)
    requires Steady(s) && !s.fault && calls.Then?
    ensures Valid(s)
    ensures var s2 := Run(OnCall(s, calls.f, calls.started, directory), Trace(calls.inner), directory);
      OnReturn(s2, calls.f, calls.finished).fault
      <==> !HereFits(calls, CallerOn(s.stack), UseOn(s.stack), |s.roots|, directory)
    decreases calls, 0
  {
    SteadyIsSound(s);
    if Filtered(calls.f) {
      FilteredCall(s, calls, directory);
      CallsFault(s, calls.inner, directory);
    } else {
      RecordedHereFault(s, calls, directory);
    }
  }

  lemma StackInside(s: State, calls: Calls, directory: string)
    requires Sound(s) && calls.Then? && !Filtered(calls.f)
    ensures var s1 := OnCall(s, calls.f, calls.started, directory);
      var s2 := Run(s1, Trace(calls.inner), directory);
      && Sound(s1) && Sound(s2) && s2.stack == s1.stack && s1.stack != []
  {
    CallIsSound(s, calls.f, calls.started, directory);
    RunKeepsStack(OnCall(s, calls.f, calls.started, directory), calls.inner, directory);
  }

  lemma HereFitsStep(calls: Calls, caller: Caller, use: Use, n: nat, directory: string)
    requires calls.Then? && !Filtered(calls.f)
    ensures var next, own := CallerInside(calls.f, caller, directory), UseInside(calls.f, caller, n, directory);
      HereFits(calls, caller, use, n, directory)
      <==> (&& (next.Kept? ==> Usable(use, n))
            && CallsFit(calls.inner, next, own, n + RootsAdded(calls.f, caller, directory), directory)
            && Usable(own, n + |Here(calls, caller, directory).roots|))
  {
  }

  lemma {:induction false} RecordedHereFault(s: State, calls: Calls, directory: string)
    requires Steady(s) && !s.fault && calls.Then? && !Filtered(calls.f)
    ensures Valid(s)
    ensures var s2 := Run(OnCall(s, calls.f, calls.started, directory), Trace(calls.inner), directory);
      OnReturn(s2, calls.f, calls.finished).fault
      <==> !HereFits(calls, CallerOn(s.stack), UseOn(s.stack), |s.roots|, directory)
    decreases calls, 0, 0
  {
    hide *;
    SteadyIsSound(s);
    var s1 := OnCall(s, calls.f, calls.started, directory);
    var s2 := Run(s1, Trace(calls.inner), directory);
    CallUses(s, calls.f, calls.started, directory);
    HereFitsStep(calls, CallerOn(s.stack), UseOn(s.stack), |s.roots|, directory);
    NestedAfterCall(s, calls.f, calls.started, directory);
    SteadyRun(s1, Trace(calls.inner), directory);
    StackInside(s, calls, directory);
    RootsOf(s, calls, directory);
    SoundIsValid(s1);
    SoundIsValid(s2);
    if s1.fault {
      FaultSticks(s1, Trace(calls.inner), directory);
      ReturnKeepsFault(s2, calls.f, calls.finished);
      return;
    }
    CallsFault(s1, calls.inner, directory);
    ReturnUses(s2, calls.f, calls.finished);
  }

  /** Over the calls of a whole test, each of which returns, the uses are good exactly when no outermost
      call outgrows the buffer of its own keyword. */
  lemma WholeTestFits(calls: Calls, directory: string)
    ensures CallsFit(calls, NoCaller, Free, 0, directory) <==> FitsInRoom(calls, 0, directory)
  {
    hide *;
    var s := State(false, [], [], false);
    SteadyAtStart(s);
    CallsFault(TestStarted(s), calls, directory);
    TestRecordsForest(s, calls, directory);
  }

  lemma RootsOfRun(s: State, calls: Calls, directory: string)
    requires Sound(s)
    ensures var r := Run(s, Trace(calls), directory);
      && Sound(r) && r.stack == s.stack
      && |r.roots| == |s.roots| + |Forest(calls, CallerOn(s.stack), directory).roots|
  {
    RunRecordsForest(s, calls, directory);
    GrowKeeps(s.roots, Target(s.stack), Forest(calls, CallerOn(s.stack), directory), []);
  }
}
