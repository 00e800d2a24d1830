/** When the raw pointers of the keyword recorder stay good: no stack entry points into an array
    that is about to grow, unless a dropped library frame calls back into recorded code. */
module KeywordPointers {
  import opened Options
  import opened Keywords
  import opened DynArray
  import opened KeywordStatus
  import opened KeywordForest

  predicate Pointing(e: Entry) {
    e.keyword.Some?
  }

  /** The stack is a chain of root-to-node paths: each recorded entry sits in the array of the
      entry below it, or among the roots, and no entry lies inside the keyword of a later one. */
  ghost predicate Chain(s: State) {
    && Sound(s)
    && (forall i | 0 <= i < |s.stack| && Pointing(s.stack[i]) ::
          s.stack[i].keyword.value.owner == Target(s.stack[..i]))
    && (forall i, j | 0 <= i < j < |s.stack| && Pointing(s.stack[i]) && Pointing(s.stack[j]) ::
          !(s.stack[j].keyword.value.Path() <= s.stack[i].keyword.value.Path()))
  }

  lemma ChainAtStart(s: State)
    ensures Chain(TestStarted(s))
  {
  }

  lemma EmptyStackChain(s: State)
    requires Sound(s) && s.stack == []
    ensures Chain(s) && Valid(s)
  {
  }

  lemma SoundAfterReturn(s: State, f: Activation, time: string)
    requires Sound(s)
    ensures Sound(OnReturn(s, f, time))
  {
  }

  lemma {:induction false} ChainAfterReturn(s: State, f: Activation, time: string)
    requires Chain(s)
    ensures Chain(OnReturn(s, f, time))
  {
    var r := OnReturn(s, f, time);
    SoundAfterReturn(s, f, time);
    assert r.stack == s.stack || r.stack == s.stack[..|s.stack| - 1];
    hide OnReturn, Sound;
    if r.stack != s.stack {
      forall i | 0 <= i < |r.stack| ensures r.stack[..i] == s.stack[..i] {
      }
    }
  }

  /** A pointer to a new last element of the target array extends the chain. */
  lemma {:induction false} PushKeepsChain(s: State, r: State, p: Pointer, library: bool)
    requires Chain(s) && Sound(r) && r.stack == s.stack + [Entry(Some(p), false, library)]
    requires p.owner == Target(s.stack) && ValidPath(s.roots, p.owner)
    requires p.index == |Children(s.roots, p.owner)|
    ensures Chain(r)
  {
    var n := |s.stack|;
    assert forall i | 0 <= i <= n :: r.stack[..i] == s.stack[..i];
    assert s.stack[..n] == s.stack;
    forall i | 0 <= i < n && Pointing(r.stack[i])
      ensures !(p.Path() <= r.stack[i].keyword.value.Path())
    {
      var q := s.stack[i].keyword.value.Path();
      if p.Path() <= q {
        PrefixValid(s.roots, p.Path(), q);
        OwnerValid(s.roots, p.owner, p.index);
        assert false;
      }
    }
  }

  lemma DropKeepsChain(s: State, r: State)
    requires Chain(s) && Sound(r) && r.roots == s.roots && r.stack == s.stack + [Entry(None, true, true)]
    ensures Chain(r)
  {
    assert forall i | 0 <= i <= |s.stack| :: r.stack[..i] == s.stack[..i];
  }

  lemma {:induction false} ChainAfterCall(s: State, f: Activation, time: string, directory: string)
    requires Chain(s)
    ensures Chain(OnCall(s, f, time, directory))
  {
    if !Filtered(f) {
      var r := OnCall(s, f, time, directory);
      CallIsSound(s, f, time, directory);
      var library := InLibrary(f.source, directory);
      if Drops(s.stack, library) {
        DropKeepsChain(s, r);
      } else {
        PushKeepsChain(s, r, r.stack[|s.stack|].keyword.value, library);
      }
    }
  }

  lemma {:induction false} ChainAfterStep(s: State, e: Event, directory: string)
    requires Chain(s)
    ensures Chain(Step(s, e, directory))
  {
    match e
    case Called(f, time) => ChainAfterCall(s, f, time, directory);
    case Returned(f, time) => ChainAfterReturn(s, f, time);
  }

  /** Some stack entry points into the array owned by `owner`. */
  ghost predicate PointedInto(s: State, owner: seq<nat>) {
    exists i :: 0 <= i < |s.stack| && Pointing(s.stack[i]) && s.stack[i].keyword.value.owner == owner
  }

  /** A call is about to append to an array that a stack entry points into exactly when its caller
      is a dropped frame. */
  lemma AppendsUnderPointer(s: State)
    requires Chain(s)
    ensures PointedInto(s, Target(s.stack)) <==> CallerOn(s.stack) == Dropped
  {
    var owner := Target(s.stack);
    if CallerOn(s.stack) == Dropped {
      assert Pointing(s.stack[0]) && s.stack[..0] == [];
    } else if s.stack != [] {
      var top := |s.stack| - 1;
      forall i | 0 <= i < |s.stack| && Pointing(s.stack[i])
        ensures s.stack[i].keyword.value.owner != owner
      {
        var p := s.stack[i].keyword.value;
        assert p.owner == owner ==> owner <= p.Path() && |p.Path()| == |owner| + 1;
      }
    }
  }

  ghost predicate AllLive(s: State)
    requires PointersValid(s)
  {
    forall i | 0 <= i < |s.stack| && Pointing(s.stack[i]) :: Live(s.roots, s.stack[i].keyword.value)
  }

  /** Appending to an array leaves the pointers into every other array good, and the pointers into
      that array good exactly when it had room. */
  lemma AppendLive(s: State, owner: seq<nat>, x: Keyword, p: Pointer)
    requires ValidPath(s.roots, owner) && ValidPath(s.roots, p.Path())
    requires Live(s.roots, p)
    ensures ValidPath(AppendTo(s.roots, owner, [x]), p.Path())
    ensures Live(AppendTo(s.roots, owner, [x]), p)
        <==> (p.owner == owner ==> |Children(s.roots, owner)| < Buffer(|Children(s.roots, owner)|))
  {
    OwnerValid(s.roots, p.owner, p.index);
    AppendKeeps(s.roots, owner, [x], p.Path());
    AppendKeeps(s.roots, owner, [x], p.owner);
    GrownStep(ROOM, |Children(s.roots, p.owner)|);
  }

  /** The one way a pointer is lost: a dropped frame calls recorded code while the roots are full. */
  lemma CallLosesPointer(s: State, f: Activation, time: string, directory: string)
    requires Chain(s) && AllLive(s) && !Filtered(f) && !Drops(s.stack, InLibrary(f.source, directory))
    ensures var r := OnCall(s, f, time, directory);
      && r.fault == s.fault
      && (AllLive(r) <==> !(CallerOn(s.stack) == Dropped && |s.roots| == Buffer(|s.roots|)))
  {
    var r := OnCall(s, f, time, directory);
    var owner := Target(s.stack);
    var n := |s.stack|;
    var x := NewKeyword(f, time);
    AppendsUnderPointer(s);
    forall i | 0 <= i < n && Pointing(s.stack[i])
      ensures Live(r.roots, r.stack[i].keyword.value)
          <==> (s.stack[i].keyword.value.owner == owner
                ==> |Children(s.roots, owner)| < Buffer(|Children(s.roots, owner)|))
    {
      AppendLive(s, owner, x, s.stack[i].keyword.value);
    }
    assert Live(r.roots, r.stack[n].keyword.value) by {
      AppendKeeps(s.roots, owner, [x], owner);
    }
    if CallerOn(s.stack) == Dropped {
      assert r.stack[0] == s.stack[0] && Pointing(s.stack[0]) && s.stack[..0] == [];
    } else {
      assert forall i | 0 <= i < n && Pointing(s.stack[i]) :: s.stack[i].keyword.value.owner != owner;
    }
  }

  lemma ReturnKeepsLive(s: State, f: Activation, time: string)
    requires Sound(s) && AllLive(s)
    ensures var r := OnReturn(s, f, time); r.fault == s.fault && AllLive(r)
  {
    var r := OnReturn(s, f, time);
    if r.stack != s.stack && Pointing(s.stack[|s.stack| - 1]) {
      var path := s.stack[|s.stack| - 1].keyword.value.Path();
      forall i | 0 <= i < |r.stack| && Pointing(r.stack[i])
        ensures Live(r.roots, r.stack[i].keyword.value)
      {
        var p := r.stack[i].keyword.value;
        OwnerValid(s.roots, p.owner, p.index);
        EditKeeps(s.roots, path, Finish(time), p.Path());
        EditKeeps(s.roots, path, Finish(time), p.owner);
      }
    }
  }

  /** Every dropped frame of the run calls library code only. */
  ghost predicate Guarded(s: State, events: seq<Event>, directory: string)
    requires Valid(s)
    decreases events
  {
    events == [] ||
    (&& (events[0].Called? && !Filtered(events[0].f) && CallerOn(s.stack) == Dropped
         ==> InLibrary(events[0].f.source, directory))
     && Guarded(Step(s, events[0], directory), events[1..], directory))
  }

  /** Over any events at all, balanced or not: while dropped frames call only library code no array
      ever grows under a pointer, and no stale pointer is followed. */
  lemma {:induction false} GuardedRunIsSafe(s: State, events: seq<Event>, directory: string)
    requires Chain(s) && AllLive(s) && Guarded(s, events, directory)
    ensures var r := Run(s, events, directory); Chain(r) && AllLive(r) && r.fault == s.fault
    decreases events
  {
    if events != [] {
      ChainAfterStep(s, events[0], directory);
      match events[0] {
        case Called(f, time) =>
          if !Filtered(f) && !Drops(s.stack, InLibrary(f.source, directory)) {
            CallLosesPointer(s, f, time, directory);
          }
        case Returned(f, time) => ReturnKeepsLive(s, f, time);
      }
      GuardedRunIsSafe(Step(s, events[0], directory), events[1..], directory);
    }
  }

  /** A test, over any events, balanced or not: from its start on no stale pointer is followed while
      dropped frames call only library code. */
  lemma GuardedTestIsSafe(s: State, events: seq<Event>, directory: string)
    requires Guarded(TestStarted(s), events, directory)
    ensures var r := Run(TestStarted(s), events, directory); Chain(r) && AllLive(r) && r.fault == s.fault
  {
    ChainAtStart(s);
    GuardedRunIsSafe(TestStarted(s), events, directory);
  }

  lemma {:induction false} FaultSticks(s: State, events: seq<Event>, directory: string)
    requires Valid(s) && s.fault
    ensures Run(s, events, directory).fault
    decreases events
  {
    if events != [] {
      FaultSticks(Step(s, events[0], directory), events[1..], directory);
    }
  }

  lemma BuffersBetween(a: nat, b: nat, c: nat, d: nat)
    requires a <= b <= c <= d && Buffer(a) == Buffer(d)
    ensures Buffer(a) == Buffer(b) == Buffer(c) == Buffer(d)
  {
    GrownMonotone(ROOM, a, b);
    GrownMonotone(ROOM, b, c);
    GrownMonotone(ROOM, c, d);
  }

  /** A call adds a root when it is recorded and has no recorded caller. */
  predicate AddsRoot(f: Activation, caller: Caller, directory: string) {
    !Filtered(f) && !IsDropped(caller, InLibrary(f.source, directory)) && !caller.Kept?
  }

  lemma RootsAfterCall(s: State, f: Activation, time: string, directory: string)
    requires Sound(s)
    ensures Sound(OnCall(s, f, time, directory))
    ensures |OnCall(s, f, time, directory).roots|
         == |s.roots| + if AddsRoot(f, CallerOn(s.stack), directory) then 1 else 0
  {
    if !Filtered(f) {
      CallIsSound(s, f, time, directory);
      AppendKeeps(s.roots, Target(s.stack), [NewKeyword(f, time)], []);
    }
  }

  lemma RootsHere(s: State, calls: Calls, directory: string)
    requires Sound(s) && calls.Then?
    ensures var s1 := OnCall(s, calls.f, calls.started, directory);
      |Here(calls, CallerOn(s.stack), directory).roots|
      == (if AddsRoot(calls.f, CallerOn(s.stack), directory) then 1 else 0)
         + |Forest(calls.inner, CallerOn(s1.stack), directory).roots|
  {
    if !Filtered(calls.f) {
      CallIsSound(s, calls.f, calls.started, directory);
    }
  }

  lemma RootsAfterReturn(s: State, f: Activation, time: string)
    requires Sound(s)
    ensures Sound(OnReturn(s, f, time)) && |OnReturn(s, f, time).roots| == |s.roots|
  {
  }

  lemma StackAfterReturn(s: State, f: Activation, started: string, s2: State, finished: string, directory: string)
    requires Sound(s) && Sound(s2) && s2.stack == OnCall(s, f, started, directory).stack
    ensures OnReturn(s2, f, finished).stack == s.stack
  {
  }

  /** How many roots there are at each point of the run of a call. */
  lemma {:induction false} RootsOf(s: State, calls: Calls, directory: string)
    requires Sound(s) && calls.Then?
    ensures var s1 := OnCall(s, calls.f, calls.started, directory);
      var s2 := Run(s1, Trace(calls.inner), directory);
      var s3 := OnReturn(s2, calls.f, calls.finished);
      && Sound(s1) && Sound(s2) && Sound(s3) && s3.stack == s.stack
      && |s2.roots| == |s1.roots| + |Forest(calls.inner, CallerOn(s1.stack), directory).roots|
      && |s3.roots| == |s2.roots|
      && |s2.roots| == |s.roots| + |Here(calls, CallerOn(s.stack), directory).roots|
      && |s.roots| <= |s1.roots| <= |s2.roots|
  {
    var Then(f, started, finished, inner, rest) := calls;
    var s1 := OnCall(s, f, started, directory);
    var s2 := Run(s1, Trace(inner), directory);
    RootsAfterCall(s, f, started, directory);
    RootsHere(s, calls, directory);
    RunRecordsForest(s1, inner, directory);
    RootsAfterReturn(s2, f, finished);
    StackAfterReturn(s, f, started, s2, finished, directory);
    hide OnCall, OnReturn, Run, Trace, Here, Forest;
    GrowKeeps(s1.roots, Target(s1.stack), Forest(inner, CallerOn(s1.stack), directory), []);
  }

  /** A call made while the roots' array stays put loses no pointer. */
  lemma {:induction false} CallWithinRoom(s: State, f: Activation, time: string, directory: string)
    requires Chain(s) && AllLive(s)
    requires var s1 := OnCall(s, f, time, directory); Buffer(|s1.roots|) == Buffer(|s.roots|)
    ensures var s1 := OnCall(s, f, time, directory); Chain(s1) && AllLive(s1) && s1.fault == s.fault
  {
    ChainAfterCall(s, f, time, directory);
    if !Filtered(f) && !Drops(s.stack, InLibrary(f.source, directory)) {
      CallLosesPointer(s, f, time, directory);
      GrownMonotone(ROOM, |s.roots|, |s.roots| + 1);
      AppendKeeps(s.roots, Target(s.stack), [NewKeyword(f, time)], []);
    }
  }

  /** The roots a run adds fit in the buffer the roots are in. */
  ghost predicate HasRoom(s: State, calls: Calls, directory: string) {
    Buffer(|s.roots| + |Forest(calls, CallerOn(s.stack), directory).roots|) == Buffer(|s.roots|)
  }

  /** Room for all the roots of a run is room for the roots of each part of it. */
  lemma RoomSplits(s: State, calls: Calls, directory: string)
    requires Sound(s) && calls.Then? && HasRoom(s, calls, directory)
    ensures var s1 := OnCall(s, calls.f, calls.started, directory);
      var s3 := OnReturn(Run(s1, Trace(calls.inner), directory), calls.f, calls.finished);
      && Sound(s1) && Sound(s3)
      && Buffer(|s1.roots|) == Buffer(|s.roots|)
      && HasRoom(s1, calls.inner, directory)
      && HasRoom(s3, calls.rest, directory)
  {
    hide OnCall, OnReturn, Here, Run, Trace, Buffer, CallerOn, PointersValid, Filtered;
    RootsOf(s, calls, directory);
    var s1 := OnCall(s, calls.f, calls.started, directory);
    var s2 := Run(s1, Trace(calls.inner), directory);
    BuffersBetween(|s.roots|, |s1.roots|, |s2.roots|,
                   |s.roots| + |Forest(calls, CallerOn(s.stack), directory).roots|);
  }

  /** A well-nested run that adds so few roots that their array stays put follows no stale pointer. */
  lemma {:induction false} RunWithinRoom(s: State, calls: Calls, directory: string)
    requires Chain(s) && AllLive(s) && HasRoom(s, calls, directory)
    ensures var r := Run(s, Trace(calls), directory); Chain(r) && AllLive(r) && r.fault == s.fault
    decreases calls, 1
  {
    if calls.Then? {
      hide HasRoom, OnCall, OnReturn;
      var s1 := OnCall(s, calls.f, calls.started, directory);
      RoomSplits(s, calls, directory);
      CallWithinRoom(s, calls.f, calls.started, directory);
      RunWithinRoom(s1, calls.inner, directory);
      RestWithinRoom(s, Run(s1, Trace(calls.inner), directory), calls, directory);
    }
  }

  lemma {:induction false} RestWithinRoom(s: State, s2: State, calls: Calls, directory: string)
    requires Chain(s2) && AllLive(s2) && Valid(s) && calls.Then?
    requires s2 == Run(OnCall(s, calls.f, calls.started, directory), Trace(calls.inner), directory)
    requires HasRoom(OnReturn(s2, calls.f, calls.finished), calls.rest, directory)
    ensures var r := Run(s, Trace(calls), directory); Chain(r) && AllLive(r) && r.fault == s2.fault
    decreases calls, 0
  {
    RunThen(s, calls, directory);
    ReturnKeepsLive(s2, calls.f, calls.finished);
    ChainAfterReturn(s2, calls.f, calls.finished);
    RunWithinRoom(OnReturn(s2, calls.f, calls.finished), calls.rest, directory);
  }

  /** The roots recorded during every outermost call fit in the buffer that call's own keyword is
      in, when `n` roots are there before the run. */
  predicate FitsInRoom(calls: Calls, n: nat, directory: string)
    decreases calls, 1
  {
    calls.Done? ||
    (FirstFits(calls, n, directory) &&
     FitsInRoom(calls.rest, n + |Here(calls, NoCaller, directory).roots|, directory))
  }

  predicate FirstFits(calls: Calls, n: nat, directory: string)
    requires calls.Then?
    decreases calls, 0
  {
    if Filtered(calls.f) then FitsInRoom(calls.inner, n, directory)
    else Buffer(n + |Here(calls, NoCaller, directory).roots|) == Buffer(n + 1)
  }

  lemma FitsStep(calls: Calls, n: nat, directory: string)
    requires calls.Then?
    ensures FitsInRoom(calls, n, directory) <==>
      FirstFits(calls, n, directory) &&
      FitsInRoom(calls.rest, n + |Here(calls, NoCaller, directory).roots|, directory)
  {
  }

  /** Returning to an empty stack follows the one pointer there was. */
  lemma OutermostReturn(s: State, p: Pointer, library: bool, f: Activation, time: string)
    requires Sound(s) && s.stack == [Entry(Some(p), false, library)] && p.owner == [] && !Filtered(f)
    ensures OnReturn(s, f, time).fault <==> s.fault || p.buffer != Buffer(|s.roots|)
  {
    OwnerValid(s.roots, p.owner, p.index);
  }

  /** While the roots' array stays put nothing goes wrong inside a call. */
  lemma InsideWithinRoom(s: State, calls: Calls, directory: string)
    requires Chain(s) && AllLive(s) && calls.Then? && !Filtered(calls.f)
    requires CallerOn(s.stack) != Dropped
    requires HasRoom(OnCall(s, calls.f, calls.started, directory), calls.inner, directory)
    ensures Run(OnCall(s, calls.f, calls.started, directory), Trace(calls.inner), directory).fault == s.fault
  {
    hide HasRoom;
    var s1 := OnCall(s, calls.f, calls.started, directory);
    ChainAfterCall(s, calls.f, calls.started, directory);
    if !Drops(s.stack, InLibrary(calls.f.source, directory)) {
      CallLosesPointer(s, calls.f, calls.started, directory);
    }
    RunWithinRoom(s1, calls.inner, directory);
  }

  lemma OutermostCall(s: State, f: Activation, started: string, directory: string)
    requires Sound(s) && s.stack == [] && !Filtered(f)
    ensures var s1 := OnCall(s, f, started, directory);
      && Sound(s1) && |s1.roots| == |s.roots| + 1 && CallerOn(s.stack) == NoCaller
      && s1.stack == [Entry(Some(Pointer([], |s.roots|, Buffer(|s.roots| + 1))), false,
                            InLibrary(f.source, directory))]
  {
  }

  /** The stack and the roots just before an outermost recorded call returns. */
  lemma BeforeOutermostReturn(s: State, calls: Calls, directory: string)
    requires Sound(s) && s.stack == [] && calls.Then? && !Filtered(calls.f)
    ensures var s1 := OnCall(s, calls.f, calls.started, directory);
      var s2 := Run(s1, Trace(calls.inner), directory);
      var roots := |s.roots| + |Here(calls, NoCaller, directory).roots|;
      && Sound(s2) && |s2.roots| == roots
      && s2.stack == [Entry(Some(Pointer([], |s.roots|, Buffer(|s.roots| + 1))), false,
                            InLibrary(calls.f.source, directory))]
      && (HasRoom(s1, calls.inner, directory) <==> Buffer(roots) == Buffer(|s.roots| + 1))
  {
    hide *;
    SoundIsValid(s);
    var s1 := OnCall(s, calls.f, calls.started, directory);
    OutermostCall(s, calls.f, calls.started, directory);
    RootsOf(s, calls, directory);
    RunKeepsStack(s1, calls.inner, directory);
    RoomFor(s1, calls.inner, directory);
  }

  lemma SoundIsValid(s: State)
    requires Sound(s)
    ensures Valid(s) && s.running
  {
  }

  lemma RunKeepsStack(s: State, calls: Calls, directory: string)
    requires Sound(s)
    ensures Sound(Run(s, Trace(calls), directory)) && Run(s, Trace(calls), directory).stack == s.stack
  {
    RunRecordsForest(s, calls, directory);
  }

  lemma RoomFor(s: State, calls: Calls, directory: string)
    ensures HasRoom(s, calls, directory) <==>
      Buffer(|s.roots| + |Forest(calls, CallerOn(s.stack), directory).roots|) == Buffer(|s.roots|)
  {
  }

  /** An outermost recorded call follows a stale pointer exactly when its own keyword's buffer is
      outgrown before it returns. */
  lemma OutermostCallFault(s: State, calls: Calls, directory: string)
    requires Chain(s) && s.stack == [] && calls.Then? && !Filtered(calls.f) && !s.fault
    ensures var s2 := Run(OnCall(s, calls.f, calls.started, directory), Trace(calls.inner), directory);
      var s3 := OnReturn(s2, calls.f, calls.finished);
      s3.fault <==> Buffer(|s.roots| + |Here(calls, NoCaller, directory).roots|) != Buffer(|s.roots| + 1)
  {
    BeforeOutermostReturn(s, calls, directory);
    var s1 := OnCall(s, calls.f, calls.started, directory);
    if HasRoom(s1, calls.inner, directory) {
      InsideWithinRoom(s, calls, directory);
    }
    OutermostReturn(Run(s1, Trace(calls.inner), directory),
                    Pointer([], |s.roots|, Buffer(|s.roots| + 1)), InLibrary(calls.f.source, directory),
                    calls.f, calls.finished);
  }

  lemma StartsSound(s: State)
    requires Chain(s) && s.stack == []
    ensures Sound(s) && Valid(s) && CallerOn(s.stack) == NoCaller
  {
  }

  lemma DoneFits(s: State, calls: Calls, directory: string)
    requires Valid(s) && calls.Done?
    ensures Run(s, Trace(calls), directory) == s && FitsInRoom(calls, |s.roots|, directory)
  {
  }

  /** Exactly when a well-nested run from an empty stack follows a stale pointer. */
  lemma {:induction false} FaultsExactlyWhenOutgrown(s: State, calls: Calls, directory: string)
    requires Chain(s) && s.stack == [] && !s.fault
    ensures Run(s, Trace(calls), directory).fault <==> !FitsInRoom(calls, |s.roots|, directory)
    decreases calls, 1
  {
    hide *;
    StartsSound(s);
    if calls.Done? {
      DoneFits(s, calls, directory);
      return;
    }
    FitsStep(calls, |s.roots|, directory);
    FirstFaults(s, calls, directory);
    RunThen(s, calls, directory);
    RootsOf(s, calls, directory);
    var s3 := OnReturn(Run(OnCall(s, calls.f, calls.started, directory), Trace(calls.inner), directory),
                       calls.f, calls.finished);
    EmptyStackChain(s3);
    if s3.fault {
      FaultSticks(s3, Trace(calls.rest), directory);
    } else {
      FaultsExactlyWhenOutgrown(s3, calls.rest, directory);
    }
  }

  lemma {:induction false} FirstFaults(s: State, calls: Calls, directory: string)
    requires Chain(s) && s.stack == [] && !s.fault && calls.Then?
    ensures var s2 := Run(OnCall(s, calls.f, calls.started, directory), Trace(calls.inner), directory);
      OnReturn(s2, calls.f, calls.finished).fault <==> !FirstFits(calls, |s.roots|, directory)
    decreases calls, 0
  {
    if Filtered(calls.f) {
      FaultsExactlyWhenOutgrown(s, calls.inner, directory);
    } else {
      OutermostCallFault(s, calls, directory);
    }
  }

  /** A whole test: the recorder ends with an empty stack and the specified forest, every keyword of
      it finished, and followed no stale pointer exactly when no outermost call's keyword was moved
      while the call was still running. */
  lemma TestRecordsForest(s: State, calls: Calls, directory: string)
    ensures var r := Run(TestStarted(s), Trace(calls), directory);
      && r.stack == []
      && r.roots == Forest(calls, NoCaller, directory).roots
      && AllFinished(r.roots)
      && (!s.fault ==> (r.fault <==> !FitsInRoom(calls, 0, directory)))
  {
    var begun := TestStarted(s);
    RunRecordsForest(begun, calls, directory);
    assert [] + Forest(calls, NoCaller, directory).roots == Forest(calls, NoCaller, directory).roots;
    ForestFinished(calls, NoCaller, directory);
    if !s.fault {
      FaultsExactlyWhenOutgrown(begun, calls, directory);
    }
  }

  // ----- a run that does follow a stale pointer -----

  /** k calls, one after the other. */
  function Repeated(f: Activation, k: nat): Calls {
    if k == 0 then Done else Then(f, "", "", Done, Repeated(f, k - 1))
  }

  lemma {:induction false} RepeatedRoots(f: Activation, k: nat, directory: string)
    requires !Filtered(f) && !InLibrary(f.source, directory)
    ensures |Forest(Repeated(f, k), Dropped, directory).roots| == k
  {
    if k > 0 {
      RepeatedRoots(f, k - 1, directory);
      assert |Here(Repeated(f, k), Dropped, directory).roots| == 1;
    }
  }

  /** A library function calls another, which calls back into test code k times: the callbacks
      become roots, and the tenth moves the outer function's own keyword. */
  lemma CallbacksFault(library: Activation, test: Activation, k: nat, directory: string)
    requires !Filtered(library) && InLibrary(library.source, directory)
    requires !Filtered(test) && !InLibrary(test.source, directory)
    ensures var calls := Then(library, "", "", Then(library, "", "", Repeated(test, k), Done), Done);
      Run(TestStarted(State(false, [], [], false)), Trace(calls), directory).fault <==> k >= 10
  {
    var middle := Then(library, "", "", Repeated(test, k), Done);
    var calls := Then(library, "", "", middle, Done);
    TestRecordsForest(State(false, [], [], false), calls, directory);
    RepeatedRoots(test, k, directory);
    assert |Forest(middle, Kept(true), directory).roots| == k;
    assert |Here(calls, NoCaller, directory).roots| == 1 + k;
    GrownMonotone(ROOM, 1, 1 + k);
  }
}
