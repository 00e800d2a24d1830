/** Runs that are cut off inside open calls, as every test is whose body raises: the frames an error
    unwinds get no return event.  The forest is the one of well-nested runs with exactly the open calls
    unfinished, and the stack is exactly those calls. */
module KeywordCutOff {
  import opened DynArray
  import opened Keywords
  import opened KeywordStatus
  import opened KeywordForest
  import opened KeywordFaults
  import opened KeywordPointers

  /** A run: the calls that have returned, and then the end or a call that has not. */
  datatype Cut =
    | Stop(before: Calls)
    | Open(before: Calls, f: Activation, started: string, inside: Cut)

  function CutTrace(cut: Cut): seq<Event> {
    match cut
    case Stop(before) => Trace(before)
    case Open(before, f, started, inside) => Trace(before) + ([Called(f, started)] + CutTrace(inside))
  }

  /** The keywords of the run, as Forest has them, with the recorded open calls unfinished. */
  function CutForest(cut: Cut, caller: Caller, directory: string): (r: Recorded)
    ensures !caller.Kept? ==> r.under == []
    decreases cut, 1
  {
    var before := Forest(cut.before, caller, directory);
    if cut.Stop? then before else before.Join(OpenHere(cut, caller, directory))
  }

  function OpenHere(cut: Cut, caller: Caller, directory: string): (r: Recorded)
    requires cut.Open?
    ensures !caller.Kept? ==> r.under == []
    decreases cut, 0
  {
    var Open(_, f, started, inside) := cut;
    var next := CallerInside(f, caller, directory);
    var r := CutForest(inside, next, directory);
    if Filtered(f) then r
    else if next == Dropped then Recorded([], r.roots)
    else
      var keyword := NewKeyword(f, started).(children := r.under);
      if caller.Kept? then Recorded([keyword], r.roots) else Recorded([], [keyword] + r.roots)
  }

  /** An open call on the stack, recorded or dropped. */
  datatype Frame = Frame(f: Activation, started: string, recorded: bool)

  function OpenFrames(cut: Cut, caller: Caller, directory: string): seq<Frame> {
    if cut.Stop? then []
    else
      var next := CallerInside(cut.f, caller, directory);
      (if Filtered(cut.f) then [] else [Frame(cut.f, cut.started, next.Kept?)])
      + OpenFrames(cut.inside, next, directory)
  }

  // ----- the keyword a pointer leads to -----

  function At(ks: seq<Keyword>, path: seq<nat>): Keyword
    requires path != [] && ValidPath(ks, path)
    decreases path
  {
    if |path| == 1 then ks[path[0]] else At(ks[path[0]].children, path[1..])
  }

  /** Everything about a keyword but what it called. */
  function Heading(k: Keyword): Keyword {
    k.(children := [])
  }

  lemma {:induction false} AdoptKeepsHeading(ks: seq<Keyword>, path: seq<nat>, more: seq<Keyword>, q: seq<nat>)
    requires path != [] && q != [] && ValidPath(ks, path) && ValidPath(ks, q)
    ensures ValidPath(EditAt(ks, path, Adopt(more)), q)
    ensures Heading(At(EditAt(ks, path, Adopt(more)), q)) == Heading(At(ks, q))
    decreases path
  {
    EditKeeps(ks, path, Adopt(more), q);
    if q[0] == path[0] && |q| > 1 {
      var k := ks[path[0]];
      if |path| == 1 {
        assert (k.children + more)[q[1]] == k.children[q[1]];
      } else {
        AdoptKeepsHeading(k.children, path[1..], more, q[1..]);
      }
    }
  }

  lemma RootsKeepHeading(ks: seq<Keyword>, more: seq<Keyword>, q: seq<nat>)
    requires q != [] && ValidPath(ks, q)
    ensures ValidPath(ks + more, q) && Heading(At(ks + more, q)) == Heading(At(ks, q))
  {
    RootAppendKeeps(ks, more, q);
  }

  lemma GrowKeepsHeading(ks: seq<Keyword>, owner: seq<nat>, r: Recorded, q: seq<nat>)
    requires ValidPath(ks, owner) && q != [] && ValidPath(ks, q)
    ensures ValidPath(Grow(ks, owner, r), q) && Heading(At(Grow(ks, owner, r), q)) == Heading(At(ks, q))
  {
    hide ValidPath, At, Heading, EditAt;
    if owner == [] {
      RootsKeepHeading(ks, r.roots, q);
    } else {
      AdoptKeepsHeading(ks, owner, r.under, q);
      RootsKeepHeading(EditAt(ks, owner, Adopt(r.under)), r.roots, q);
    }
  }

  lemma {:induction false} NewestIs(ks: seq<Keyword>, owner: seq<nat>, x: Keyword)
    requires ValidPath(ks, owner)
    ensures var path := owner + [|Children(ks, owner)|];
      ValidPath(AppendTo(ks, owner, [x]), path) && At(AppendTo(ks, owner, [x]), path) == x
    decreases owner
  {
    EditNewest(ks, owner, x, Adopt([]));
    var path := owner + [|Children(ks, owner)|];
    if owner == [] {
      assert path == [|ks|];
    } else {
      assert path[1..] == owner[1..] + [|Children(ks, owner)|];
      NewestIs(ks[owner[0]].children, owner[1..], x);
    }
  }

  // ----- the stack -----

  /** The entry belongs to the frame: ignored exactly when it is not recorded, and otherwise pointing to
      the frame's keyword, which is unfinished. */
  ghost predicate EntryFor(roots: seq<Keyword>, e: Entry, frame: Frame, directory: string) {
    && !Filtered(frame.f)
    && e.library == InLibrary(frame.f.source, directory)
    && e.ignored == !frame.recorded
    && (e.keyword.Some? <==> frame.recorded)
    && (e.keyword.Some? ==>
          var path := e.keyword.value.Path();
          ValidPath(roots, path) && Heading(At(roots, path)) == NewKeyword(frame.f, frame.started))
  }

  /** Above the first n entries the stack is exactly these frames. */
  ghost predicate Stacks(s: State, n: nat, frames: seq<Frame>, directory: string) {
    |s.stack| == n + |frames| &&
    forall i | 0 <= i < |frames| :: EntryFor(s.roots, s.stack[n + i], frames[i], directory)
  }

  /** What a run from s to s' that is cut off has recorded, and where it has got to. */
  ghost predicate CutsOff(s: State, s': State, r: Recorded, frames: seq<Frame>, directory: string)
    requires Sound(s)
  {
    && Sound(s')
    && s'.roots == Grow(s.roots, Target(s.stack), r)
    && |s.stack| <= |s'.stack| && s'.stack[..|s.stack|] == s.stack
    && Stacks(s', |s.stack|, frames, directory)
  }

  lemma CallRuns(s: State, f: Activation, started: string, rest: seq<Event>, directory: string)
    requires Valid(s)
    ensures Run(s, [Called(f, started)] + rest, directory) == Run(OnCall(s, f, started, directory), rest, directory)
  {
    assert ([Called(f, started)] + rest)[1..] == rest;
  }

  lemma OpenedInDropped(s: State, s': State, cut: Cut, r: Recorded, frames: seq<Frame>, directory: string)
    requires Sound(s) && cut.Open? && !Filtered(cut.f)
    requires IsDropped(CallerOn(s.stack), InLibrary(cut.f.source, directory))
    requires var s1 := OnCall(s, cut.f, cut.started, directory); Sound(s1) && CutsOff(s1, s', r, frames, directory)
    ensures CutsOff(s, s', Recorded([], r.roots), [Frame(cut.f, cut.started, false)] + frames, directory)
  {
    assert Drops(s.stack, InLibrary(cut.f.source, directory));
    GrowInsideDropped(s.roots, Target(s.stack), r);
    var s1, n := OnCall(s, cut.f, cut.started, directory), |s.stack|;
    StackGrown(s, s1, s');
    FramesPushed(s', n, Frame(cut.f, cut.started, false), frames, directory);
  }

  /** Opening a keyword and growing the forest inside it adds the open keyword. */
  lemma OpenGrow(ks: seq<Keyword>, owner: seq<nat>, x: Keyword, r: Recorded)
    requires ValidPath(ks, owner)
    ensures var path := owner + [|Children(ks, owner)|];
      var y, extended := x.(children := x.children + r.under), AppendTo(ks, owner, [x]);
      && ValidPath(extended, path)
      && Grow(extended, path, r)
         == Grow(ks, owner, if owner == [] then Recorded([], [y] + r.roots) else Recorded([y], r.roots))
  {
    EditNewest(ks, owner, x, Adopt(r.under));
    var y := Adopt(r.under).Apply(x);
    if owner == [] {
      assert ks + [y] + r.roots == ks + ([y] + r.roots);
    }
  }

  lemma StackGrown(s: State, s1: State, s': State)
    requires |s1.stack| == |s.stack| + 1 && s1.stack[..|s.stack|] == s.stack
    requires |s1.stack| <= |s'.stack| && s'.stack[..|s1.stack|] == s1.stack
    ensures s'.stack[..|s.stack|] == s.stack && s'.stack[|s.stack|] == s1.stack[|s.stack|]
  {
    var n := |s.stack|;
    assert s'.stack[..n + 1][..n] == s'.stack[..n];
    assert s'.stack[..n + 1][n] == s'.stack[n];
  }

  lemma FramesPushed(s': State, n: nat, frame: Frame, frames: seq<Frame>, directory: string)
    requires n < |s'.stack| && EntryFor(s'.roots, s'.stack[n], frame, directory)
    requires Stacks(s', n + 1, frames, directory)
    ensures Stacks(s', n, [frame] + frames, directory)
  {
    hide EntryFor;
    var all := [frame] + frames;
    forall i | 0 <= i < |all| ensures EntryFor(s'.roots, s'.stack[n + i], all[i], directory) {
      if i > 0 {
        assert all[i] == frames[i - 1] && s'.stack[n + i] == s'.stack[n + 1 + (i - 1)];
      }
    }
  }

  lemma OpenedAndKept(s: State, s': State, cut: Cut, r: Recorded, frames: seq<Frame>, directory: string)
    requires Sound(s) && cut.Open? && !Filtered(cut.f)
    requires !IsDropped(CallerOn(s.stack), InLibrary(cut.f.source, directory))
    requires var s1 := OnCall(s, cut.f, cut.started, directory); Sound(s1) && CutsOff(s1, s', r, frames, directory)
    ensures var y := NewKeyword(cut.f, cut.started).(children := r.under);
      CutsOff(s, s', if CallerOn(s.stack).Kept? then Recorded([y], r.roots) else Recorded([], [y] + r.roots),
              [Frame(cut.f, cut.started, true)] + frames, directory)
  {
    assert !Drops(s.stack, InLibrary(cut.f.source, directory));
    var s1, n, x := OnCall(s, cut.f, cut.started, directory), |s.stack|, NewKeyword(cut.f, cut.started);
    var owner := Target(s.stack);
    OpenGrow(s.roots, owner, x, r);
    assert x.children + r.under == r.under;
    NewestIs(s.roots, owner, x);
    var path := owner + [|Children(s.roots, owner)|];
    assert s1.stack[n].keyword.value.Path() == path;
    GrowKeepsHeading(s1.roots, path, r, path);
    StackGrown(s, s1, s');
    FramesPushed(s', n, Frame(cut.f, cut.started, true), frames, directory);
  }

  lemma CutsOffAfter(s: State, s0: State, s': State, a: Recorded, b: Recorded, frames: seq<Frame>, directory: string)
    requires Sound(s) && Records(s, s0, a) && CutsOff(s0, s', b, frames, directory)
    requires Target(s.stack) == [] ==> a.under == []
    ensures CutsOff(s, s', a.Join(b), frames, directory)
  {
    GrowTwice(s.roots, Target(s.stack), a, b);
  }

  /** A run that is cut off, from any state the hooks can reach, adds exactly the specified keywords and
      leaves exactly its open calls on the stack, each pointing to its own unfinished keyword. */
  lemma {:induction false} RunRecordsCut(s: State, cut: Cut, directory: string)
    requires Sound(s)
    ensures CutsOff(s, Run(s, CutTrace(cut), directory), CutForest(cut, CallerOn(s.stack), directory),
                    OpenFrames(cut, CallerOn(s.stack), directory), directory)
    decreases cut
  {
    var caller := CallerOn(s.stack);
    RunRecordsForest(s, cut.before, directory);
    if cut.Stop? {
      return;
    }
    var s0 := Run(s, Trace(cut.before), directory);
    var s1 := OnCall(s0, cut.f, cut.started, directory);
    var s' := Run(s1, CutTrace(cut.inside), directory);
    RunConcat(s, Trace(cut.before), [Called(cut.f, cut.started)] + CutTrace(cut.inside), directory);
    CallRuns(s0, cut.f, cut.started, CutTrace(cut.inside), directory);
    if !Filtered(cut.f) {
      CallIsSound(s0, cut.f, cut.started, directory);
    }
    assert CallerOn(s1.stack) == CallerInside(cut.f, caller, directory);
    RunRecordsCut(s1, cut.inside, directory);
    var inside := CutForest(cut.inside, CallerOn(s1.stack), directory);
    var frames := OpenFrames(cut.inside, CallerOn(s1.stack), directory);
    assert OpenFrames(cut, caller, directory)
        == (if Filtered(cut.f) then [] else [Frame(cut.f, cut.started, CallerOn(s1.stack).Kept?)]) + frames;
    assert CutsOff(s0, s', OpenHere(cut, caller, directory), OpenFrames(cut, caller, directory), directory) by {
      if Filtered(cut.f) {
        assert [] + frames == frames;
      } else if IsDropped(caller, InLibrary(cut.f.source, directory)) {
        OpenedInDropped(s0, s', cut, inside, frames, directory);
      } else {
        OpenedAndKept(s0, s', cut, inside, frames, directory);
      }
    }
    CutsOffAfter(s, s0, s', Forest(cut.before, caller, directory), OpenHere(cut, caller, directory),
                 OpenFrames(cut, caller, directory), directory);
  }

  // ----- exactly the open calls are unfinished -----

  function Unfinished(ks: seq<Keyword>): nat
    decreases ks
  {
    if ks == [] then 0
    else (if ks[0].finished.None? then 1 else 0) + Unfinished(ks[0].children) + Unfinished(ks[1..])
  }

  lemma {:induction false} UnfinishedConcat(a: seq<Keyword>, b: seq<Keyword>)
    ensures Unfinished(a + b) == Unfinished(a) + Unfinished(b)
  {
    if a == [] {
      assert a + b == b;
    } else {
      assert (a + b)[1..] == a[1..] + b;
      UnfinishedConcat(a[1..], b);
    }
  }

  lemma {:induction false} FinishedHasNone(ks: seq<Keyword>)
    ensures AllFinished(ks) <==> Unfinished(ks) == 0
    decreases ks
  {
    if ks != [] {
      FinishedHasNone(ks[0].children);
      FinishedHasNone(ks[1..]);
    }
  }

  function RecordedFrames(frames: seq<Frame>): nat {
    if frames == [] then 0 else (if frames[0].recorded then 1 else 0) + RecordedFrames(frames[1..])
  }

  /** There are as many unfinished keywords as recorded open calls. */
  lemma {:induction false} CutUnfinished(cut: Cut, caller: Caller, directory: string)
    ensures var r := CutForest(cut, caller, directory);
      Unfinished(r.under) + Unfinished(r.roots) == RecordedFrames(OpenFrames(cut, caller, directory))
    decreases cut
  {
    var before := Forest(cut.before, caller, directory);
    ForestFinished(cut.before, caller, directory);
    FinishedHasNone(before.under);
    FinishedHasNone(before.roots);
    if cut.Open? {
      var next := CallerInside(cut.f, caller, directory);
      var here, inside := OpenHere(cut, caller, directory), CutForest(cut.inside, next, directory);
      var frames := OpenFrames(cut.inside, next, directory);
      CutUnfinished(cut.inside, next, directory);
      UnfinishedConcat(before.under, here.under);
      UnfinishedConcat(before.roots, here.roots);
      if Filtered(cut.f) {
        assert OpenFrames(cut, caller, directory) == frames;
      } else {
        assert ([Frame(cut.f, cut.started, next.Kept?)] + frames)[1..] == frames;
        if next.Kept? {
          var keyword := NewKeyword(cut.f, cut.started).(children := inside.under);
          assert Unfinished([keyword]) == 1 + Unfinished(inside.under);
          UnfinishedConcat([keyword], inside.roots);
        }
      }
    }
  }

  // ----- when a run that is cut off follows a stale pointer -----

  /** With n roots there before the run every use of a root is good: those of the calls that return, and
      those of the open calls by the recorded calls they make. */
  predicate CutFits(cut: Cut, caller: Caller, use: Use, n: nat, directory: string)
    decreases cut, 1
  {
    && CallsFit(cut.before, caller, use, n, directory)
    && (cut.Open? ==>
          OpenFits(cut, caller, use, n + |Forest(cut.before, caller, directory).roots|, directory))
  }

  predicate OpenFits(cut: Cut, caller: Caller, use: Use, n: nat, directory: string)
    requires cut.Open?
    decreases cut, 0
  {
    var f, next := cut.f, CallerInside(cut.f, caller, directory);
    if Filtered(f) then CutFits(cut.inside, caller, use, n, directory)
    else
      && (next.Kept? ==> Usable(use, n))
      && CutFits(cut.inside, next, UseInside(f, caller, n, directory), n + RootsAdded(f, caller, directory), directory)
  }

  lemma CutFitsStep(cut: Cut, caller: Caller, use: Use, n: nat, directory: string)
    ensures var m := n + |Forest(cut.before, caller, directory).roots|;
      CutFits(cut, caller, use, n, directory)
      <==> (&& CallsFit(cut.before, caller, use, n, directory)
            && (cut.Open? ==> OpenFits(cut, caller, use, m, directory)))
  {
  }

  lemma CutRuns(s: State, cut: Cut, directory: string)
    requires Valid(s)
    ensures var s0 := Run(s, Trace(cut.before), directory);
      Run(s, CutTrace(cut), directory)
      == if cut.Stop? then s0 else Run(OnCall(s0, cut.f, cut.started, directory), CutTrace(cut.inside), directory)
  {
    if cut.Open? {
      var s0 := Run(s, Trace(cut.before), directory);
      RunConcat(s, Trace(cut.before), [Called(cut.f, cut.started)] + CutTrace(cut.inside), directory);
      CallRuns(s0, cut.f, cut.started, CutTrace(cut.inside), directory);
    }
  }

  /** A run that is cut off follows a stale pointer exactly when some use in it is not good. */
  lemma {:induction false} CutFault(s: State, cut: Cut, directory: string)
    requires Steady(s) && !s.fault
    ensures Valid(s)
    ensures Run(s, CutTrace(cut), directory).fault
       <==> !CutFits(cut, CallerOn(s.stack), UseOn(s.stack), |s.roots|, directory)
    decreases cut, 1
  {
    hide *;
    SteadyIsSound(s);
    var s0 := Run(s, Trace(cut.before), directory);
    CutRuns(s, cut, directory);
    CutFitsStep(cut, CallerOn(s.stack), UseOn(s.stack), |s.roots|, directory);
    CallsFault(s, cut.before, directory);
    RootsOfRun(s, cut.before, directory);
    SteadyRun(s, Trace(cut.before), directory);
    if cut.Stop? {
      return;
    }
    if s0.fault {
      var s1 := OnCall(s0, cut.f, cut.started, directory);
      CallKeepsFault(s0, cut.f, cut.started, directory);
      FaultSticks(s1, CutTrace(cut.inside), directory);
      return;
    }
    OpenFault(s0, cut, directory);
  }

  lemma CallKeepsFault(s: State, f: Activation, time: string, directory: string)
    requires Valid(s) && s.fault
    ensures OnCall(s, f, time, directory).fault
  {
  }

  lemma OpenFitsStep(cut: Cut, caller: Caller, use: Use, n: nat, directory: string)
    requires cut.Open?
    ensures var f, next := cut.f, CallerInside(cut.f, caller, directory);
      OpenFits(cut, caller, use, n, directory)
      <==> (if Filtered(f) then CutFits(cut.inside, caller, use, n, directory)
            else
              && (next.Kept? ==> Usable(use, n))
              && CutFits(cut.inside, next, UseInside(f, caller, n, directory), n + RootsAdded(f, caller, directory),
                         directory))
  {
  }

  lemma FilteredOpens(s: State, f: Activation, time: string, directory: string)
    requires Valid(s) && Filtered(f)
    ensures OnCall(s, f, time, directory) == s
  {
  }

  lemma {:induction false} OpenFault(s: State, cut: Cut, directory: string)
    requires Steady(s) && !s.fault && cut.Open?
    ensures Valid(s)
    ensures Run(OnCall(s, cut.f, cut.started, directory), CutTrace(cut.inside), directory).fault
       <==> !OpenFits(cut, CallerOn(s.stack), UseOn(s.stack), |s.roots|, directory)
    decreases cut, 0
  {
    hide *;
    SteadyIsSound(s);
    OpenFitsStep(cut, CallerOn(s.stack), UseOn(s.stack), |s.roots|, directory);
    if Filtered(cut.f) {
      FilteredOpens(s, cut.f, cut.started, directory);
      CutFault(s, cut.inside, directory);
      return;
    }
    var s1 := OnCall(s, cut.f, cut.started, directory);
    CallUses(s, cut.f, cut.started, directory);
    NestedAfterCall(s, cut.f, cut.started, directory);
    if s1.fault {
      FaultSticks(s1, CutTrace(cut.inside), directory);
      return;
    }
    CutFault(s1, cut.inside, directory);
  }

  lemma GrowFromNothing(r: Recorded)
    ensures Grow([], [], r) == r.roots
  {
  }

  lemma TestCutOffForest(s: State, cut: Cut, directory: string)
    ensures var r, frames := Run(TestStarted(s), CutTrace(cut), directory), OpenFrames(cut, NoCaller, directory);
      && r.roots == CutForest(cut, NoCaller, directory).roots
      && Stacks(r, 0, frames, directory)
      && |r.stack| == |frames|
  {
    hide *;
    var begun := TestStarted(s);
    SteadyAtStart(s);
    SteadyIsSound(begun);
    GrowFromNothing(CutForest(cut, NoCaller, directory));
    RunRecordsCut(begun, cut, directory);
    CutsOffFromNothing(begun, Run(begun, CutTrace(cut), directory), CutForest(cut, NoCaller, directory),
                       OpenFrames(cut, NoCaller, directory), directory);
  }

  lemma CutsOffFromNothing(s: State, s': State, r: Recorded, frames: seq<Frame>, directory: string)
    requires Sound(s) && s.roots == [] && s.stack == [] && CutsOff(s, s', r, frames, directory)
    ensures s'.roots == Grow([], [], r) && Stacks(s', 0, frames, directory) && |s'.stack| == |frames|
  {
    hide EntryFor, Sound, Grow;
  }

  /** A test that is cut off anywhere: the forest is the specified one, exactly as many of its keywords
      are unfinished as recorded calls are open, the stack is exactly the open calls, each with a
      pointer to its own keyword, and a stale pointer was followed exactly when some use was not good. */
  lemma TestCutOff(s: State, cut: Cut, directory: string)
    ensures var r, frames := Run(TestStarted(s), CutTrace(cut), directory), OpenFrames(cut, NoCaller, directory);
      && r.roots == CutForest(cut, NoCaller, directory).roots
      && Stacks(r, 0, frames, directory) && |r.stack| == |frames|
      && Unfinished(r.roots) == RecordedFrames(frames)
      && (!s.fault ==> (r.fault <==> !CutFits(cut, NoCaller, Free, 0, directory)))
  {
    hide *;
    TestCutOffForest(s, cut, directory);
    CutUnfinished(cut, NoCaller, directory);
    NothingUnder(cut, directory);
    SteadyAtStart(s);
    if !s.fault {
      CutFault(TestStarted(s), cut, directory);
    }
  }

  lemma NothingUnder(cut: Cut, directory: string)
    ensures Unfinished(CutForest(cut, NoCaller, directory).under) == 0
  {
  }

  // ----- the same callbacks, without and with a later call -----

  lemma {:induction false} RepeatedFit(f: Activation, k: nat, n: nat, directory: string)
    requires !Filtered(f) && !InLibrary(f.source, directory)
    ensures CallsFit(Repeated(f, k), Dropped, Free, n, directory)
    decreases k
  {
    if k > 0 {
      assert |Here(Repeated(f, k), Dropped, directory).roots| == 1;
      RepeatedFit(f, k - 1, n + 1, directory);
    }
  }

  /** A library function calls another, which calls test code back any number of times and then raises:
      the outer keyword may have moved, but nothing uses its pointer any more. */
  lemma RaisingAfterCallbacks(library: Activation, test: Activation, k: nat, directory: string)
    requires !Filtered(library) && InLibrary(library.source, directory)
    requires !Filtered(test) && !InLibrary(test.source, directory)
    ensures var cut := Open(Done, library, "", Open(Done, library, "", Stop(Repeated(test, k))));
      !Run(TestStarted(State(false, [], [], false)), CutTrace(cut), directory).fault
  {
    var inner := Stop(Repeated(test, k));
    var middle := Open(Done, library, "", inner);
    RepeatedFit(test, k, 1, directory);
    assert CutFits(inner, Dropped, Free, 1, directory);
    assert CutFits(middle, Kept(true), Rooted(Buffer(1)), 1, directory);
    TestCutOff(State(false, [], [], false), Open(Done, library, "", middle), directory);
  }

  /** A library function inside a library function, calling test code back: k roots, and all uses good
      whatever the outer one's pointer is, because it is not used. */
  lemma CallbacksFit(library: Activation, test: Activation, k: nat, use: Use, n: nat, directory: string)
    requires !Filtered(library) && InLibrary(library.source, directory)
    requires !Filtered(test) && !InLibrary(test.source, directory)
    ensures var calls := Then(library, "", "", Repeated(test, k), Done);
      && CallsFit(calls, Kept(true), use, n, directory)
      && |Forest(calls, Kept(true), directory).roots| == k
  {
    var calls := Then(library, "", "", Repeated(test, k), Done);
    RepeatedFit(test, k, n, directory);
    RepeatedRoots(test, k, directory);
    assert |Here(calls, Kept(true), directory).roots| == k;
    assert CallerInside(library, Kept(true), directory) == Dropped;
    CallsFitStep(calls, Kept(true), use, n, directory);
    HereFitsStep(calls, Kept(true), use, n, directory);
    assert CallsFit(Done, Kept(true), use, n + k, directory);
  }

  /** When the outer function calls test code itself after those callbacks, and that raises, the call
      has gone through the old pointer if there were ten callbacks or more. */
  lemma CallAfterCallbacks(library: Activation, test: Activation, k: nat, directory: string)
    requires !Filtered(library) && InLibrary(library.source, directory)
    requires !Filtered(test) && !InLibrary(test.source, directory)
    ensures var before := Then(library, "", "", Repeated(test, k), Done);
      var cut := Open(Done, library, "", Open(before, test, "", Stop(Done)));
      Run(TestStarted(State(false, [], [], false)), CutTrace(cut), directory).fault <==> k >= 10
  {
    var before := Then(library, "", "", Repeated(test, k), Done);
    var own, last := Rooted(Buffer(1)), Stop(Done);
    var inside := Open(before, test, "", last);
    var cut := Open(Done, library, "", inside);
    TestCutOff(State(false, [], [], false), cut, directory);
    CallbacksFit(library, test, k, own, 1, directory);
    assert CutFits(last, Kept(false), Free, 1 + k, directory);
    assert CallerInside(test, Kept(true), directory) == Kept(false);
    assert CallerInside(library, NoCaller, directory) == Kept(true);
    assert UseInside(library, NoCaller, 0, directory) == own && RootsAdded(library, NoCaller, directory) == 1;
    assert UseInside(test, Kept(true), 1 + k, directory) == Free && RootsAdded(test, Kept(true), directory) == 0;
    assert CallsFit(Done, NoCaller, Free, 0, directory) && |Forest(Done, NoCaller, directory).roots| == 0;
    GrownMonotone(ROOM, 1, 1 + k);
    OpenFitsStep(inside, Kept(true), own, 1 + k, directory);
    CutFitsStep(inside, Kept(true), own, 1, directory);
    OpenFitsStep(cut, NoCaller, Free, 0, directory);
    CutFitsStep(cut, NoCaller, Free, 0, directory);
  }
}
