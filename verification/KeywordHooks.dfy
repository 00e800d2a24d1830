/** What one call or one return does to the recorder, written out: which functions are dropped, as places
    of the library directory in their source, and where every keyword is and what it says afterwards. */
module KeywordHooks {
  import opened DynArray
  import opened Keywords
  import opened KeywordStatus
  import opened KeywordForest
  import opened KeywordCutOff
  import opened Options
  import opened Text

  // ----- which functions are library code -----

  /** The directory occurs nowhere in the source. */
  predicate Outside(source: string, directory: string) {
    forall i: nat, j: nat | i <= j <= |source| && j - i == |directory| :: source[i..j] != directory
  }

  lemma OutsideIsNone(source: string, directory: string)
    ensures Outside(source, directory) ==> !InLibrary(source, directory)
  {
    if InLibrary(source, directory) {
      var i: nat :| i <= |source| && OccursAt(source, directory, i);
      assert source[i..i + |directory|] == directory;
    }
  }

  lemma InsideIsOne(a: string, directory: string, b: string)
    ensures InLibrary(a + directory + b, directory)
  {
    assert OccursAt(a + directory + b, directory, |a|);
  }

  /** Library code called by library code is dropped. */
  lemma LibraryCallDropped(s: State, name: string, a: string, b: string, line: int, time: string, directory: string)
    requires Valid(s) && s.running && s.stack != [] && s.stack[|s.stack| - 1].library
    ensures var f := Activation(true, Some(name), a + directory + b, line);
      OnCall(s, f, time, directory) == State(true, s.roots, s.stack + [Entry(None, true, true)], s.fault)
  {
    InsideIsOne(a, directory, b);
  }

  /** C functions and functions without a name are not seen, and nothing is outside a test. */
  lemma Unseen(s: State, f: Activation, time: string, directory: string)
    requires Valid(s) && (!s.running || !f.isLua || f.name == None)
    ensures OnCall(s, f, time, directory) == s && OnReturn(s, f, time) == s
  {
  }

  /** Between tests nothing is recorded, and a new test starts with nothing. */
  lemma {:induction false} NothingBetweenTests(s: State, events: seq<Event>, directory: string)
    ensures Run(TestFinished(s), events, directory) == TestFinished(s) && TestFinished(s).roots == []
    ensures TestStarted(Run(TestFinished(s), events, directory)) == State(true, [], [], s.fault)
    decreases |events|
  {
    if events != [] {
      NothingBetweenTests(s, events[1..], directory);
      Unseen(TestFinished(s), events[0].f, events[0].time, directory);
    }
  }

  // ----- a recorded call -----

  /** Nothing is called from the library's own code, or the function called is none of it. */
  predicate Wanted(s: State, source: string, directory: string) {
    s.stack == [] || !s.stack[|s.stack| - 1].library || Outside(source, directory)
  }

  /** Without a recorded caller a recorded call becomes the last root. */
  lemma CallBecomesRoot(s: State, name: string, source: string, line: int, time: string, directory: string)
    requires Valid(s) && s.running && Wanted(s, source, directory)
    requires s.stack == [] || s.stack[|s.stack| - 1].ignored
    ensures var r := OnCall(s, Activation(true, Some(name), source, line), time, directory);
      && r.running && r.fault == s.fault
      && r.roots == s.roots + [Keyword(Some(name), Some(source), line, Some(time), None, [])]
      && |r.stack| == |s.stack| + 1 && r.stack[..|s.stack|] == s.stack
      && var top := r.stack[|s.stack|];
         !top.ignored && top.keyword == Some(Pointer([], |s.roots|, Buffer(|s.roots| + 1)))
  {
    OutsideIsNone(source, directory);
  }

  lemma LibraryIsNoted(s: State, name: string, source: string, line: int, time: string, directory: string)
    requires Valid(s) && s.running
    ensures var r := OnCall(s, Activation(true, Some(name), source, line), time, directory);
      && |r.stack| == |s.stack| + 1
      && (Outside(source, directory) <==> !r.stack[|s.stack|].library)
  {
    OutsideIsNone(source, directory);
    if !InLibrary(source, directory) {
      forall i: nat, j: nat | i <= j <= |source| && j - i == |directory| ensures source[i..j] != directory {
        assert !OccursAt(source, directory, i);
      }
    }
  }

  /** The forests differ in nothing but that the keyword at `path` has one more child, the last. */
  ghost predicate OneMoreChild(before: seq<Keyword>, after: seq<Keyword>, path: seq<nat>, x: Keyword)
    requires path != [] && ValidPath(before, path)
  {
    && (forall q | ValidPath(before, q) ::
          && ValidPath(after, q)
          && |Children(after, q)| == |Children(before, q)| + (if q == path then 1 else 0)
          && (q != [] ==> At(after, q).(children := []) == At(before, q).(children := [])))
    && var newest := path + [|Children(before, path)|];
       ValidPath(after, newest) && At(after, newest) == x
  }

  lemma AdoptAddsChild(ks: seq<Keyword>, path: seq<nat>, x: Keyword)
    requires path != [] && ValidPath(ks, path)
    ensures OneMoreChild(ks, EditAt(ks, path, Adopt([x])), path, x)
  {
    forall q | ValidPath(ks, q)
      ensures ValidPath(EditAt(ks, path, Adopt([x])), q)
      ensures |Children(EditAt(ks, path, Adopt([x])), q)| == |Children(ks, q)| + if q == path then 1 else 0
      ensures q != [] ==> At(EditAt(ks, path, Adopt([x])), q).(children := []) == At(ks, q).(children := [])
    {
      EditKeeps(ks, path, Adopt([x]), q);
      if q != [] {
        AdoptKeepsHeading(ks, path, [x], q);
      }
    }
    NewestIs(ks, path, x);
  }

  /** With a recorded caller it becomes the caller's last child, and nothing else changes. */
  lemma CallBecomesChild(s: State, name: string, source: string, line: int, time: string, directory: string)
    requires Valid(s) && s.running && Wanted(s, source, directory)
    requires s.stack != [] && s.stack[|s.stack| - 1].keyword.Some?
    ensures var r := OnCall(s, Activation(true, Some(name), source, line), time, directory);
      var caller := s.stack[|s.stack| - 1].keyword.value;
      var path := caller.owner + [caller.index];
      && r.running
      && ValidPath(s.roots, path)
      && OneMoreChild(s.roots, r.roots, path, Keyword(Some(name), Some(source), line, Some(time), None, []))
      && |r.stack| == |s.stack| + 1 && r.stack[..|s.stack|] == s.stack
      && var top, n := r.stack[|s.stack|], |Children(s.roots, path)|;
         !top.ignored && top.keyword == Some(Pointer(path, n, Buffer(n + 1)))
  {
    OutsideIsNone(source, directory);
    var caller := s.stack[|s.stack| - 1].keyword.value;
    AdoptAddsChild(s.roots, caller.Path(), Keyword(Some(name), Some(source), line, Some(time), None, []));
  }

  // ----- a return -----

  /** The forests differ in nothing but that the keyword at `path` says when it finished. */
  ghost predicate OneFinished(before: seq<Keyword>, after: seq<Keyword>, path: seq<nat>, time: string)
    requires path != [] && ValidPath(before, path)
  {
    && (forall q | ValidPath(before, q) :: ValidPath(after, q) && |Children(after, q)| == |Children(before, q)|)
    && (forall q | q != [] && q != path && ValidPath(before, q) ::
          At(after, q).(children := []) == At(before, q).(children := []))
    && At(after, path) == At(before, path).(finished := Some(time))
  }

  lemma {:induction false} FinishElsewhere(ks: seq<Keyword>, path: seq<nat>, time: string, q: seq<nat>)
    requires path != [] && q != [] && q != path && ValidPath(ks, path) && ValidPath(ks, q)
    ensures ValidPath(EditAt(ks, path, Finish(time)), q)
    ensures At(EditAt(ks, path, Finish(time)), q).(children := []) == At(ks, q).(children := [])
    decreases path
  {
    EditKeeps(ks, path, Finish(time), q);
    if q[0] == path[0] && |path| > 1 && |q| > 1 {
      assert q[1..] != path[1..] by {
        assert q == [q[0]] + q[1..] && path == [path[0]] + path[1..];
      }
      FinishElsewhere(ks[path[0]].children, path[1..], time, q[1..]);
    } else if |q| == 1 && |path| == 1 {
      assert q == [q[0]] && path == [path[0]];
    }
  }

  lemma {:induction false} FinishHere(ks: seq<Keyword>, path: seq<nat>, time: string)
    requires path != [] && ValidPath(ks, path)
    ensures ValidPath(EditAt(ks, path, Finish(time)), path)
    ensures At(EditAt(ks, path, Finish(time)), path) == At(ks, path).(finished := Some(time))
    decreases path
  {
    EditKeeps(ks, path, Finish(time), path);
    if |path| > 1 {
      FinishHere(ks[path[0]].children, path[1..], time);
    }
  }

  lemma FinishIsAll(ks: seq<Keyword>, path: seq<nat>, time: string)
    requires path != [] && ValidPath(ks, path)
    ensures OneFinished(ks, EditAt(ks, path, Finish(time)), path, time)
  {
    FinishHere(ks, path, time);
    forall q | ValidPath(ks, q)
      ensures ValidPath(EditAt(ks, path, Finish(time)), q)
      ensures |Children(EditAt(ks, path, Finish(time)), q)| == |Children(ks, q)|
      ensures q != [] && q != path ==>
        At(EditAt(ks, path, Finish(time)), q).(children := []) == At(ks, q).(children := [])
    {
      EditKeeps(ks, path, Finish(time), q);
      if q != [] && q != path {
        FinishElsewhere(ks, path, time, q);
      }
    }
  }

  /** A return takes the innermost entry off, and writes the time into its keyword unless it is dropped. */
  lemma ReturnFinishes(s: State, name: string, source: string, line: int, time: string)
    requires Valid(s) && s.running && s.stack != []
    ensures var r, top := OnReturn(s, Activation(true, Some(name), source, line), time), s.stack[|s.stack| - 1];
      && r.running
      && s.stack == r.stack + [top]
      && (top.keyword == None ==> r.roots == s.roots && r.fault == s.fault)
      && (top.keyword.Some? ==>
            var path := top.keyword.value.owner + [top.keyword.value.index];
            ValidPath(s.roots, path) && OneFinished(s.roots, r.roots, path, time))
  {
    var top := s.stack[|s.stack| - 1];
    if top.keyword.Some? {
      FinishIsAll(s.roots, top.keyword.value.Path(), time);
    }
  }

  lemma NothingToReturn(s: State, f: Activation, time: string)
    requires Valid(s) && s.stack == []
    ensures OnReturn(s, f, time) == s
  {
  }

  // ----- which pointers are stale -----

  /** An array of keywords has room for ten, and twice as much each time it is full. */
  lemma BufferIs(n: nat)
    ensures n <= 10 ==> Buffer(n) == 10
    ensures n > 10 ==> Buffer(n) == 2 * Buffer((n + 1) / 2)
  {
    GrownIs(10, n);
  }

  /** The pointer on top of the stack goes into a buffer that its array has left. */
  predicate Stale(s: State)
    requires s.stack != [] && s.stack[|s.stack| - 1].keyword.Some?
  {
    var p := s.stack[|s.stack| - 1].keyword.value;
    ValidPath(s.roots, p.owner) && p.buffer != Buffer(|Children(s.roots, p.owner)|)
  }

  /** A fault is a stale pointer of the innermost recorded call, used by a recorded call it makes or at its
      return, and no fault is forgotten. */
  lemma FaultIsStale(s: State, name: string, source: string, line: int, time: string, directory: string)
    requires Valid(s) && s.running && s.stack != [] && s.stack[|s.stack| - 1].keyword.Some?
    ensures var f := Activation(true, Some(name), source, line);
      && (Wanted(s, source, directory) ==> (OnCall(s, f, time, directory).fault <==> s.fault || Stale(s)))
      && (OnReturn(s, f, time).fault <==> s.fault || Stale(s))
  {
    OutsideIsNone(source, directory);
    var p := s.stack[|s.stack| - 1].keyword.value;
    OwnerValid(s.roots, p.owner, p.index);
  }

  // ----- whole tests, event by event -----

  /** A function that calls another, and then a third one: the events, and the forest. */
  lemma CallsAsTheyCome(s: State, f: Activation, g: Activation, h: Activation, t: seq<string>, directory: string)
    requires f.isLua && f.name.Some? && g.isLua && g.name.Some? && h.isLua && h.name.Some? && |t| == 6
    requires Outside(f.source, directory)
    ensures var events := [Called(f, t[0]), Called(g, t[1]), Returned(g, t[2]), Returned(f, t[3]),
                           Called(h, t[4]), Returned(h, t[5])];
      && Trace(Then(f, t[0], t[3], Then(g, t[1], t[2], Done, Done), Then(h, t[4], t[5], Done, Done))) == events
      && Run(TestStarted(s), events, directory).roots
         == [Keyword(f.name, Some(f.source), f.line, Some(t[0]), Some(t[3]),
                     [Keyword(g.name, Some(g.source), g.line, Some(t[1]), Some(t[2]), [])]),
             Keyword(h.name, Some(h.source), h.line, Some(t[4]), Some(t[5]), [])]
  {
    hide Run, Forest, Outside, Trace, TestStarted;
    var calls := Then(f, t[0], t[3], Then(g, t[1], t[2], Done, Done), Then(h, t[4], t[5], Done, Done));
    SixEvents(f, g, h, t);
    TestForest(s, calls, directory);
    TwoRoots(f, g, h, t, directory);
  }

  lemma SixEvents(f: Activation, g: Activation, h: Activation, t: seq<string>)
    requires |t| == 6
    ensures Trace(Then(f, t[0], t[3], Then(g, t[1], t[2], Done, Done), Then(h, t[4], t[5], Done, Done)))
         == [Called(f, t[0]), Called(g, t[1]), Returned(g, t[2]), Returned(f, t[3]), Called(h, t[4]), Returned(h, t[5])]
  {
    OneTrace(g, t[1], t[2]);
    OneTrace(h, t[4], t[5]);
  }

  lemma TwoRoots(f: Activation, g: Activation, h: Activation, t: seq<string>, directory: string)
    requires f.isLua && f.name.Some? && g.isLua && g.name.Some? && h.isLua && h.name.Some? && |t| == 6
    requires Outside(f.source, directory)
    ensures Forest(Then(f, t[0], t[3], Then(g, t[1], t[2], Done, Done), Then(h, t[4], t[5], Done, Done)), NoCaller,
                   directory).roots
         == [Keyword(f.name, Some(f.source), f.line, Some(t[0]), Some(t[3]),
                     [Keyword(g.name, Some(g.source), g.line, Some(t[1]), Some(t[2]), [])]),
             Keyword(h.name, Some(h.source), h.line, Some(t[4]), Some(t[5]), [])]
  {
    var inner, rest := Then(g, t[1], t[2], Done, Done), Then(h, t[4], t[5], Done, Done);
    OutsideIsNone(f.source, directory);
    OneForest(g, t[1], t[2], Kept(false), directory);
    OneForest(h, t[4], t[5], NoCaller, directory);
    hide Outside, InLibrary;
    assert Here(Then(f, t[0], t[3], inner, rest), NoCaller, directory).roots
        == [Keyword(f.name, Some(f.source), f.line, Some(t[0]), Some(t[3]),
                    [Keyword(g.name, Some(g.source), g.line, Some(t[1]), Some(t[2]), [])])] + [];
  }

  lemma OneTrace(f: Activation, t1: string, t2: string)
    ensures Trace(Then(f, t1, t2, Done, Done)) == [Called(f, t1), Returned(f, t2)]
  {
    assert Trace(Then(f, t1, t2, Done, Done)) == [Called(f, t1)] + [] + [Returned(f, t2)] + [];
  }

  lemma OneForest(f: Activation, t1: string, t2: string, caller: Caller, directory: string)
    requires f.isLua && f.name.Some? && (caller == NoCaller || caller == Kept(false))
    ensures var x := Keyword(f.name, Some(f.source), f.line, Some(t1), Some(t2), []);
      Forest(Then(f, t1, t2, Done, Done), caller, directory)
      == if caller == NoCaller then Recorded([], [x]) else Recorded([x], [])
  {
    var calls := Then(f, t1, t2, Done, Done);
    var x := Keyword(f.name, Some(f.source), f.line, Some(t1), Some(t2), []);
    assert Here(calls, caller, directory) == if caller == NoCaller then Recorded([], [x] + []) else Recorded([x], []);
    assert [x] + [] == [x];
  }

  lemma TestForest(s: State, calls: Calls, directory: string)
    ensures Run(TestStarted(s), Trace(calls), directory).roots == Forest(calls, NoCaller, directory).roots
  {
    RunRecordsForest(TestStarted(s), calls, directory);
    assert [] + Forest(calls, NoCaller, directory).roots == Forest(calls, NoCaller, directory).roots;
  }

  /** A library function that calls another one, which calls test code back: the second is dropped, and the
      callback is a root of its own. */
  lemma CallbackIsRoot(s: State, a: string, b: string, name: string, test: Activation, t: seq<string>,
                       directory: string)
    requires test.isLua && test.name.Some? && Outside(test.source, directory) && |t| == 6
    ensures var library := Activation(true, Some(name), a + directory + b, 1);
      Run(TestStarted(s), [Called(library, t[0]), Called(library, t[1]), Called(test, t[2]), Returned(test, t[3]),
                           Returned(library, t[4]), Returned(library, t[5])], directory).roots
      == [Keyword(Some(name), Some(a + directory + b), 1, Some(t[0]), Some(t[5]), []),
          Keyword(test.name, Some(test.source), test.line, Some(t[2]), Some(t[3]), [])]
  {
    var library := Activation(true, Some(name), a + directory + b, 1);
    var inner := Then(test, t[2], t[3], Done, Done);
    var middle := Then(library, t[1], t[4], inner, Done);
    var calls := Then(library, t[0], t[5], middle, Done);
    InsideIsOne(a, directory, b);
    OutsideIsNone(test.source, directory);
    OneTrace(test, t[2], t[3]);
    var events := [Called(library, t[0]), Called(library, t[1]), Called(test, t[2]), Returned(test, t[3]),
                   Returned(library, t[4]), Returned(library, t[5])];
    assert Trace(middle) == [Called(library, t[1])] + Trace(inner) + [Returned(library, t[4])] + [];
    assert Trace(calls) == [Called(library, t[0])] + Trace(middle) + [Returned(library, t[5])] + [] == events;
    TestForest(s, calls, directory);
    var x := Keyword(test.name, Some(test.source), test.line, Some(t[2]), Some(t[3]), []);
    assert Forest(inner, Dropped, directory) == Recorded([], [x]) by {
      assert Here(inner, Dropped, directory) == Recorded([], [x] + []);
    }
    assert Forest(middle, Kept(true), directory) == Recorded([], [x]) by {
      assert Here(middle, Kept(true), directory) == Recorded([], [x]);
      assert [x] + [] == [x];
    }
    assert Here(calls, NoCaller, directory).roots
        == [Keyword(Some(name), Some(a + directory + b), 1, Some(t[0]), Some(t[5]), [])] + [x];
  }
}
