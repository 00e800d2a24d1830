/** What the keyword recorder is for: the forest it builds out of a well-nested run of calls, and
    when its raw pointers stay good. */
module KeywordForest {
  import opened Options
  import opened Keywords
  import opened KeywordStatus

  /** A well-nested run of calls: the first call, the calls it made, and the calls after it. */
  datatype Calls =
    | Done
    | Then(f: Activation, started: string, finished: string, inner: Calls, rest: Calls)

  /** The hook events the run produces. */
  function Trace(calls: Calls): seq<Event> {
    match calls
    case Done => []
    case Then(f, started, finished, inner, rest) =>
      [Called(f, started)] + Trace(inner) + [Returned(f, finished)] + Trace(rest)
  }

  /** The innermost named Lua call around a call: none, one that is recorded, or one that is not. */
  datatype Caller = NoCaller | Kept(library: bool) | Dropped

  predicate IsDropped(caller: Caller, library: bool) {
    library && (caller == Dropped || caller == Kept(true))
  }

  /** The caller of what happens inside a call. */
  function CallerInside(f: Activation, caller: Caller, directory: string): Caller {
    if Filtered(f) then caller
    else
      var library := InLibrary(f.source, directory);
      if IsDropped(caller, library) then Dropped else Kept(library)
  }

  datatype Recorded = Recorded(under: seq<Keyword>, roots: seq<Keyword>)
  {
    function Join(other: Recorded): Recorded {
      Recorded(under + other.under, roots + other.roots)
    }
  }

  /** The keywords of a run: those that hang under the caller, and those that become roots.  A call
      is dropped exactly when it and its caller are library code; a recorded call goes under its
      caller, or becomes a root, in call order, when it has no caller or the caller was dropped. */
  function Forest(calls: Calls, caller: Caller, directory: string): (r: Recorded)
    ensures !caller.Kept? ==> r.under == []
    decreases calls, 1
  {
    if calls.Done? then Recorded([], [])
    else Here(calls, caller, directory).Join(Forest(calls.rest, caller, directory))
  }

  /** The keywords of the first call of a run and of what happens inside it. */
  function Here(calls: Calls, caller: Caller, directory: string): (r: Recorded)
    requires calls.Then?
    ensures !caller.Kept? ==> r.under == []
    decreases calls, 0
  {
    var Then(f, started, finished, inner, _) := calls;
    if Filtered(f) then Forest(inner, caller, directory)
    else
      var library := InLibrary(f.source, directory);
      if IsDropped(caller, library) then
        Recorded([], Forest(inner, Dropped, directory).roots)
      else
        var inside := Forest(inner, Kept(library), directory);
        var keyword := Keyword(f.name, Some(f.source), f.line, Some(started), Some(finished), inside.under);
        if caller.Kept? then Recorded([keyword], inside.roots)
        else Recorded([], [keyword] + inside.roots)
  }

  function CallerOn(stack: seq<Entry>): Caller {
    if stack == [] then NoCaller
    else
      var top := stack[|stack| - 1];
      if top.ignored then Dropped else Kept(top.library)
  }

  /** The recorded forest with new keywords under the current caller and new roots. */
  function Grow(ks: seq<Keyword>, owner: seq<nat>, r: Recorded): seq<Keyword>
    requires ValidPath(ks, owner)
  {
    if owner == [] then ks + r.roots else EditAt(ks, owner, Adopt(r.under)) + r.roots
  }

  /** On a stack built by the hooks an ignored entry is library code on top of library code. */
  ghost predicate Sound(s: State) {
    && s.running
    && PointersValid(s)
    && forall i | 0 <= i < |s.stack| && s.stack[i].ignored ::
         i > 0 && s.stack[i].library && s.stack[i - 1].library
  }

  lemma {:induction false} RunConcat(s: State, a: seq<Event>, b: seq<Event>, directory: string)
    requires Valid(s)
    ensures Run(s, a + b, directory) == Run(Run(s, a, directory), b, directory)
    decreases a
  {
    if a == [] {
      assert a + b == b;
    } else {
      assert (a + b)[1..] == a[1..] + b;
      RunConcat(Step(s, a[0], directory), a[1..], b, directory);
    }
  }

  /** The run of a call: the call event, the calls inside, the return event, the calls after. */
  lemma {:induction false} RunThen(s: State, calls: Calls, directory: string)
    requires Valid(s) && calls.Then?
    ensures var s1 := OnCall(s, calls.f, calls.started, directory);
            var s2 := Run(s1, Trace(calls.inner), directory);
            Run(s, Trace(calls), directory)
            == Run(OnReturn(s2, calls.f, calls.finished), Trace(calls.rest), directory)
  {
    var call, inner := [Called(calls.f, calls.started)], Trace(calls.inner);
    var ret, rest := [Returned(calls.f, calls.finished)], Trace(calls.rest);
    RunConcat(s, call + inner + ret, rest, directory);
    RunConcat(s, call + inner, ret, directory);
    RunConcat(s, call, inner, directory);
    assert Run(s, call, directory) == OnCall(s, calls.f, calls.started, directory) by {
      assert call[1..] == [];
    }
    var s2 := Run(OnCall(s, calls.f, calls.started, directory), inner, directory);
    assert Run(s2, ret, directory) == OnReturn(s2, calls.f, calls.finished) by {
      assert ret[1..] == [];
    }
  }

  lemma GrowKeeps(ks: seq<Keyword>, owner: seq<nat>, r: Recorded, q: seq<nat>)
    requires ValidPath(ks, owner) && ValidPath(ks, q)
    requires owner == [] ==> r.under == []
    ensures ValidPath(Grow(ks, owner, r), q)
    ensures |Children(Grow(ks, owner, r), q)|
            == |Children(ks, q)| + (if q == [] then |r.roots| else 0) + (if q == owner then |r.under| else 0)
  {
    if owner == [] {
      RootAppendKeeps(ks, r.roots, q);
    } else {
      EditKeeps(ks, owner, Adopt(r.under), q);
      RootAppendKeeps(EditAt(ks, owner, Adopt(r.under)), r.roots, q);
    }
  }

  lemma GrowTwice(ks: seq<Keyword>, owner: seq<nat>, a: Recorded, b: Recorded)
    requires ValidPath(ks, owner)
    requires owner == [] ==> a.under == []
    ensures ValidPath(Grow(ks, owner, a), owner)
    ensures Grow(Grow(ks, owner, a), owner, b) == Grow(ks, owner, a.Join(b))
  {
    GrowKeeps(ks, owner, a, owner);
    if owner == [] {
      assert ks + a.roots + b.roots == ks + (a.roots + b.roots);
    } else {
      var edited := EditAt(ks, owner, Adopt(a.under));
      AdoptTwice(ks, owner, a.under, b.under);
      EditThenRoots(edited, owner, Adopt(b.under), a.roots);
      assert EditAt(edited, owner, Adopt(b.under)) + a.roots + b.roots
          == EditAt(edited, owner, Adopt(b.under)) + (a.roots + b.roots);
    }
  }

  lemma GrowNothing(ks: seq<Keyword>, owner: seq<nat>)
    requires ValidPath(ks, owner)
    ensures Grow(ks, owner, Recorded([], [])) == ks
  {
    if owner != [] {
      AdoptNothing(ks, owner);
    }
  }

  /** Opening a keyword, growing the forest inside it, and closing it adds the finished keyword. */
  lemma OpenGrowFinish(ks: seq<Keyword>, owner: seq<nat>, x: Keyword, r: Recorded, time: string)
    requires ValidPath(ks, owner)
    ensures var path := owner + [|Children(ks, owner)|];
            var y := x.(children := x.children + r.under, finished := Some(time));
            var extended := AppendTo(ks, owner, [x]);
            && ValidPath(extended, path)
            && ValidPath(Grow(extended, path, r), path)
            && EditAt(Grow(extended, path, r), path, Finish(time))
               == Grow(ks, owner, if owner == [] then Recorded([], [y] + r.roots) else Recorded([y], r.roots))
  {
    var path := owner + [|Children(ks, owner)|];
    var extended := AppendTo(ks, owner, [x]);
    var x' := Adopt(r.under).Apply(x);
    EditNewest(ks, owner, x, Adopt(r.under));
    EditNewest(ks, owner, x', Finish(time));
    var grown := AppendTo(ks, owner, [x']);
    assert Grow(extended, path, r) == grown + r.roots;
    EditThenRoots(grown, path, Finish(time), r.roots);
    var y := Finish(time).Apply(x');
    assert EditAt(Grow(extended, path, r), path, Finish(time)) == AppendTo(ks, owner, [y]) + r.roots;
    if owner == [] {
      assert ks + [y] + r.roots == ks + ([y] + r.roots);
    }
  }

  /** What a run from s to s' recorded. */
  ghost predicate Records(s: State, s': State, r: Recorded)
    requires Sound(s)
  {
    Sound(s') && s'.stack == s.stack && s'.roots == Grow(s.roots, Target(s.stack), r)
  }

  lemma RecordsJoin(s: State, s1: State, s2: State, a: Recorded, b: Recorded)
    requires Sound(s) && Records(s, s1, a) && Records(s1, s2, b)
    requires Target(s.stack) == [] ==> a.under == []
    ensures Records(s, s2, a.Join(b))
  {
    GrowTwice(s.roots, Target(s.stack), a, b);
  }

  lemma GrowInsideDropped(ks: seq<Keyword>, owner: seq<nat>, r: Recorded)
    requires ValidPath(ks, owner)
    ensures Grow(ks, owner, Recorded([], r.roots)) == Grow(ks, [], r)
  {
    if owner != [] {
      AdoptNothing(ks, owner);
    }
  }

  lemma DroppedCallRecords(s: State, f: Activation, started: string, finished: string,
                           s2: State, inside: Recorded, directory: string)
    requires Sound(s) && !Filtered(f) && IsDropped(CallerOn(s.stack), InLibrary(f.source, directory))
    requires var s1 := OnCall(s, f, started, directory); Sound(s1) && Records(s1, s2, inside)
    ensures Records(s, OnReturn(s2, f, finished), Recorded([], inside.roots))
  {
    assert Drops(s.stack, InLibrary(f.source, directory));
    GrowInsideDropped(s.roots, Target(s.stack), inside);
    var s1 := OnCall(s, f, started, directory);
    assert s1.stack[..|s1.stack| - 1] == s.stack;
  }

  lemma KeptCallRecords(s: State, f: Activation, started: string, finished: string,
                        s2: State, inside: Recorded, directory: string)
    requires Sound(s) && !Filtered(f) && !IsDropped(CallerOn(s.stack), InLibrary(f.source, directory))
    requires var s1 := OnCall(s, f, started, directory); Sound(s1) && Records(s1, s2, inside)
    ensures var y := NewKeyword(f, started).(children := inside.under, finished := Some(finished));
      Records(s, OnReturn(s2, f, finished),
              if CallerOn(s.stack).Kept? then Recorded([y], inside.roots) else Recorded([], [y] + inside.roots))
  {
    assert !Drops(s.stack, InLibrary(f.source, directory));
    var x := NewKeyword(f, started);
    OpenGrowFinish(s.roots, Target(s.stack), x, inside, finished);
    assert x.children + inside.under == inside.under;
    var s1 := OnCall(s, f, started, directory);
    assert s1.stack[..|s1.stack| - 1] == s.stack;
  }

  lemma CallIsSound(s: State, f: Activation, time: string, directory: string)
    requires Sound(s) && !Filtered(f)
    ensures var s1 := OnCall(s, f, time, directory);
      && Sound(s1)
      && var library := InLibrary(f.source, directory);
         CallerOn(s1.stack) == if IsDropped(CallerOn(s.stack), library) then Dropped else Kept(library)
  {
  }

  /** Running a well-nested trace from any state the hooks can reach leaves the stack as it was and
      adds exactly the specified keywords: some under the caller, some as roots. */
  lemma {:induction false} RunRecordsForest(s: State, calls: Calls, directory: string)
    requires Sound(s)
    ensures Records(s, Run(s, Trace(calls), directory), Forest(calls, CallerOn(s.stack), directory))
    decreases calls
  {
    if calls.Done? {
      GrowNothing(s.roots, Target(s.stack));
      return;
    }
    var Then(f, started, finished, inner, rest) := calls;
    RunThen(s, calls, directory);
    var s1 := OnCall(s, f, started, directory);
    if !Filtered(f) {
      CallIsSound(s, f, started, directory);
    }
    RunRecordsForest(s1, inner, directory);
    var s2 := Run(s1, Trace(inner), directory);
    var inside := Forest(inner, CallerOn(s1.stack), directory);
    var s3 := OnReturn(s2, f, finished);
    var here := Here(calls, CallerOn(s.stack), directory);
    assert Records(s, s3, here) by {
      if !Filtered(f) {
        if IsDropped(CallerOn(s.stack), InLibrary(f.source, directory)) {
          DroppedCallRecords(s, f, started, finished, s2, inside, directory);
        } else {
          KeptCallRecords(s, f, started, finished, s2, inside, directory);
        }
      }
    }
    RunRecordsForest(s3, rest, directory);
    RecordsJoin(s, s3, Run(s3, Trace(rest), directory), here, Forest(rest, CallerOn(s.stack), directory));
  }

  lemma {:induction false} ForestFinished(calls: Calls, caller: Caller, directory: string)
    ensures var r := Forest(calls, caller, directory); AllFinished(r.under) && AllFinished(r.roots)
    decreases calls
  {
    if calls.Then? {
      var here, after := Here(calls, caller, directory), Forest(calls.rest, caller, directory);
      ForestFinished(calls.rest, caller, directory);
      assert AllFinished(here.under) && AllFinished(here.roots) by {
        if Filtered(calls.f) {
          ForestFinished(calls.inner, caller, directory);
        } else if IsDropped(caller, InLibrary(calls.f.source, directory)) {
          ForestFinished(calls.inner, Dropped, directory);
        } else {
          ForestFinished(calls.inner, Kept(InLibrary(calls.f.source, directory)), directory);
        }
      }
      AllFinishedConcat(here.under, after.under);
      AllFinishedConcat(here.roots, after.roots);
    }
  }

  // ----- nothing is lost and nothing is recorded twice -----

  /** Where a function was declared. */
  datatype Site = Site(name: Option<string>, file: string, line: int)

  /** How many keywords of a forest were declared at a site. */
  function Recordings(ks: seq<Keyword>, site: Site): nat
    decreases ks
  {
    if ks == [] then 0
    else
      var here := if ks[0].name == site.name && ks[0].file == Some(site.file) && ks[0].line == site.line then 1 else 0;
      here + Recordings(ks[0].children, site) + Recordings(ks[1..], site)
  }

  /** How many calls of a run are named Lua calls to the site, not made by library code to library
      code. */
  function CallsTo(calls: Calls, caller: Caller, directory: string, site: Site): nat {
    match calls
    case Done => 0
    case Then(f, _, _, inner, rest) =>
      var library := InLibrary(f.source, directory);
      (if Filtered(f) then CallsTo(inner, caller, directory, site)
       else if IsDropped(caller, library) then CallsTo(inner, Dropped, directory, site)
       else (if Site(f.name, f.source, f.line) == site then 1 else 0) + CallsTo(inner, Kept(library), directory, site))
      + CallsTo(rest, caller, directory, site)
  }

  lemma {:induction false} RecordingsConcat(a: seq<Keyword>, b: seq<Keyword>, site: Site)
    ensures Recordings(a + b, site) == Recordings(a, site) + Recordings(b, site)
  {
    if a == [] {
      assert a + b == b;
    } else {
      assert (a + b)[1..] == a[1..] + b;
      RecordingsConcat(a[1..], b, site);
    }
  }

  /** Every call that is not dropped is recorded exactly once, somewhere in the forest. */
  lemma {:induction false} ForestIsComplete(calls: Calls, caller: Caller, directory: string, site: Site)
    ensures var r := Forest(calls, caller, directory);
      Recordings(r.under, site) + Recordings(r.roots, site) == CallsTo(calls, caller, directory, site)
    decreases calls
  {
    if calls.Then? {
      var here, after, f := Here(calls, caller, directory), Forest(calls.rest, caller, directory), calls.f;
      RecordingsConcat(here.under, after.under, site);
      RecordingsConcat(here.roots, after.roots, site);
      ForestIsComplete(calls.rest, caller, directory, site);
      var library := InLibrary(f.source, directory);
      if Filtered(f) {
        ForestIsComplete(calls.inner, caller, directory, site);
      } else if IsDropped(caller, library) {
        ForestIsComplete(calls.inner, Dropped, directory, site);
      } else {
        ForestIsComplete(calls.inner, Kept(library), directory, site);
        var inside := Forest(calls.inner, Kept(library), directory);
        var keyword := (here.under + here.roots)[0];
        assert Recordings([keyword], site)
            == (if Site(f.name, f.source, f.line) == site then 1 else 0) + Recordings(inside.under, site);
        RecordingsConcat([keyword], inside.roots, site);
      }
    }
  }
}
