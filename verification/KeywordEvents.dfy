/** Every test, whatever events the hooks see: errors the test catches and tail calls leave calls open
    whose return never comes, so that later returns pop other entries than their own.  The recorder takes
    a return for that of the innermost open call; read that way, any events are those of a run that is
    cut off, and what is recorded is told by that run. */
module KeywordEvents {
  import opened Options
  import opened Keywords
  import opened KeywordStatus
  import opened KeywordForest
  import opened KeywordPointers
  import opened KeywordFaults
  import opened KeywordCutOff

  /** An open call, with the calls that returned before it. */
  datatype OpenCall = OpenCall(before: Calls, f: Activation, started: string)

  /** What has been read: the open calls, the innermost last, and the calls that returned inside it. */
  datatype Reading = Reading(pending: seq<OpenCall>, calls: Calls)

  function Followed(calls: Calls, last: Calls): Calls {
    match calls
    case Done => last
    case Then(f, started, finished, inner, rest) => Then(f, started, finished, inner, Followed(rest, last))
  }

  /** A call opens; a return closes the innermost open call, or nothing if there is none. */
  function ReadEvent(r: Reading, e: Event): Reading {
    match e
    case Called(f, time) => if Filtered(f) then r else Reading(r.pending + [OpenCall(r.calls, f, time)], Done)
    case Returned(f, time) =>
      if Filtered(f) || r.pending == [] then r
      else
        var OpenCall(before, g, started) := r.pending[|r.pending| - 1];
        Reading(r.pending[..|r.pending| - 1], Followed(before, Then(g, started, time, r.calls, Done)))
  }

  function ReadAll(events: seq<Event>): Reading {
    if events == [] then Reading([], Done)
    else ReadEvent(ReadAll(events[..|events| - 1]), events[|events| - 1])
  }

  function CutOf(r: Reading): Cut
    decreases |r.pending|
  {
    if r.pending == [] then Stop(r.calls)
    else
      var OpenCall(before, f, started) := r.pending[0];
      Open(before, f, started, CutOf(Reading(r.pending[1..], r.calls)))
  }

  /** The run the recorder takes the events for. */
  function ReadAs(events: seq<Event>): Cut {
    CutOf(ReadAll(events))
  }

  // ----- the events of that run -----

  lemma {:induction false} FollowedTrace(calls: Calls, last: Calls)
    ensures Trace(Followed(calls, last)) == Trace(calls) + Trace(last)
  {
    match calls
    case Done =>
      assert [] + Trace(last) == Trace(last);
    case Then(f, started, finished, inner, rest) =>
      FollowedTrace(rest, last);
      var front := [Called(f, started)] + Trace(inner) + [Returned(f, finished)];
      assert front + (Trace(rest) + Trace(last)) == front + Trace(rest) + Trace(last);
  }

  lemma CutOfFront(first: OpenCall, pending: seq<OpenCall>, calls: Calls)
    ensures CutTrace(CutOf(Reading([first] + pending, calls)))
         == Trace(first.before) + ([Called(first.f, first.started)] + CutTrace(CutOf(Reading(pending, calls))))
  {
    assert ([first] + pending)[1..] == pending;
  }

  /** The events that lead into the open calls. */
  function PendingTrace(pending: seq<OpenCall>): seq<Event> {
    if pending == [] then []
    else
      var last := pending[|pending| - 1];
      PendingTrace(pending[..|pending| - 1]) + Trace(last.before) + [Called(last.f, last.started)]
  }

  lemma PendingLast(pending: seq<OpenCall>, p: OpenCall)
    ensures PendingTrace(pending + [p]) == PendingTrace(pending) + Trace(p.before) + [Called(p.f, p.started)]
  {
    assert (pending + [p])[..|pending|] == pending;
  }

  lemma PendingFirstOnly(first: OpenCall)
    ensures PendingTrace([first]) == Trace(first.before) + [Called(first.f, first.started)] + PendingTrace([])
  {
    assert [first][..0] == [];
  }

  lemma {:induction false} PendingFirst(first: OpenCall, rest: seq<OpenCall>)
    ensures PendingTrace([first] + rest) == Trace(first.before) + [Called(first.f, first.started)] + PendingTrace(rest)
    decreases |rest|
  {
    hide *;
    if rest == [] {
      PendingFirstOnly(first);
      assert [first] + rest == [first];
      return;
    }
    var front, last := rest[..|rest| - 1], rest[|rest| - 1];
    assert rest == front + [last] && [first] + rest == [first] + front + [last];
    PendingLast([first] + front, last);
    PendingLast(front, last);
    PendingFirst(first, front);
    Regroup(Trace(first.before), [Called(first.f, first.started)], PendingTrace(front), Trace(last.before),
            [Called(last.f, last.started)]);
  }

  lemma Regroup<T>(a: seq<T>, b: seq<T>, c: seq<T>, d: seq<T>, e: seq<T>)
    ensures a + b + c + d + e == a + b + (c + d + e)
    ensures a + (b + (c + d)) == a + b + c + d
    ensures a + (b + (c + d + e + [])) == a + b + c + d + e
  {
  }

  lemma StopTrace(calls: Calls)
    ensures CutTrace(CutOf(Reading([], calls))) == PendingTrace([]) + Trace(calls)
  {
  }

  /** The events of the run that has been read. */
  lemma {:induction false} ReadingTrace(pending: seq<OpenCall>, calls: Calls)
    ensures CutTrace(CutOf(Reading(pending, calls))) == PendingTrace(pending) + Trace(calls)
    decreases |pending|
  {
    hide *;
    if pending == [] {
      StopTrace(calls);
      return;
    }
    var first, rest := pending[0], pending[1..];
    assert pending == [first] + rest;
    CutOfFront(first, rest, calls);
    PendingFirst(first, rest);
    ReadingTrace(rest, calls);
    Regroup(Trace(first.before), [Called(first.f, first.started)], PendingTrace(rest), Trace(calls), []);
  }

  lemma OneCallTrace(f: Activation, started: string, finished: string, inner: Calls)
    ensures Trace(Then(f, started, finished, inner, Done))
         == [Called(f, started)] + Trace(inner) + [Returned(f, finished)] + []
    ensures Trace(Done) == []
  {
  }

  lemma CallTrace(pending: seq<OpenCall>, p: OpenCall)
    ensures CutTrace(CutOf(Reading(pending + [p], Done)))
         == CutTrace(CutOf(Reading(pending, p.before))) + [Called(p.f, p.started)]
  {
    hide *;
    ReadingTrace(pending + [p], Done);
    ReadingTrace(pending, p.before);
    PendingLast(pending, p);
    OneCallTrace(p.f, "", "", Done);
  }

  lemma ReturnTrace(pending: seq<OpenCall>, p: OpenCall, calls: Calls, time: string)
    ensures var closed := Followed(p.before, Then(p.f, p.started, time, calls, Done));
      CutTrace(CutOf(Reading(pending, closed)))
      == CutTrace(CutOf(Reading(pending + [p], calls))) + [Returned(p.f, time)]
  {
    hide *;
    var last := Then(p.f, p.started, time, calls, Done);
    ReadingTrace(pending, Followed(p.before, last));
    ReadingTrace(pending + [p], calls);
    PendingLast(pending, p);
    FollowedTrace(p.before, last);
    OneCallTrace(p.f, p.started, time, calls);
    Regroup(PendingTrace(pending), Trace(p.before), [Called(p.f, p.started)], Trace(calls), [Returned(p.f, time)]);
  }

  // ----- both runs do the same -----

  predicate NoneFiltered(pending: seq<OpenCall>) {
    forall i | 0 <= i < |pending| :: !Filtered(pending[i].f)
  }

  lemma {:induction false} OpenAreRecorded(events: seq<Event>)
    ensures NoneFiltered(ReadAll(events).pending)
    decreases |events|
  {
    if events != [] {
      OpenAreRecorded(events[..|events| - 1]);
    }
  }

  lemma RunLast(s: State, front: seq<Event>, e: Event, directory: string)
    requires Valid(s)
    ensures Run(s, front + [e], directory) == Step(Run(s, front, directory), e, directory)
  {
    RunConcat(s, front, [e], directory);
    assert [e][1..] == [];
  }

  lemma NothingHappens(s: State, r: Reading, e: Event, directory: string)
    requires Valid(s) && s.running && (Filtered(e.f) || (e.Returned? && s.stack == []))
    ensures Step(s, e, directory) == s
  {
  }

  /** Whose return it is does not matter. */
  lemma AnyReturn(s: State, f: Activation, g: Activation, time: string)
    requires Valid(s) && !Filtered(f) && !Filtered(g)
    ensures OnReturn(s, f, time) == OnReturn(s, g, time)
  {
  }

  lemma {:induction false} RunsAsRead(s: State, events: seq<Event>, directory: string)
    requires Sound(s) && s.stack == []
    ensures Valid(s) && Run(s, events, directory) == Run(s, CutTrace(ReadAs(events)), directory)
    decreases |events|
  {
    hide *;
    SoundIsValid(s);
    if events == [] {
      NothingRead(events);
      return;
    }
    var front, e := events[..|events| - 1], events[|events| - 1];
    assert events == front + [e];
    RunsAsRead(s, front, directory);
    RunLast(s, front, e, directory);
    var r, s' := ReadAll(front), Run(s, front, directory);
    ReadLast(front, e);
    OpenAreRecorded(front);
    StaysRunning(s, front, directory);
    EventAsRead(s, s', r, e, directory);
  }

  lemma NothingRead(events: seq<Event>)
    requires events == []
    ensures CutTrace(ReadAs(events)) == events
  {
  }

  lemma ReadLast(front: seq<Event>, e: Event)
    ensures ReadAll(front + [e]) == ReadEvent(ReadAll(front), e)
    ensures ReadAs(front + [e]) == CutOf(ReadEvent(ReadAll(front), e)) && ReadAs(front) == CutOf(ReadAll(front))
  {
    assert (front + [e])[..|front|] == front;
  }

  lemma {:induction false} StaysRunning(s: State, events: seq<Event>, directory: string)
    requires Valid(s) && s.running
    ensures Run(s, events, directory).running
    decreases events
  {
    if events != [] {
      StaysRunning(Step(s, events[0], directory), events[1..], directory);
    }
  }

  /** Reading one more event is running it. */
  lemma EventAsRead(s: State, s': State, r: Reading, e: Event, directory: string)
    requires Sound(s) && s.stack == [] && Valid(s)
    requires s' == Run(s, CutTrace(CutOf(r)), directory) && s'.running && NoneFiltered(r.pending)
    ensures Step(s', e, directory) == Run(s, CutTrace(CutOf(ReadEvent(r, e))), directory)
  {
    if Filtered(e.f) {
      NothingHappens(s', r, e, directory);
    } else if e.Called? {
      CallTrace(r.pending, OpenCall(r.calls, e.f, e.time));
      RunLast(s, CutTrace(CutOf(r)), e, directory);
    } else if r.pending == [] {
      RunRecordsForest(s, r.calls, directory);
      NothingHappens(s', r, e, directory);
    } else {
      var n := |r.pending| - 1;
      var p := r.pending[n];
      assert r.pending == r.pending[..n] + [p];
      ReturnTrace(r.pending[..n], p, r.calls, e.time);
      RunLast(s, CutTrace(CutOf(r)), Returned(p.f, e.time), directory);
      AnyReturn(s', e.f, p.f, e.time);
    }
  }

  /** Every test, over any events at all: forest, stack, unfinished keywords, and exactly when a stale
      pointer has been followed. */
  lemma EveryTest(s: State, events: seq<Event>, directory: string)
    ensures var r, cut := Run(TestStarted(s), events, directory), ReadAs(events);
      var frames := OpenFrames(cut, NoCaller, directory);
      && r.roots == CutForest(cut, NoCaller, directory).roots
      && Stacks(r, 0, frames, directory) && |r.stack| == |frames|
      && Unfinished(r.roots) == RecordedFrames(frames)
      && (!s.fault ==> (r.fault <==> !CutFits(cut, NoCaller, Free, 0, directory)))
  {
    hide *;
    SteadyAtStart(s);
    SteadyIsSound(TestStarted(s));
    RunsAsRead(TestStarted(s), events, directory);
    TestCutOff(s, ReadAs(events), directory);
  }

  // ----- a tail call -----

  function Closed(f: Activation, started: string, finished: string, children: seq<Keyword>): Keyword
    requires !Filtered(f)
  {
    NewKeyword(f, started).(finished := Some(finished), children := children)
  }

  /** The hook events of h calling f, which calls g as its last act: f's frame is gone when g returns,
      and its own return never comes. */
  function TailCall(h: Activation, f: Activation, g: Activation): seq<Event> {
    [Called(h, "1"), Called(f, "2"), Called(g, "3"), Returned(g, "4"), Returned(h, "5")]
  }

  lemma TailCallRead(h: Activation, f: Activation, g: Activation)
    requires !Filtered(h) && !Filtered(f)
    ensures var called := if Filtered(g) then Done else Then(g, "3", "4", Done, Done);
      ReadAs(TailCall(h, f, g)) == Open(Done, h, "1", Stop(Then(f, "2", "5", called, Done)))
  {
    var ph, pf, pg := OpenCall(Done, h, "1"), OpenCall(Done, f, "2"), OpenCall(Done, g, "3");
    var e0: seq<Event> := [];
    var e1 := e0 + [Called(h, "1")];
    var e2 := e1 + [Called(f, "2")];
    var e3 := e2 + [Called(g, "3")];
    var e4 := e3 + [Returned(g, "4")];
    assert e4 + [Returned(h, "5")] == TailCall(h, f, g);
    StartRead();
    ReadLast(e0, Called(h, "1"));
    ReadLast(e1, Called(f, "2"));
    ReadLast(e2, Called(g, "3"));
    ReadLast(e3, Returned(g, "4"));
    ReadLast(e4, Returned(h, "5"));
    hide ReadAll;
    assert ReadAll(e2) == Reading([ph, pf], Done);
    assert [ph, pf, pg][..2] == [ph, pf] && [ph, pf][..1] == [ph] && [ph][1..] == [];
  }

  lemma StartRead()
    ensures ReadAll([]) == Reading([], Done)
  {
  }

  /** The return of h closes f, and h is never closed, whether or not the hooks see a name for g. */
  lemma TailCallLeavesOpen(s: State, h: Activation, f: Activation, g: Activation, directory: string)
    requires !Filtered(h) && !Filtered(f)
    requires !InLibrary(h.source, directory) && !InLibrary(f.source, directory) && !InLibrary(g.source, directory)
    ensures var called := if Filtered(g) then [] else [Closed(g, "3", "4", [])];
      Run(TestStarted(s), TailCall(h, f, g), directory).roots
      == [NewKeyword(h, "1").(children := [Closed(f, "2", "5", called)])]
  {
    EveryTest(s, TailCall(h, f, g), directory);
    TailCallRead(h, f, g);
    hide Run, ReadAs, InLibrary;
    var kept := Kept(false);
    var callG := if Filtered(g) then Done else Then(g, "3", "4", Done, Done);
    var called := if Filtered(g) then [] else [Closed(g, "3", "4", [])];
    var callF := Then(f, "2", "5", callG, Done);
    assert Forest(callG, kept, directory) == Recorded(called, []);
    assert Forest(callF, kept, directory) == Recorded([Closed(f, "2", "5", called)], []);
    assert CutForest(Stop(callF), kept, directory) == Forest(callF, kept, directory);
  }
}
