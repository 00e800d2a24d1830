/** From the calls of a test to what `ltf logs info` draws: recorded, written to the raw log, read back
    and printed. */
module KeywordLog {
  import opened Keywords
  import opened KeywordStatus
  import opened KeywordForest
  import opened KeywordPointers
  import opened StateConverters
  import opened StateJson
  import opened LogsPrinter

  /** Line numbers fit the C int they are kept in. */
  predicate LinesFit(calls: Calls) {
    calls.Done? || (IsInt32(calls.f.line) && LinesFit(calls.inner) && LinesFit(calls.rest))
  }

  lemma {:induction false} StoredConcat(a: seq<Keyword>, b: seq<Keyword>)
    ensures KeywordsStored(a + b) <==> KeywordsStored(a) && KeywordsStored(b)
  {
    if a == [] {
      assert a + b == b;
    } else {
      assert (a + b)[1..] == a[1..] + b;
      StoredConcat(a[1..], b);
    }
  }

  lemma {:induction false} ForestStored(calls: Calls, caller: Caller, directory: string)
    requires LinesFit(calls)
    ensures var r := Forest(calls, caller, directory); KeywordsStored(r.under) && KeywordsStored(r.roots)
    decreases calls
  {
    if calls.Then? {
      var here, after := Here(calls, caller, directory), Forest(calls.rest, caller, directory);
      ForestStored(calls.rest, caller, directory);
      assert KeywordsStored(here.under) && KeywordsStored(here.roots) by {
        if Filtered(calls.f) {
          ForestStored(calls.inner, caller, directory);
        } else if IsDropped(caller, InLibrary(calls.f.source, directory)) {
          ForestStored(calls.inner, Dropped, directory);
        } else {
          ForestStored(calls.inner, Kept(InLibrary(calls.f.source, directory)), directory);
        }
      }
      StoredConcat(here.under, after.under);
      StoredConcat(here.roots, after.roots);
    }
  }

  /** The text of a forest: every keyword once, in preorder, its block told by its place. */
  ghost predicate Draws(text: string, forest: seq<Keyword>) {
    var paths := Preorder(forest, [], 0);
    && (forall p :: p in paths <==> p != [] && ValidPath(forest, p))
    && Sorted(paths)
    && text == Blocks(forest, paths)
  }

  lemma RenderDraws(forest: seq<Keyword>)
    ensures Draws(Render(forest, 0, []), forest)
  {
    TreeIsBlocks(forest);
    forall p ensures p in Preorder(forest, [], 0) <==> p != [] && ValidPath(forest, p) {
      EveryNodeOnce(forest, p);
    }
    EveryNodeOnce(forest, []);
  }

  /** The hooks see the calls of a test. */
  method Record(recorder: Recorder, events: seq<Event>)
    requires Valid(recorder.Value())
    modifies recorder
    ensures recorder.Value() == Run(old(recorder.Value()), events, recorder.libraryDirectory)
  {
    hide OnCall, OnReturn;
    ghost var directory := recorder.libraryDirectory;
    for i := 0 to |events|
      invariant Valid(recorder.Value())
      invariant Run(old(recorder.Value()), events, directory) == Run(recorder.Value(), events[i..], directory)
    {
      assert events[i..][1..] == events[i + 1..];
      match events[i] {
        case Called(f, time) => recorder.CallHook(f, time);
        case Returned(f, time) => recorder.RetHook(f, time);
      }
    }
  }

  /** What is drawn for a test whose keyword arrays stay put under the recorder's pointers is its forest
      of calls; `fault` says that a stale pointer has been followed. */
  method DrawCalls(calls: Calls, directory: string) returns (text: string, fault: bool)
    requires LinesFit(calls)
    ensures Draws(text, Forest(calls, NoCaller, directory).roots)
    ensures fault <==> !FitsInRoom(calls, 0, directory)
  {
    hide Run, Forest, FitsInRoom, Trace, Render, KeywordsToJson, KeywordsFromJson, Draws;
    var recorder := new Recorder(directory);
    ghost var idle := recorder.Value();
    recorder.Started();
    Record(recorder, Trace(calls));
    TestRecordsForest(idle, calls, directory);
    var statuses := recorder.Finished();
    fault := recorder.fault;
    var items := KeywordsToArray(statuses);
    var loaded := ArrayToKeywords(items);
    ForestStored(calls, NoCaller, directory);
    KeywordsRoundTrip(statuses);
    var printer := new Printer();
    printer.PrintTree(loaded);
    text := printer.out;
    RenderDraws(statuses);
    assert "" + Render(statuses, 0, []) == Render(statuses, 0, []);
  }
}
