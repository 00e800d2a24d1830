/** The keyword recorder of src/keyword_status.c: Lua call and return hooks push and pop a stack and
    build a forest of keywords out of the calls made while a test runs.

    A keyword lives in a growable array (src/util/da.c), either the array of roots or its parent's
    array of children, and the stack keeps raw pointers to elements.  A pointer is modelled by the
    owner of the array (the path of the parent keyword, [] for the roots), the index, and the buffer
    it points into.  An array only ever grows here and each growth moves it to a larger buffer, so
    the capacity at the time names the buffer.  Following a pointer whose buffer has been replaced
    is undefined behaviour in C; the model notes it in `fault`, and its results speak about the
    program only while `fault` is false. */
module KeywordStatus {
  import opened Options
  import opened Keywords
  import opened DynArray
  import opened Text

  // ----- the recorder's state -----

  /** What lua_getinfo reports of a function: only named Lua functions are recorded. */
  datatype Activation = Activation(isLua: bool, name: Option<string>, source: string, line: int)

  datatype Event =
    | Called(f: Activation, time: string)
    | Returned(f: Activation, time: string)

  datatype Pointer = Pointer(owner: seq<nat>, index: nat, buffer: nat)
  {
    function Path(): seq<nat> {
      owner + [index]
    }
  }

  datatype Entry = Entry(keyword: Option<Pointer>, ignored: bool, library: bool)

  datatype State = State(running: bool, roots: seq<Keyword>, stack: seq<Entry>, fault: bool)

  /** Room every keyword array is created with. */
  const ROOM := 10

  /** The capacity of a keyword array holding n elements; it names the buffer they are in. */
  function Buffer(n: nat): nat {
    Grown(ROOM, n)
  }

  predicate Filtered(f: Activation) {
    !f.isLua || f.name.None?
  }

  /** strstr(source, directory) finds something. */
  predicate InLibrary(source: string, directory: string) {
    Contains(source, directory)
  }

  predicate ValidPath(ks: seq<Keyword>, path: seq<nat>)
    decreases path
  {
    path == [] || (path[0] < |ks| && ValidPath(ks[path[0]].children, path[1..]))
  }

  /** The array owned by the keyword at `path`; the empty path owns the roots. */
  function Children(ks: seq<Keyword>, path: seq<nat>): seq<Keyword>
    requires ValidPath(ks, path)
    decreases path
  {
    if path == [] then ks else Children(ks[path[0]].children, path[1..])
  }

  datatype Edit = Adopt(more: seq<Keyword>) | Finish(time: string)
  {
    function Apply(k: Keyword): Keyword {
      match this
      case Adopt(more) => k.(children := k.children + more)
      case Finish(time) => k.(finished := Some(time))
    }
  }

  /** Writing through a pointer: the forest with the keyword at `path` edited. */
  function EditAt(ks: seq<Keyword>, path: seq<nat>, e: Edit): (r: seq<Keyword>)
    requires path != [] && ValidPath(ks, path)
    ensures |r| == |ks|
    decreases path
  {
    var k := ks[path[0]];
    if |path| == 1 then ks[path[0] := e.Apply(k)]
    else ks[path[0] := k.(children := EditAt(k.children, path[1..], e))]
  }

  /** Appending to the array owned by the keyword at `owner`. */
  function AppendTo(ks: seq<Keyword>, owner: seq<nat>, more: seq<Keyword>): seq<Keyword>
    requires ValidPath(ks, owner)
  {
    if owner == [] then ks + more else EditAt(ks, owner, Adopt(more))
  }

  /** The buffer a pointer was taken in is still the one its array uses. */
  predicate Live(ks: seq<Keyword>, p: Pointer)
    requires ValidPath(ks, p.Path())
  {
    OwnerValid(ks, p.owner, p.index);
    p.buffer == Buffer(|Children(ks, p.owner)|)
  }

  // ----- the hooks as functions of the state -----

  /** Every pointer on the stack leads to a recorded keyword. */
  ghost predicate PointersValid(s: State) {
    forall i | 0 <= i < |s.stack| ::
      && (s.stack[i].ignored <==> s.stack[i].keyword.None?)
      && (s.stack[i].keyword.Some? ==> ValidPath(s.roots, s.stack[i].keyword.value.Path()))
  }

  ghost predicate Valid(s: State) {
    s.running ==> PointersValid(s)
  }

  function TestStarted(s: State): State {
    s.(running := true, roots := [], stack := [])
  }

  function TestFinished(s: State): State {
    s.(running := false, roots := [])
  }

  function NewKeyword(f: Activation, time: string): Keyword
    requires !Filtered(f)
  {
    Keyword(f.name, Some(f.source), f.line, Some(time), None, [])
  }

  /** A frame is dropped when it and the frame below it on the stack are both library code. */
  predicate Drops(stack: seq<Entry>, library: bool) {
    stack != [] && stack[|stack| - 1].library && library
  }

  /** Which array a new keyword goes to: the caller's children, or the roots when there is no
      caller or the caller was dropped. */
  function Target(stack: seq<Entry>): seq<nat> {
    if stack != [] && stack[|stack| - 1].keyword.Some? then stack[|stack| - 1].keyword.value.Path() else []
  }

  function OnCall(s: State, f: Activation, time: string, directory: string): (r: State)
    requires Valid(s)
    ensures Valid(r)
  {
    if !s.running || Filtered(f) then s
    else
      var library := InLibrary(f.source, directory);
      if Drops(s.stack, library) then
        s.(stack := s.stack + [Entry(None, true, library)])
      else
        var owner := Target(s.stack);
        var n := |Children(s.roots, owner)|;
        var roots := AppendTo(s.roots, owner, [NewKeyword(f, time)]);
        AppendKeepsPaths(s, owner, NewKeyword(f, time));
        State(true, roots,
              s.stack + [Entry(Some(Pointer(owner, n, Buffer(n + 1))), false, library)],
              s.fault || (owner != [] && !Live(s.roots, s.stack[|s.stack| - 1].keyword.value)))
  }

  function OnReturn(s: State, f: Activation, time: string): (r: State)
    requires Valid(s)
    ensures Valid(r)
  {
    if !s.running || Filtered(f) || s.stack == [] then s
    else
      var top := s.stack[|s.stack| - 1];
      var rest := s.stack[..|s.stack| - 1];
      if top.ignored then s.(stack := rest)
      else
        var p := top.keyword.value;
        FinishKeepsPaths(s.(stack := rest), p.Path(), time);
        State(true, EditAt(s.roots, p.Path(), Finish(time)), rest, s.fault || !Live(s.roots, p))
  }

  function Step(s: State, e: Event, directory: string): (r: State)
    requires Valid(s)
    ensures Valid(r)
  {
    match e
    case Called(f, time) => OnCall(s, f, time, directory)
    case Returned(f, time) => OnReturn(s, f, time)
  }

  function Run(s: State, events: seq<Event>, directory: string): (r: State)
    requires Valid(s)
    ensures Valid(r)
    decreases events
  {
    if events == [] then s else Run(Step(s, events[0], directory), events[1..], directory)
  }

  // ----- facts about paths and edits -----

  lemma {:induction false} OwnerValid(ks: seq<Keyword>, owner: seq<nat>, index: nat)
    ensures ValidPath(ks, owner + [index]) <==> ValidPath(ks, owner) && index < |Children(ks, owner)|
    decreases owner
  {
    if owner == [] {
      assert (owner + [index])[1..] == [];
    } else {
      assert (owner + [index])[1..] == owner[1..] + [index];
      if owner[0] < |ks| {
        OwnerValid(ks[owner[0]].children, owner[1..], index);
      }
    }
  }

  /** A prefix of a valid path is valid. */
  lemma {:induction false} PrefixValid(ks: seq<Keyword>, p: seq<nat>, q: seq<nat>)
    requires p <= q && ValidPath(ks, q)
    ensures ValidPath(ks, p)
    decreases p
  {
    if p != [] {
      assert p[1..] <= q[1..];
      PrefixValid(ks[q[0]].children, p[1..], q[1..]);
    }
  }

  /** An edit leaves every path valid and changes the size of no array but the one it appends to. */
  lemma {:induction false} EditKeeps(ks: seq<Keyword>, path: seq<nat>, e: Edit, q: seq<nat>)
    requires path != [] && ValidPath(ks, path) && ValidPath(ks, q)
    ensures ValidPath(EditAt(ks, path, e), q)
    ensures e.Finish? || q != path
            ==> |Children(EditAt(ks, path, e), q)| == |Children(ks, q)|
    ensures e.Adopt? && q == path
            ==> Children(EditAt(ks, path, e), q) == Children(ks, q) + e.more
    decreases path
  {
    if q != [] && q[0] == path[0] {
      var k := ks[path[0]];
      if |path| == 1 {
        assert path == [path[0]];
        if |q| > 1 {
          assert e.Apply(k).children[..|k.children|] == k.children;
          assert q[1] < |k.children|;
          assert e.Apply(k).children[q[1]] == k.children[q[1]];
        } else {
          assert q == path;
        }
      } else {
        assert q[1..] == path[1..] ==> q == path by {
          assert q == [q[0]] + q[1..] && path == [path[0]] + path[1..];
        }
        EditKeeps(k.children, path[1..], e, q[1..]);
      }
    }
  }

  lemma {:induction false} RootAppendKeeps(ks: seq<Keyword>, more: seq<Keyword>, q: seq<nat>)
    requires ValidPath(ks, q)
    ensures ValidPath(ks + more, q)
    ensures q != [] ==> Children(ks + more, q) == Children(ks, q)
  {
  }

  lemma AppendKeeps(ks: seq<Keyword>, owner: seq<nat>, more: seq<Keyword>, q: seq<nat>)
    requires ValidPath(ks, owner) && ValidPath(ks, q)
    ensures ValidPath(AppendTo(ks, owner, more), q)
    ensures |Children(AppendTo(ks, owner, more), q)|
            == |Children(ks, q)| + if q == owner then |more| else 0
  {
    if owner == [] {
      RootAppendKeeps(ks, more, q);
    } else {
      EditKeeps(ks, owner, Adopt(more), q);
    }
  }

  lemma AppendKeepsPaths(s: State, owner: seq<nat>, x: Keyword)
    requires PointersValid(s) && ValidPath(s.roots, owner)
    ensures PointersValid(s.(roots := AppendTo(s.roots, owner, [x])))
    ensures ValidPath(AppendTo(s.roots, owner, [x]), owner + [|Children(s.roots, owner)|])
  {
    forall i | 0 <= i < |s.stack| && s.stack[i].keyword.Some?
      ensures ValidPath(AppendTo(s.roots, owner, [x]), s.stack[i].keyword.value.Path())
    {
      AppendKeeps(s.roots, owner, [x], s.stack[i].keyword.value.Path());
    }
    AppendKeeps(s.roots, owner, [x], owner);
    OwnerValid(AppendTo(s.roots, owner, [x]), owner, |Children(s.roots, owner)|);
  }

  lemma FinishKeepsPaths(s: State, path: seq<nat>, time: string)
    requires PointersValid(s) && path != [] && ValidPath(s.roots, path)
    ensures PointersValid(s.(roots := EditAt(s.roots, path, Finish(time))))
  {
    forall i | 0 <= i < |s.stack| && s.stack[i].keyword.Some?
      ensures ValidPath(EditAt(s.roots, path, Finish(time)), s.stack[i].keyword.value.Path())
    {
      EditKeeps(s.roots, path, Finish(time), s.stack[i].keyword.value.Path());
    }
  }

  /** Editing and appending roots commute. */
  lemma {:induction false} EditThenRoots(ks: seq<Keyword>, path: seq<nat>, e: Edit, more: seq<Keyword>)
    requires path != [] && ValidPath(ks, path)
    ensures ValidPath(ks + more, path)
    ensures EditAt(ks + more, path, e) == EditAt(ks, path, e) + more
  {
    RootAppendKeeps(ks, more, path);
  }

  /** Two appends to the same array are one. */
  lemma {:induction false} AdoptTwice(ks: seq<Keyword>, path: seq<nat>, a: seq<Keyword>, b: seq<Keyword>)
    requires path != [] && ValidPath(ks, path)
    ensures ValidPath(EditAt(ks, path, Adopt(a)), path)
    ensures EditAt(EditAt(ks, path, Adopt(a)), path, Adopt(b)) == EditAt(ks, path, Adopt(a + b))
    decreases path
  {
    var k := ks[path[0]];
    if |path| == 1 {
      assert k.children + a + b == k.children + (a + b);
    } else {
      AdoptTwice(k.children, path[1..], a, b);
    }
  }

  lemma {:induction false} AdoptNothing(ks: seq<Keyword>, path: seq<nat>)
    requires path != [] && ValidPath(ks, path)
    ensures EditAt(ks, path, Adopt([])) == ks
    decreases path
  {
    if |path| == 1 {
      assert ks[path[0]].children + [] == ks[path[0]].children;
    } else {
      AdoptNothing(ks[path[0]].children, path[1..]);
    }
  }

  /** Editing the element just appended is appending the edited element. */
  lemma {:induction false} EditNewest(ks: seq<Keyword>, owner: seq<nat>, x: Keyword, e: Edit)
    requires ValidPath(ks, owner)
    ensures var path := owner + [|Children(ks, owner)|];
      && ValidPath(AppendTo(ks, owner, [x]), path)
      && EditAt(AppendTo(ks, owner, [x]), path, e) == AppendTo(ks, owner, [e.Apply(x)])
    decreases owner
  {
    var n := |Children(ks, owner)|;
    if owner == [] {
      assert (owner + [n])[1..] == [];
    } else {
      var k := ks[owner[0]];
      assert (owner + [n])[1..] == owner[1..] + [n];
      EditNewest(k.children, owner[1..], x, e);
    }
  }

  // ----- the recorder itself -----

  class Recorder {
    const libraryDirectory: string
    var running: bool
    var roots: seq<Keyword>
    var stack: seq<Entry>
    var fault: bool

    function Value(): State
      reads this
    {
      State(running, roots, stack, fault)
    }

    constructor (directory: string)
      ensures Value() == State(false, [], [], false) && libraryDirectory == directory
    {
      libraryDirectory, running, roots, stack, fault := directory, false, [], [], false;
    }

    method Started()
      modifies this
      ensures Value() == TestStarted(old(Value()))
    {
      running := true;
      roots := [];
      stack := [];
    }

    /** Hands the forest over to the test's record. */
    method Finished() returns (statuses: seq<Keyword>)
      modifies this
      ensures statuses == old(roots) && Value() == TestFinished(old(Value()))
    {
      running := false;
      statuses := roots;
      roots := [];
    }

    method CallHook(f: Activation, time: string)
      requires Valid(Value())
      modifies this
      ensures Value() == OnCall(old(Value()), f, time, libraryDirectory)
    {
      if !running || !f.isLua || f.name.None? {
        return;
      }
      var parent: Option<Entry> := None;
      if |stack| > 0 {
        parent := Some(stack[|stack| - 1]);
      }
      var library := InLibrary(f.source, libraryDirectory);
      var ignored := parent.Some? && parent.value.library && library;
      var added: Option<Pointer> := None;
      if !ignored {
        var keyword := Keyword(f.name, Some(f.source), f.line, Some(time), None, []);
        if parent.Some? && parent.value.keyword.Some? {
          var p := parent.value.keyword.value;
          fault := fault || !Live(roots, p);
          var n := |Children(roots, p.Path())|;
          roots := EditAt(roots, p.Path(), Adopt([keyword]));
          added := Some(Pointer(p.Path(), n, Buffer(n + 1)));
        } else {
          roots := roots + [keyword];
          added := Some(Pointer([], |roots| - 1, Buffer(|roots|)));
        }
      }
      stack := stack + [Entry(added, ignored, library)];
    }

    method RetHook(f: Activation, time: string)
      requires Valid(Value())
      modifies this
      ensures Value() == OnReturn(old(Value()), f, time)
    {
      if !running || !f.isLua || f.name.None? || |stack| == 0 {
        return;
      }
      var entry := stack[|stack| - 1];
      stack := stack[..|stack| - 1];
      if !entry.ignored && entry.keyword.Some? {
        var p := entry.keyword.value;
        fault := fault || !Live(roots, p);
        roots := EditAt(roots, p.Path(), Finish(time));
      }
    }
  }
}
