/** What normalising an absolute path means: split it into segments, let "." stand for nothing and
    ".." for taking back the last segment (nothing at the root), and write the rest with single
    slashes.  The two C implementations, in PathRewrite, are both proved against it. */
module Paths {
  import opened Text

  function Segments(path: string): seq<string> {
    Tokens(path, '/')
  }

  /** The directory stack after walking the segments from `stack`. */
  function Resolve(segments: seq<string>, stack: seq<string>): seq<string>
    decreases segments
  {
    if segments == [] then stack else Resolve(segments[1..], Enter(stack, segments[0]))
  }

  function Enter(stack: seq<string>, segment: string): seq<string> {
    if segment == "." then stack
    else if segment == ".." then (if stack == [] then stack else stack[..|stack| - 1])
    else stack + [segment]
  }

  /** Every segment with a slash in front. */
  function Joined(stack: seq<string>): string {
    if stack == [] then "" else Joined(stack[..|stack| - 1]) + "/" + stack[|stack| - 1]
  }

  function Render(stack: seq<string>): string {
    if stack == [] then "/" else Joined(stack)
  }

  function Normalize(path: string): string {
    Render(Resolve(Segments(path), []))
  }

  predicate IsAbsolute(path: string) {
    path != [] && path[0] == '/'
  }

  /** A name, as opposed to "." and "..". */
  predicate Proper(segment: string) {
    Plain(segment, '/') && segment != "." && segment != ".."
  }

  predicate AllProper(stack: seq<string>) {
    forall i | 0 <= i < |stack| :: Proper(stack[i])
  }

  /** The canonical form: absolute, no slash at the end unless it is the root, no two slashes in a
      row, no "." and no "..". */
  predicate IsCanonical(path: string) {
    path == "/" ||
    (&& IsAbsolute(path)
     && path[|path| - 1] != '/'
     && (forall i | 0 <= i < |path| - 1 :: !(path[i] == '/' && path[i + 1] == '/'))
     && AllProper(Segments(path)))
  }

  // ----- facts about the pieces -----

  lemma JoinedPush(stack: seq<string>, segment: string)
    ensures Joined(stack + [segment]) == Joined(stack) + "/" + segment
  {
    assert (stack + [segment])[..|stack|] == stack;
  }

  lemma {:induction false} JoinedFront(segment: string, stack: seq<string>)
    ensures Joined([segment] + stack) == "/" + segment + Joined(stack)
    decreases stack
  {
    if stack == [] {
      assert [segment] + stack == [segment];
      JoinedPush([], segment);
    } else {
      var last := stack[|stack| - 1];
      assert [segment] + stack == ([segment] + stack[..|stack| - 1]) + [last];
      JoinedPush([segment] + stack[..|stack| - 1], last);
      JoinedFront(segment, stack[..|stack| - 1]);
    }
  }

  lemma EnterProper(stack: seq<string>, segment: string)
    requires AllProper(stack) && Plain(segment, '/')
    ensures AllProper(Enter(stack, segment))
  {
  }

  lemma {:induction false} ResolveProper(segments: seq<string>, stack: seq<string>)
    requires AllProper(stack) && forall t | t in segments :: Plain(t, '/')
    ensures AllProper(Resolve(segments, stack))
    decreases segments
  {
    if segments != [] {
      EnterProper(stack, segments[0]);
      ResolveProper(segments[1..], Enter(stack, segments[0]));
    }
  }

  /** Proper segments are pushed one after the other. */
  lemma {:induction false} ResolveAllProper(segments: seq<string>, stack: seq<string>)
    requires AllProper(segments)
    ensures Resolve(segments, stack) == stack + segments
    decreases segments
  {
    if segments != [] {
      ResolveAllProper(segments[1..], stack + [segments[0]]);
    }
  }

  lemma {:induction false} ResolveConcat(a: seq<string>, b: seq<string>, stack: seq<string>)
    ensures Resolve(a + b, stack) == Resolve(b, Resolve(a, stack))
    decreases a
  {
    if a == [] {
      assert a + b == b;
    } else {
      assert (a + b)[1..] == a[1..] + b;
      ResolveConcat(a[1..], b, Enter(stack, a[0]));
    }
  }

  /** Splitting what was joined gives the segments back. */
  lemma {:induction false} SegmentsOfJoined(stack: seq<string>)
    requires AllProper(stack)
    ensures Segments(Joined(stack)) == stack
    decreases stack
  {
    if stack != [] {
      var front, last := stack[..|stack| - 1], stack[|stack| - 1];
      SegmentsOfJoined(front);
      TokensConcat(Joined(front), last, '/');
      TokensFirst(last, "", '/');
      assert last + "" == last;
    }
  }

  lemma SegmentsOfRender(stack: seq<string>)
    requires AllProper(stack)
    ensures Segments(Render(stack)) == stack
  {
    SegmentsOfJoined(stack);
    assert "/"[1..] == "";
  }

  lemma NormalizeSegments(path: string)
    ensures AllProper(Resolve(Segments(path), []))
    ensures Segments(Normalize(path)) == Resolve(Segments(path), [])
  {
    TokensArePlain(path, '/');
    ResolveProper(Segments(path), []);
    SegmentsOfRender(Resolve(Segments(path), []));
  }

  lemma {:induction false} JoinedIsTidy(stack: seq<string>)
    requires AllProper(stack) && stack != []
    ensures var s := Joined(stack);
      && IsAbsolute(s) && s[|s| - 1] != '/'
      && forall i | 0 <= i < |s| - 1 :: !(s[i] == '/' && s[i + 1] == '/')
    decreases stack
  {
    var front, last := stack[..|stack| - 1], stack[|stack| - 1];
    var s := Joined(stack);
    assert s == Joined(front) + "/" + last;
    var n := |Joined(front)|;
    assert last[|last| - 1] in last;
    forall i | n <= i < |s| - 1 ensures !(s[i] == '/' && s[i + 1] == '/') {
      assert s[i + 1] == last[i - n] && last[i - n] in last;
    }
    if front != [] {
      JoinedIsTidy(front);
      assert forall i | 0 <= i < n :: s[i] == Joined(front)[i];
    }
  }

  /** A tidy path is what its segments join to. */
  lemma {:induction false} JoinedSegments(path: string)
    requires path == [] || (IsAbsolute(path) && path[|path| - 1] != '/')
    requires forall i | 0 <= i < |path| - 1 :: !(path[i] == '/' && path[i + 1] == '/')
    ensures Joined(Segments(path)) == path
    decreases |path|
  {
    if path == [] {
      return;
    }
    var rest := path[1..];
    assert rest != [] && rest[0] == path[1];
    var n := Span(rest, '/');
    var after := rest[n..];
    assert Segments(path) == Segments(rest) == [rest[..n]] + Segments(after);
    hide Segments, Tokens, Span, Joined;
    assert forall i | 0 <= i < |after| :: after[i] == path[1 + n + i];
    JoinedSegments(after);
    JoinedFront(rest[..n], Segments(after));
    assert path == "/" + rest[..n] + after;
  }

  // ----- the laws -----

  /** Normalising yields the canonical form, and exactly the canonical paths are left alone. */
  lemma NormalizeCanonical(path: string)
    ensures IsCanonical(Normalize(path))
    ensures Normalize(path) == path <==> IsCanonical(path)
  {
    NormalizeSegments(path);
    var stack := Resolve(Segments(path), []);
    if stack != [] {
      JoinedIsTidy(stack);
    }
    assert "/"[1..] == "";
    if IsCanonical(path) && path != "/" {
      ResolveAllProper(Segments(path), []);
      JoinedSegments(path);
      assert [] + Segments(path) == Segments(path);
    }
  }

  lemma NormalizeIdempotent(path: string)
    ensures Normalize(Normalize(path)) == Normalize(path)
  {
    NormalizeCanonical(path);
    NormalizeCanonical(Normalize(path));
  }

  /** Normalising the first part of a path first changes nothing. */
  lemma NormalizeJoin(a: string, b: string)
    ensures Normalize(Normalize(a) + "/" + b) == Normalize(a + "/" + b)
  {
    NormalizeSegments(a);
    var stack := Resolve(Segments(a), []);
    TokensConcat(a, b, '/');
    TokensConcat(Normalize(a), b, '/');
    ResolveConcat(Segments(a), Segments(b), []);
    ResolveConcat(stack, Segments(b), []);
    ResolveAllProper(stack, []);
    assert [] + stack == stack;
  }

  lemma {:induction false} ResolveShrinks(segments: seq<string>, stack: seq<string>)
    ensures |Joined(Resolve(segments, stack))| <= |Joined(stack)| + |Joined(segments)|
    decreases segments
  {
    if segments != [] {
      assert segments == [segments[0]] + segments[1..];
      JoinedFront(segments[0], segments[1..]);
      JoinedPush(stack, segments[0]);
      ResolveShrinks(segments[1..], Enter(stack, segments[0]));
    }
  }

  lemma {:induction false} SegmentsShrink(path: string)
    ensures |Joined(Segments(path))| <= |path| + 1
    ensures IsAbsolute(path) || path == [] ==> |Joined(Segments(path))| <= |path|
    decreases |path|
  {
    if path != [] {
      if path[0] == '/' {
        SegmentsShrink(path[1..]);
      } else {
        var n := Span(path, '/');
        SegmentsShrink(path[n..]);
        JoinedFront(path[..n], Segments(path[n..]));
      }
    }
  }

  /** The normal form of an absolute path is never longer than the path. */
  lemma NormalizeShrinks(path: string)
    requires IsAbsolute(path)
    ensures |Normalize(path)| <= |path|
  {
    ResolveShrinks(Segments(path), []);
    SegmentsShrink(path);
  }

  // ----- what "/", ".", ".." and a name at the end of a path do to its normal form -----

  lemma WalkLast(a: string, segment: string)
    requires Plain(segment, '/')
    ensures Resolve(Segments(a + "/" + segment), []) == Enter(Resolve(Segments(a), []), segment)
  {
    TokensConcat(a, segment, '/');
    TokensFirst(segment, "", '/');
    assert segment + "" == segment;
    assert Segments(segment) == [segment];
    ResolveConcat(Segments(a), [segment], []);
    assert [segment][1..] == [];
  }

  lemma NormalizeRoot()
    ensures Normalize("/") == "/" && Normalize("/..") == "/"
  {
    assert "/"[1..] == "" && "/.." == "" + "/" + "..";
    WalkLast("", "..");
  }

  lemma NormalizeSlash(a: string)
    ensures Normalize(a + "/") == Normalize(a)
  {
    assert a + "/" == a + "/" + "";
    TokensConcat(a, "", '/');
    assert Segments(a) + [] == Segments(a);
  }

  lemma NormalizeDot(a: string)
    ensures Normalize(a + "/.") == Normalize(a)
  {
    assert a + "/." == a + "/" + ".";
    WalkLast(a, ".");
  }

  lemma NormalizeName(a: string, name: string)
    requires name != "" && '/' !in name && name != "." && name != ".."
    ensures Normalize(a + "/" + name) == (if Normalize(a) == "/" then "" else Normalize(a)) + "/" + name
  {
    WalkLast(a, name);
    NormalizeSegments(a);
    var stack := Resolve(Segments(a), []);
    JoinedPush(stack, name);
    if stack != [] {
      JoinedIsTidy(stack);
    }
  }

  /** ".." takes back the name before it. */
  lemma NormalizeUp(a: string, name: string)
    requires name != "" && '/' !in name && name != "." && name != ".."
    ensures Normalize(a + "/" + name + "/..") == Normalize(a)
  {
    assert a + "/" + name + "/.." == a + "/" + name + "/" + "..";
    WalkLast(a, name);
    WalkLast(a + "/" + name, "..");
    var stack := Resolve(Segments(a), []);
    assert (stack + [name])[..|stack|] == stack;
  }

  /** After any path ".." cuts the normal form at its last slash, and leaves the root as it is. */
  lemma NormalizeParent(a: string, front: string, name: string)
    requires Normalize(a) == front + "/" + name && '/' !in name
    ensures Normalize(a + "/..") == if front == "" then "/" else front
  {
    assert a + "/.." == a + "/" + "..";
    WalkLast(a, "..");
    NormalizeSegments(a);
    var stack := Resolve(Segments(a), []);
    if stack == [] {
      assert |front + "/" + name| == 1;
      return;
    }
    var before, last := stack[..|stack| - 1], stack[|stack| - 1];
    assert Joined(before) + "/" + last == front + "/" + name;
    LastSlash(Joined(before), last, front, name);
    if before != [] {
      JoinedIsTidy(before);
    }
  }

  lemma LastSlash(a: string, b: string, c: string, d: string)
    requires a + "/" + b == c + "/" + d && '/' !in b && '/' !in d
    ensures a == c && b == d
  {
    var s := a + "/" + b;
    assert s[|a|] == '/' && s[|c|] == '/';
    assert s[..|a|] == a && s[..|c|] == c && s[|a| + 1..] == b && s[|c| + 1..] == d;
  }
}
