/** The two path normalisers: normalize_abs_path_inplace of src/modules/ssh/ltf-ssh-sftp.c, which
    rewrites the buffer in place and remembers where each kept segment starts, and
    make_path_abs_lexical of src/modules/util/util.c, which collects segment pointers into a copy
    and rebuilds the path. */
module PathRewrite {
  import opened Text
  import opened Paths

  /** A kept segment in front of the write cursor, and where rewinding over it leads to. */
  ghost predicate Rewinds(starts: seq<nat>, stack: seq<string>) {
    && |starts| == |stack|
    && forall i | 0 <= i < |starts| :: starts[i] == |Render(stack[..i])|
  }

  lemma RenderPrefix(stack: seq<string>, segment: string)
    ensures stack != [] ==> Render(stack + [segment]) == Render(stack) + "/" + segment
    ensures Render([segment]) == "/" + segment
  {
    JoinedPush(stack, segment);
    JoinedPush([], segment);
  }

  predicate Name(segment: string) {
    Plain(segment, '/') && '\0' !in segment
  }

  /** Taking segments off shortens the rendering, only the empty stack renders as the root, and
      nothing else ends in a slash. */
  lemma RenderGrows(stack: seq<string>)
    requires forall t | t in stack :: Name(t)
    ensures 1 <= |Render(stack)| && (|Render(stack)| > 1 <==> stack != [])
    ensures stack != [] ==> 1 <= |Render(stack[..|stack| - 1])| && Render(stack[..|stack| - 1]) <= Render(stack)
    ensures stack != [] ==> Render(stack)[|Render(stack)| - 1] != '/'
    ensures '\0' !in Render(stack)
  {
    if stack != [] {
      var last := stack[|stack| - 1];
      assert last in stack;
      assert last[|last| - 1] in last;
      JoinedPush(stack[..|stack| - 1], last);
      RenderGrows(stack[..|stack| - 1]);
    }
  }

  lemma {:induction false} PushRewind(starts: seq<nat>, stack: seq<string>, segment: string)
    requires Rewinds(starts, stack)
    ensures Rewinds(starts + [|Render(stack)|], stack + [segment])
  {
    assert forall i | 0 <= i <= |stack| :: (stack + [segment])[..i] == stack[..i];
    assert stack[..|stack|] == stack;
  }

  lemma PopRewind(starts: seq<nat>, stack: seq<string>)
    requires Rewinds(starts, stack) && starts != []
    ensures |stack| == |starts| && starts[|starts| - 1] == |Render(stack[..|starts| - 1])|
    ensures Rewinds(starts[..|starts| - 1], stack[..|starts| - 1])
  {
    assert forall i | 0 <= i < |stack| :: stack[..|stack| - 1][..i] == stack[..i];
  }

  lemma ResolveHead(segment: string, rest: seq<string>, stack: seq<string>)
    ensures Resolve([segment] + rest, stack) == Resolve(rest, Enter(stack, segment))
  {
  }

  lemma ResolveEnd(segments: seq<string>, stack: seq<string>)
    requires segments == []
    ensures Resolve(segments, stack) == stack
  {
  }

  lemma NoSegments(input: string)
    ensures Segments(input[|input|..]) == []
  {
  }

  lemma SliceSplit(s: string, i: nat, j: nat)
    requires i <= j <= |s|
    ensures s[i..] == s[i..j] + s[j..]
  {
  }

  /** The scanning both functions do: over slashes, then over the segment behind them. */
  method NextSegment(input: string, from: nat) returns (start: nat, end: nat)
    requires from <= |input|
    ensures from <= start <= end <= |input|
    ensures start == end ==> start == |input| && Segments(input[from..]) == []
    ensures start < end ==>
      && Plain(input[start..end], '/')
      && Segments(input[from..]) == [input[start..end]] + Segments(input[end..])
    ensures end < |input| ==> input[end] == '/'
    ensures start < end && input[from] == '/' ==> from < start
    ensures from < start ==> input[start - 1] == '/'
  {
    hide Tokens;
    start := from;
    while start < |input| && input[start] == '/'
      invariant from <= start <= |input|
      invariant start > from ==> input[start - 1] == '/'
      invariant Segments(input[start..]) == Segments(input[from..])
    {
      TokensSkip(input[start..], '/');
      assert input[start..][1..] == input[start + 1..];
      start := start + 1;
    }
    end := start;
    while end < |input| && input[end] != '/'
      invariant start <= end <= |input|
      invariant '/' !in input[start..end]
    {
      end := end + 1;
    }
    if start < end {
      SliceSplit(input, start, end);
      TokensFirst(input[start..end], input[end..], '/');
    } else {
      NoSegments(input);
    }
  }

  /** memcpy of a segment to the write cursor. */
  method Copy(s: array<char>, w: nat, segment: string)
    requires w + |segment| <= s.Length
    modifies s
    ensures s[..w + |segment|] == old(s[..w]) + segment
  {
    forall i | 0 <= i < |segment| {
      s[w + i] := segment[i];
    }
  }

  /** Writes a kept segment behind the cursor, and says where rewinding over it leads to. */
  method PushSegment(s: array<char>, w: nat, segment: string, ghost stack: seq<string>)
    returns (point: nat, next: nat)
    requires forall t | t in stack :: Name(t)
    requires w <= s.Length && s[..w] == Render(stack)
    requires w + (if w > 1 then 1 else 0) + |segment| <= s.Length
    modifies s
    ensures point == |Render(stack)|
    ensures next == w + (if w > 1 then 1 else 0) + |segment|
    ensures s[..next] == Render(stack + [segment])
  {
    RenderGrows(stack);
    RenderPrefix(stack, segment);
    next := w;
    if w > 1 {
      s[next] := '/';
      next := next + 1;
    }
    point := if next > 1 then next - 1 else 1;
    ghost var before := s[..next];
    assert before == if stack == [] then "/" else Render(stack) + "/";
    Copy(s, next, segment);
    next := next + |segment|;
  }

  /** Without its last segment the rendering ends before its last slash, or at the root. */
  lemma RenderCut(stack: seq<string>)
    requires stack != [] && forall t | t in stack :: Name(t)
    ensures var text, cut := Render(stack), |Render(stack[..|stack| - 1])|;
      cut < |text| && '/' !in text[cut + 1..] && if cut > 1 then text[cut] == '/' else text[1] != '/'
  {
    var front, last := stack[..|stack| - 1], stack[|stack| - 1];
    assert last in stack && last[0] in last;
    RenderPrefix(front, last);
    RenderGrows(front);
    assert stack == front + [last];
    if front == [] {
      assert Render(stack)[2..] == last[1..];
    } else {
      assert Render(stack)[|Render(front)| + 1..] == last;
    }
  }

  /** Takes back the last segment, if there is one: the text is cut at its last slash. */
  method Rewind(s: array<char>, w: nat, starts: seq<nat>, ghost stack: seq<string>)
    returns (w': nat, starts': seq<nat>, ghost stack': seq<string>)
    requires Rewinds(starts, stack) && |starts| == |stack| && forall t | t in stack :: Name(t)
    requires 1 <= w <= s.Length && s[..w] == Render(stack)
    ensures stack' == Enter(stack, "..")
    ensures Rewinds(starts', stack') && |starts'| == |stack'| && forall t | t in stack' :: Name(t)
    ensures 1 <= w' <= w && s[..w'] == Render(stack')
    ensures w == 1 ==> w' == 1
    ensures w > 1 ==> w' < w && '/' !in s[w' + 1..w] && if w' > 1 then s[w'] == '/' else s[1] != '/'
  {
    hide Rewinds, Render;
    RenderGrows(stack);
    if |starts| > 0 {
      var top := |starts| - 1;
      PopRewind(starts, stack);
      w', starts', stack' := starts[top], starts[..top], stack[..top];
      assert s[..w'] == s[..w][..w'];
      RenderCut(stack);
      assert s[w' + 1..w] == s[..w][w' + 1..] && s[..w][w'] == s[w'] && s[..w][1] == s[1];
    } else {
      w', starts', stack' := 1, starts, stack;
    }
  }

  method Terminate(s: array<char>, w: nat, ghost stack: seq<string>)
    requires forall t | t in stack :: Name(t)
    requires w < s.Length && s[..w] == Render(stack)
    modifies s
    ensures Terminated(s[..]) && CString(s[..]) == Render(stack)
  {
    s[w] := '\0';
    // The trailing slash the C code still looks for is never there.
    RenderGrows(stack);
    assert w > 1 ==> s[w - 1] == Render(stack)[w - 1] != '/';
    assert s[..][..w] == s[..w] && s[..][w] == '\0';
    CStringIs(s[..], w);
  }

  method NormalizeInPlace(s: array<char>)
    requires Terminated(s[..])
    modifies s
    ensures Terminated(s[..])
    ensures var before := old(CString(s[..]));
      CString(s[..]) == if IsAbsolute(before) then Normalize(before) else before
  {
    if s[0] != '/' {
      return;
    }
    var input := CString(s[..]);
    var n := |input|;
    var starts: seq<nat> := [];
    ghost var stack: seq<string> := [];
    assert Rewinds(starts, stack) && Render(stack) == "/";
    hide Rewinds, Render, Tokens, Resolve;
    var r, w := 1, 1;
    assert Segments(input) == Segments(input[1..]) by {
      TokensSkip(input, '/');
    }
    while r < n
      invariant 1 <= w <= r <= n < s.Length
      invariant r == 1 ==> w == 1
      invariant 1 < r < n ==> input[r] == '/'
      invariant Rewinds(starts, stack) && |starts| == |stack|
      invariant forall t | t in stack :: Name(t)
      invariant s[..w] == Render(stack)
      invariant Resolve(Segments(input[r..]), stack) == Resolve(Segments(input), [])
      decreases n - r
    {
      var segStart, segEnd := NextSegment(input, r);
      if segStart == segEnd {
        ResolveEnd(Segments(input[r..]), stack);
        break;
      }
      var segment := input[segStart..segEnd];
      ResolveHead(segment, Segments(input[segEnd..]), stack);
      r := segEnd;
      if segment == "." {
        continue;
      }
      if segment == ".." {
        w, starts, stack := Rewind(s, w, starts, stack);
        continue;
      }
      var point, next := PushSegment(s, w, segment, stack);
      // The write cursor never passes the segment being read.
      assert next <= segEnd;
      PushRewind(starts, stack, segment);
      starts := starts + [point];
      assert Name(segment);
      stack := stack + [segment];
      w := next;
    }
    if r == n {
      NoSegments(input);
      ResolveEnd(Segments(input[n..]), stack);
    }
    assert Render(stack) == Normalize(input);
    Terminate(s, w, stack);
  }

  // ----- make_path_abs_lexical -----

  ghost predicate PointsTo(tmp: seq<char>, pointer: nat, segment: string, end: nat) {
    && pointer + |segment| < end <= |tmp|
    && tmp[pointer..pointer + |segment|] == segment
    && tmp[pointer + |segment|] == '\0'
  }

  /** The segment pointers of the copy: each points in front of `end` at a terminated segment. */
  ghost predicate PointsAt(tmp: seq<char>, pointers: seq<nat>, stack: seq<string>, end: nat) {
    && |pointers| == |stack|
    && forall i | 0 <= i < |stack| :: PointsTo(tmp, pointers[i], stack[i], end)
  }

  method CountSegments(tmp: string) returns (most: nat)
    ensures most == 1 + Count(tmp, '/')
  {
    most := 1;
    for i := 0 to |tmp|
      invariant most == 1 + Count(tmp[..i], '/')
    {
      assert tmp[..i + 1][..i] == tmp[..i];
      if tmp[i] == '/' {
        most := most + 1;
      }
    }
    assert tmp[..|tmp|] == tmp;
  }

  lemma PointersKept(before: seq<char>, after: seq<char>, pointers: seq<nat>, stack: seq<string>, end: nat, end': nat)
    requires PointsAt(before, pointers, stack, end)
    requires |after| == |before| && end <= end' <= |after|
    requires forall i | 0 <= i < end && i < |before| :: after[i] == before[i]
    ensures PointsAt(after, pointers, stack, end')
  {
    forall i | 0 <= i < |stack| ensures PointsTo(after, pointers[i], stack[i], end') {
      assert PointsTo(before, pointers[i], stack[i], end);
      var from, to := pointers[i], pointers[i] + |stack[i]|;
      assert after[from..to] == before[from..to];
    }
  }

  lemma SlashesAfter(input: string, from: nat, end: nat)
    requires from <= end < |input| && input[end] == '/'
    ensures Count(input[..from], '/') < Count(input[..end + 1], '/')
  {
    assert input[..end][..from] == input[..from];
    CountPrefix(input[..end], '/', from);
    CountPrefix(input, '/', end);
  }

  lemma SegmentCopied(input: string, tmp: seq<char>, start: nat, end: nat, p: nat)
    requires p <= start < end <= |input| < |tmp| && tmp[p..] == input[p..] + ['\0']
    ensures tmp[start..end] == input[start..end]
    ensures end == |input| ==> tmp[end] == '\0'
  {
    forall i | start <= i < end ensures tmp[i] == input[i] {
      assert tmp[p..][i - p] == (input[p..] + ['\0'])[i - p];
    }
    assert end == |input| ==> tmp[p..][end - p] == '\0';
  }

  /** Ends the segment with a terminator, unless it ends the path, and steps over it. */
  method EndSegment(input: string, tmp: array<char>, start: nat, end: nat, p: nat,
                    ghost pointers: seq<nat>, ghost stack: seq<string>)
    returns (next: nat)
    requires p <= start < end <= |input| < tmp.Length == |input| + 1
    requires tmp[p..] == input[p..] + ['\0'] && PointsAt(tmp[..], pointers, stack, p + 1)
    requires end < |input| ==> input[end] == '/'
    modifies tmp
    ensures next == if end < |input| then end + 1 else end
    ensures tmp[next..] == input[next..] + ['\0'] && PointsAt(tmp[..], pointers, stack, next + 1)
    ensures PointsAt(tmp[..], [start], [input[start..end]], next + 1)
    ensures Segments(input[next..]) == Segments(input[end..])
  {
    ghost var before := tmp[..];
    SegmentCopied(input, tmp[..], start, end, p);
    next := end;
    if next < |input| {
      tmp[next] := '\0';
      next := next + 1;
      TokensSkip(input[end..], '/');
      assert input[end..][1..] == input[next..];
    }
    assert tmp[next..] == before[p..][next - p..];
    PointersKept(before, tmp[..], pointers, stack, p + 1, next + 1);
    assert tmp[..][start..end] == input[start..end];
  }

  lemma PointersPush(tmp: seq<char>, pointers: seq<nat>, stack: seq<string>, start: nat, segment: string, end: nat)
    requires PointsAt(tmp, pointers, stack, end) && PointsAt(tmp, [start], [segment], end)
    ensures PointsAt(tmp, pointers + [start], stack + [segment], end)
  {
    assert PointsTo(tmp, [start][0], [segment][0], end);
    var all, names := pointers + [start], stack + [segment];
    forall i | 0 <= i < |names| ensures PointsTo(tmp, all[i], names[i], end) {
      if i < |stack| {
        assert all[i] == pointers[i] && names[i] == stack[i];
      }
    }
  }

  lemma PointersPop(tmp: seq<char>, pointers: seq<nat>, stack: seq<string>, end: nat)
    requires PointsAt(tmp, pointers, stack, end) && stack != []
    ensures |pointers| == |stack|
    ensures PointsAt(tmp, pointers[..|stack| - 1], stack[..|stack| - 1], end)
  {
    var fewer, less := pointers[..|stack| - 1], stack[..|stack| - 1];
    forall i | 0 <= i < |less| ensures PointsTo(tmp, fewer[i], less[i], end) {
      assert fewer[i] == pointers[i] && less[i] == stack[i];
    }
  }

  /** What strcmp and strlen see through a segment pointer. */
  method PointedName(tmp: array<char>, start: nat, ghost segment: string, ghost end: nat) returns (name: string)
    requires PointsAt(tmp[..], [start], [segment], end) && '\0' !in segment
    ensures name == segment
  {
    assert PointsTo(tmp[..], [start][0], [segment][0], end);
    assert tmp[start..][..|segment|] == tmp[..][start..start + |segment|];
    CStringIs(tmp[start..], |segment|);
    name := CString(tmp[start..]);
  }

  /** Drops the segment, takes back the last one, or keeps a pointer to it. */
  method KeepSegment(tmp: array<char>, segs: array<nat>, sp: nat, start: nat, ghost end: nat,
                     ghost segment: string, ghost stack: seq<string>)
    returns (sp': nat, ghost stack': seq<string>)
    requires sp < segs.Length && |stack| == sp
    requires PointsAt(tmp[..], segs[..sp], stack, end) && PointsAt(tmp[..], [start], [segment], end)
    requires Name(segment) && forall t | t in stack :: Name(t)
    modifies segs
    ensures sp' <= sp + 1 <= segs.Length && |stack'| == sp'
    ensures stack' == Enter(stack, segment) && forall t | t in stack' :: Name(t)
    ensures PointsAt(tmp[..], segs[..sp'], stack', end)
  {
    hide PointsAt;
    var name := PointedName(tmp, start, segment, end);
    sp', stack' := sp, stack;
    if name == "." {
      return;
    }
    if name == ".." {
      if sp > 0 {
        PointersPop(tmp[..], segs[..sp], stack, end);
        assert segs[..sp][..sp - 1] == segs[..sp - 1];
        sp', stack' := sp - 1, stack[..sp - 1];
      }
      return;
    }
    PointersPush(tmp[..], segs[..sp], stack, start, segment, end);
    segs[sp] := start;
    assert segs[..sp + 1] == old(segs[..sp]) + [start];
    sp', stack' := sp + 1, stack + [segment];
  }

  /** Collects the segments that survive: pointers into the copy, a terminator written behind each. */
  method CollectSegments(input: string, tmp: array<char>, segs: array<nat>)
    returns (sp: nat, ghost stack: seq<string>)
    requires '\0' !in input && tmp[..] == input + ['\0']
    requires segs.Length == 1 + Count(input, '/')
    modifies tmp, segs
    ensures stack == Resolve(Segments(input), []) && sp <= segs.Length
    ensures PointsAt(tmp[..], segs[..sp], stack, tmp.Length) && forall t | t in stack :: Name(t)
  {
    hide Resolve, Tokens;
    var n := |input|;
    var p := 0;
    sp, stack := 0, [];
    assert input[0..] == input && tmp[0..] == tmp[..];
    while p < n
      invariant 0 <= p <= n && tmp.Length == n + 1
      invariant tmp[p..] == input[p..] + ['\0']
      invariant sp <= segs.Length && |stack| == sp && (p < n ==> sp <= Count(input[..p], '/'))
      invariant PointsAt(tmp[..], segs[..sp], stack, p + 1) && forall t | t in stack :: Name(t)
      invariant Resolve(Segments(input[p..]), stack) == Resolve(Segments(input), [])
      decreases n - p
    {
      hide PointsAt, Count;
      var start, end := NextSegment(input, p);
      if start == end {
        ResolveEnd(Segments(input[p..]), stack);
        break;
      }
      ghost var segment := input[start..end];
      ResolveHead(segment, Segments(input[end..]), stack);
      CountPrefix(input, '/', p);
      if end < n {
        SlashesAfter(input, p, end);
      }
      p := EndSegment(input, tmp, start, end, p, segs[..sp], stack);
      sp, stack := KeepSegment(tmp, segs, sp, start, p + 1, segment, stack);
    }
    if p == n {
      NoSegments(input);
      ResolveEnd(Segments(input[n..]), stack);
    }
    PointersKept(tmp[..], tmp[..], segs[..sp], stack, p + 1, tmp.Length);
  }

  lemma JoinedPrefix(stack: seq<string>, i: nat)
    requires i <= |stack|
    ensures |Joined(stack[..i])| <= |Joined(stack)|
    ensures i < |stack| ==> Joined(stack[..i + 1]) == Joined(stack[..i]) + "/" + stack[i]
    decreases |stack| - i
  {
    assert stack[..|stack|] == stack;
    if i < |stack| {
      assert stack[..i + 1][..i] == stack[..i];
      JoinedPrefix(stack, i + 1);
    }
  }

  /** What is written after i segments: the next slash is there already. */
  function Rebuilt(stack: seq<string>, i: nat): string
    requires i <= |stack|
  {
    Joined(stack[..i]) + if i < |stack| || stack == [] then "/" else ""
  }

  lemma RebuiltStep(stack: seq<string>, i: nat)
    requires i < |stack|
    ensures Rebuilt(stack, i + 1) == Rebuilt(stack, i) + stack[i] + if i + 1 < |stack| then "/" else ""
    ensures |Rebuilt(stack, i + 1)| <= |Render(stack)|
  {
    JoinedPrefix(stack, i);
    JoinedPrefix(stack, i + 1);
    if i + 1 < |stack| {
      JoinedPrefix(stack, i + 2);
    }
  }

  lemma RebuiltEnds(stack: seq<string>)
    ensures Rebuilt(stack, 0) == "/" && Rebuilt(stack, |stack|) == Render(stack)
  {
    assert stack[..|stack|] == stack;
  }

  /** Writes the kept segments out behind single slashes. */
  method Rebuild(raw: array<char>, tmp: array<char>, segs: array<nat>, sp: nat, ghost stack: seq<string>)
    requires raw != tmp && sp <= segs.Length && |Render(stack)| < raw.Length
    requires PointsAt(tmp[..], segs[..sp], stack, tmp.Length) && |stack| == sp && forall t | t in stack :: Name(t)
    modifies raw
    ensures Terminated(raw[..]) && CString(raw[..]) == Render(stack)
  {
    hide Rebuilt, PointsAt, Render;
    RebuiltEnds(stack);
    RenderGrows(stack);
    var w := 1;
    raw[0] := '/';
    assert raw[..w] == "/";
    for i := 0 to sp
      invariant 1 <= w < raw.Length && raw[..w] == Rebuilt(stack, i)
    {
      assert stack[i] in stack;
      PointersAt(tmp[..], segs[..sp], stack, i, tmp.Length);
      var name := PointedName(tmp, segs[i], stack[i], tmp.Length);
      RebuiltStep(stack, i);
      Copy(raw, w, name);
      w := w + |name|;
      if i + 1 < sp {
        ghost var before := raw[..w];
        raw[w] := '/';
        w := w + 1;
        assert raw[..w] == before + "/";
      }
    }
    raw[w] := '\0';
    assert raw[..][..w] == Render(stack);
    CStringIs(raw[..], w);
  }

  lemma PointersAt(tmp: seq<char>, pointers: seq<nat>, stack: seq<string>, i: nat, end: nat)
    requires PointsAt(tmp, pointers, stack, end) && i < |stack|
    ensures i < |pointers| && PointsAt(tmp, [pointers[i]], [stack[i]], end)
  {
  }

  /** The absolute path of `path` seen from the working directory `cwd`. */
  method MakePathAbsLexical(path: string, cwd: string) returns (raw: array<char>)
    requires '\0' !in path && '\0' !in cwd && IsAbsolute(cwd)
    ensures fresh(raw) && Terminated(raw[..])
    ensures CString(raw[..]) == Normalize(if IsAbsolute(path) then path else cwd + "/" + path)
  {
    var full := if |path| > 0 && path[0] == '/' then path else cwd + "/" + path;
    var n := |full|;
    raw := new char[n + 1](i requires 0 <= i <= n => if i < n then full[i] else '\0');
    var tmp := new char[n + 1](i requires 0 <= i <= n => if i < n then full[i] else '\0');
    assert tmp[..] == full + ['\0'];
    var most := CountSegments(full);
    var segs := new nat[most];
    var sp, stack := CollectSegments(full, tmp, segs);
    NormalizeShrinks(full);
    Rebuild(raw, tmp, segs, sp, stack);
  }

  /** Both implementations give the same string for every absolute path. */
  method BothWays(path: string, cwd: string) returns (rewritten: string, rebuilt: string)
    requires '\0' !in path && '\0' !in cwd && IsAbsolute(path) && IsAbsolute(cwd)
    ensures rewritten == rebuilt && IsCanonical(rewritten) && |rewritten| <= |path|
  {
    var n := |path|;
    var s := new char[n + 1](i requires 0 <= i <= n => if i < n then path[i] else '\0');
    assert s[..][..n] == path && s[..][n] == '\0';
    CStringIs(s[..], n);
    NormalizeInPlace(s);
    rewritten := CString(s[..]);
    var raw := MakePathAbsLexical(path, cwd);
    rebuilt := CString(raw[..]);
    NormalizeCanonical(path);
    NormalizeShrinks(path);
  }
}
