/** Searching and splitting text, as strstr, strlen and strtok do it. */
module Text {
  import opened Options

  predicate OccursAt(s: string, needle: string, i: nat) {
    i + |needle| <= |s| && s[i..i + |needle|] == needle
  }

  /** strstr(s, needle) finds something. */
  predicate Contains(s: string, needle: string) {
    exists i: nat | i <= |s| :: OccursAt(s, needle, i)
  }

  predicate StartsWith(s: string, prefix: string) {
    |prefix| <= |s| && s[..|prefix|] == prefix
  }

  /** strstr: the first place where the needle occurs. */
  function Find(s: string, needle: string): (r: Option<nat>)
    ensures r.Some? ==> OccursAt(s, needle, r.value)
  {
    if StartsWith(s, needle) then Some(0)
    else if s == [] then None
    else
      var r := Find(s[1..], needle);
      if r.Some? then Some(r.value + 1) else None
  }

  lemma OccursLater(s: string, needle: string, i: nat)
    requires s != [] && 0 < i
    ensures OccursAt(s, needle, i) <==> OccursAt(s[1..], needle, i - 1)
  {
    if i + |needle| <= |s| {
      assert s[i..i + |needle|] == s[1..][i - 1..i - 1 + |needle|];
    }
  }

  lemma FindStep(s: string, needle: string)
    ensures StartsWith(s, needle) <==> OccursAt(s, needle, 0)
    ensures StartsWith(s, needle) ==> Find(s, needle).Some?
    ensures s == [] && !StartsWith(s, needle) ==> Find(s, needle).None?
    ensures s != [] && !StartsWith(s, needle) ==> Find(s, needle).Some? == Find(s[1..], needle).Some?
  {
  }

  lemma {:induction false} FindNothing(s: string, needle: string)
    ensures Find(s, needle) == None <==> forall i: nat | i <= |s| :: !OccursAt(s, needle, i)
  {
    hide Find, OccursAt, StartsWith;
    FindStep(s, needle);
    if StartsWith(s, needle) || s == [] {
      return;
    }
    FindNothing(s[1..], needle);
    forall i: nat | i <= |s| ensures i > 0 ==> (OccursAt(s, needle, i) <==> OccursAt(s[1..], needle, i - 1)) {
      if i > 0 {
        OccursLater(s, needle, i);
      }
    }
    if j: nat :| j <= |s| - 1 && OccursAt(s[1..], needle, j) {
      assert OccursAt(s, needle, j + 1);
    }
  }

  /** It is the first: the needle does not occur before it. */
  lemma {:induction false} FindFirst(s: string, needle: string, i: nat)
    requires Find(s, needle).Some? && i < Find(s, needle).value
    ensures !OccursAt(s, needle, i)
  {
    if i > 0 {
      FindFirst(s[1..], needle, i - 1);
      OccursLater(s, needle, i);
    }
  }

  /** How many characters come before the first d, or before the end. */
  function Span(s: string, d: char): (n: nat)
    ensures n <= |s| && d !in s[..n]
    ensures n < |s| ==> s[n] == d
  {
    if s == [] || s[0] == d then 0 else 1 + Span(s[1..], d)
  }

  /** The span is the one place where the text stops being free of d. */
  lemma {:induction false} SpanIs(s: string, d: char, n: nat)
    requires n <= |s| && d !in s[..n] && (n < |s| ==> s[n] == d)
    ensures Span(s, d) == n
  {
    if n > 0 {
      assert s[0] in s[..n];
      assert s[1..n] == s[..n][1..] == s[1..][..n - 1];
      SpanIs(s[1..], d, n - 1);
    }
  }

  /** The non-empty pieces between the delimiters, in order (strtok). */
  function Tokens(s: string, d: char): seq<string>
    decreases |s|
  {
    if s == [] then []
    else if s[0] == d then Tokens(s[1..], d)
    else [s[..Span(s, d)]] + Tokens(s[Span(s, d)..], d)
  }

  lemma TokensSkip(s: string, d: char)
    requires s != [] && s[0] == d
    ensures Tokens(s, d) == Tokens(s[1..], d)
  {
  }

  /** A token is not empty and holds no delimiter. */
  predicate Plain(token: string, d: char) {
    token != [] && d !in token
  }

  lemma {:induction false} TokensArePlain(s: string, d: char)
    ensures forall t | t in Tokens(s, d) :: Plain(t, d)
    decreases |s|
  {
    if s != [] {
      TokensArePlain(if s[0] == d then s[1..] else s[Span(s, d)..], d);
    }
  }

  /** A plain token in front of the end or a delimiter is the first token. */
  lemma TokensFirst(t: string, s: string, d: char)
    requires Plain(t, d) && (s == [] || s[0] == d)
    ensures Tokens(t + s, d) == [t] + Tokens(s, d)
  {
    assert (t + s)[0] == t[0] && t[0] in t;
    assert (t + s)[..|t|] == t && (t + s)[|t|..] == s;
    SpanIs(t + s, d, |t|);
  }

  /** A delimiter splits the tokens. */
  lemma {:induction false} TokensConcat(a: string, b: string, d: char)
    ensures Tokens(a + [d] + b, d) == Tokens(a, d) + Tokens(b, d)
    decreases |a|
  {
    if a == [] {
      assert (a + [d] + b)[1..] == b;
    } else if a[0] == d {
      assert (a + [d] + b)[1..] == a[1..] + [d] + b;
      TokensConcat(a[1..], b, d);
    } else {
      var n := Span(a, d);
      assert a == a[..n] + a[n..];
      assert a + [d] + b == a[..n] + (a[n..] + [d] + b);
      TokensFirst(a[..n], a[n..] + [d] + b, d);
      TokensConcat(a[n..], b, d);
    }
  }

  function Count(s: string, c: char): nat {
    if s == [] then 0 else Count(s[..|s| - 1], c) + if s[|s| - 1] == c then 1 else 0
  }

  lemma {:induction false} CountPrefix(s: string, c: char, n: nat)
    requires n <= |s|
    ensures Count(s[..n], c) <= Count(s, c)
    ensures n < |s| && s[n] == c ==> Count(s[..n + 1], c) == Count(s[..n], c) + 1
    decreases |s|
  {
    assert s[..|s|] == s;
    if n < |s| {
      assert s[..|s| - 1][..n] == s[..n];
      CountPrefix(s[..|s| - 1], c, n);
      assert s[..n + 1][..n] == s[..n];
    }
  }

  // ----- C strings in buffers -----

  /** A buffer holds a C string when it has a terminator. */
  predicate Terminated(buffer: seq<char>) {
    '\0' in buffer
  }

  /** The C string a buffer holds. */
  function CString(buffer: seq<char>): (s: string)
    ensures '\0' !in s
    ensures Terminated(buffer) ==> |s| < |buffer| && buffer[|s|] == '\0'
  {
    buffer[..Span(buffer, '\0')]
  }

  lemma CStringIs(buffer: seq<char>, n: nat)
    requires n < |buffer| && '\0' !in buffer[..n] && buffer[n] == '\0'
    ensures CString(buffer) == buffer[..n]
  {
    SpanIs(buffer, '\0', n);
  }
}
