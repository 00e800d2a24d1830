/** The .secrets file: what src/ltf_secrets.c reads out of its lines, and the documented form of a
    file (docs/TESTS/TEST_SECRETS.md).  The file holds no NUL. */
module Secrets {
  import opened Options
  import opened Pairs
  import opened Text

  const QUOTES := "\"\"\""

  // ----- trimming -----

  /** What rtrim and ltrim take away. */
  predicate Blank(c: char) {
    c <= ' '
  }

  predicate IsSpace(c: char) {
    c == ' ' || 9 as char <= c <= 13 as char
  }

  function RTrim(s: string): string {
    if s != [] && Blank(s[|s| - 1]) then RTrim(s[..|s| - 1]) else s
  }

  function LTrim(s: string): string {
    if s != [] && Blank(s[0]) then LTrim(s[1..]) else s
  }

  function Trim(s: string): string {
    RTrim(LTrim(s))
  }

  /** The line without the line end: every CR and LF at its end is taken off. */
  function StripEol(line: string): string {
    if line != [] && (line[|line| - 1] == '\n' || line[|line| - 1] == '\r') then StripEol(line[..|line| - 1])
    else line
  }

  function SkipSpace(s: string): string {
    if s != [] && IsSpace(s[0]) then SkipSpace(s[1..]) else s
  }

  // ----- one line -----

  /** The multiline value being read: its key and what has been collected. */
  datatype Reading = Reading(found: seq<Pair<string>>, open: Option<Pair<string>>)

  function Finished(r: Reading, value: string): Reading
    requires r.open.Some?
  {
    Reading(r.found + [Pair(r.open.value.key, value)], None)
  }

  function WithoutNewline(value: string): string {
    if value != [] && value[|value| - 1] == '\n' then value[..|value| - 1] else value
  }

  /** A line inside a multiline value. */
  function InsideLine(r: Reading, line: string): Reading
    requires r.open.Some?
  {
    var Pair(key, value) := r.open.value;
    if StartsWith(SkipSpace(line), QUOTES) then Finished(r, WithoutNewline(value))
    else
      var close := Find(line, QUOTES);
      if close.Some? then Finished(r, value + line[..close.value])
      else r.(open := Some(Pair(key, value + line + "\n")))
  }

  /** A line outside: blank and malformed lines are skipped. */
  function OutsideLine(r: Reading, line: string): Reading {
    var s := Trim(line);
    var eq := Span(s, '=');
    if eq == |s| then r
    else
      var key, value := Trim(s[..eq]), Trim(s[eq + 1..]);
      if key == [] then r
      else if !StartsWith(value, QUOTES) then r.(found := r.found + [Pair(key, value)])
      else
        var rest := value[|QUOTES|..];
        var close := Find(rest, QUOTES);
        if close.Some? then r.(found := r.found + [Pair(key, rest[..close.value])])
        else r.(open := Some(Pair(key, if rest == [] then "" else rest + "\n")))
  }

  function ReadLine(r: Reading, raw: string): Reading {
    var line := StripEol(raw);
    if r.open.Some? then InsideLine(r, line) else OutsideLine(r, line)
  }

  // ----- the file -----

  /** The lines getline delivers, without their newline. */
  function Lines(text: string): seq<string>
    decreases |text|
  {
    if text == [] then []
    else
      var n := Span(text, '\n');
      if n == |text| then [text] else [text[..n]] + Lines(text[n + 1..])
  }

  function ReadLines(r: Reading, lines: seq<string>): Reading
    decreases lines
  {
    if lines == [] then r else ReadLines(ReadLine(r, lines[0]), lines[1..])
  }

  function AtEnd(r: Reading): seq<Pair<string>> {
    if r.open.Some? then Finished(r, r.open.value.value).found else r.found
  }

  function Parse(text: string): seq<Pair<string>> {
    AtEnd(ReadLines(Reading([], None), Lines(text)))
  }

  // ----- the documented form, with any blanks around the parts -----

  /** How an entry is laid out: blanks before the key, around "=", and at the end of the line, and
      for a multiline value the blanks before the closing quotes and whatever follows them. */
  datatype Layout = Layout(multiline: bool, lead: string, before: string, after: string, trail: string,
                           indent: string, rest: string)

  datatype Entry = Entry(secret: Pair<string>, layout: Layout)

  function Printed(e: Entry): string {
    var Layout(multiline, lead, before, after, trail, indent, rest) := e.layout;
    if multiline then
      lead + e.secret.key + before + "=" + after + QUOTES + trail + "\n"
      + e.secret.value + "\n"
      + indent + QUOTES + rest + "\n"
    else
      lead + e.secret.key + before + "=" + after + e.secret.value + trail + "\n"
  }

  function PrintedAll(entries: seq<Entry>): string {
    if entries == [] then "" else Printed(entries[0]) + PrintedAll(entries[1..])
  }

  function SecretsOf(entries: seq<Entry>): seq<Pair<string>> {
    seq(|entries|, i requires 0 <= i < |entries| => entries[i].secret)
  }

  predicate Blanks(s: string) {
    (forall i | 0 <= i < |s| :: Blank(s[i])) && '\n' !in s
  }

  predicate Spaces(s: string) {
    (forall i | 0 <= i < |s| :: IsSpace(s[i])) && '\n' !in s
  }

  predicate Trimmed(s: string) {
    s != [] ==> !Blank(s[0]) && !Blank(s[|s| - 1])
  }

  predicate GoodLayout(l: Layout) {
    && Blanks(l.lead) && Blanks(l.before) && Blanks(l.after) && Blanks(l.trail)
    && Spaces(l.indent) && '\n' !in l.rest
  }

  predicate GoodKey(key: string) {
    key != [] && Trimmed(key) && '=' !in key && '\n' !in key
  }

  predicate OneLine(value: string) {
    Trimmed(value) && '\n' !in value && !StartsWith(value, QUOTES)
  }

  predicate ManyLines(value: string) {
    !Contains(value, QUOTES) && '\r' !in value
  }

  predicate Printable(e: Entry) {
    && GoodLayout(e.layout) && GoodKey(e.secret.key)
    && if e.layout.multiline then ManyLines(e.secret.value) else OneLine(e.secret.value)
  }

  // ----- facts about trimming -----

  lemma {:induction false} RTrimBlanks(s: string, b: string)
    requires forall i | 0 <= i < |b| :: Blank(b[i])
    ensures RTrim(s + b) == RTrim(s)
    decreases b
  {
    if b == [] {
      assert s + b == s;
    } else {
      assert (s + b)[..|s + b| - 1] == s + b[..|b| - 1];
      RTrimBlanks(s, b[..|b| - 1]);
    }
  }

  lemma {:induction false} LTrimBlanks(b: string, s: string)
    requires forall i | 0 <= i < |b| :: Blank(b[i])
    ensures LTrim(b + s) == LTrim(s)
    decreases b
  {
    if b == [] {
      assert b + s == s;
    } else {
      assert (b + s)[1..] == b[1..] + s;
      LTrimBlanks(b[1..], s);
    }
  }

  /** Blanks around a trimmed core are taken off. */
  lemma TrimCore(b: string, core: string, b': string)
    requires Blanks(b) && Blanks(b') && Trimmed(core)
    ensures Trim(b + core + b') == core
  {
    assert b + core + b' == b + (core + b');
    LTrimBlanks(b, core + b');
    if core == [] {
      assert core + b' == b' + "";
      LTrimBlanks(b', "");
    } else {
      RTrimBlanks(core, b');
    }
  }

  /** The line end that StripEol takes off is blank. */
  lemma {:induction false} StripIsBlank(line: string) returns (end: string)
    ensures line == StripEol(line) + end && forall i | 0 <= i < |end| :: end[i] == '\n' || end[i] == '\r'
    decreases |line|
  {
    end := "";
    if line != [] && (line[|line| - 1] == '\n' || line[|line| - 1] == '\r') {
      end := StripIsBlank(line[..|line| - 1]);
      end := end + [line[|line| - 1]];
    }
  }

  lemma TrimStripped(line: string)
    ensures Trim(StripEol(line)) == Trim(line)
  {
    var end := StripIsBlank(line);
    var s := StripEol(line);
    LTrimEnd(s, end);
    if LTrim(s) != [] {
      RTrimBlanks(LTrim(s), end);
    }
  }

  lemma {:induction false} LTrimEnd(s: string, end: string)
    requires forall i | 0 <= i < |end| :: Blank(end[i])
    ensures LTrim(s + end) == if LTrim(s) == [] then [] else LTrim(s) + end
    decreases s
  {
    if s == [] {
      assert s + end == end + "";
      LTrimBlanks(end, "");
    } else if Blank(s[0]) {
      assert (s + end)[1..] == s[1..] + end;
      LTrimEnd(s[1..], end);
    }
  }

  // ----- facts about lines -----

  lemma LinesHead(text: string)
    requires text != []
    ensures var n := Span(text, '\n');
      Lines(text) == [text[..n]] + Lines(if n < |text| then text[n + 1..] else "")
  {
    assert text[..|text|] == text;
  }

  lemma LinesFirst(line: string, text: string)
    requires '\n' !in line
    ensures Lines(line + "\n" + text) == [line] + Lines(text)
  {
    var all := line + "\n" + text;
    assert all[..|line|] == line && all[|line| + 1..] == text;
    SpanIs(all, '\n', |line|);
  }

  /** The first line is read, then the rest. */
  lemma {:induction false} FirstLineReads(r: Reading, line: string, text: string)
    requires '\n' !in line
    ensures ReadLines(r, Lines(line + "\n" + text)) == ReadLines(ReadLine(r, line), Lines(text))
  {
    LinesFirst(line, text);
  }

  lemma {:induction false} StripAfter(front: string, back: string)
    requires front != [] && front[|front| - 1] != '\n' && front[|front| - 1] != '\r'
    ensures StripEol(front + back) == front + StripEol(back)
    decreases back
  {
    if back == [] {
      assert front + back == front && front + StripEol(back) == front;
    } else {
      assert (front + back)[..|front + back| - 1] == front + back[..|back| - 1];
      StripAfter(front, back[..|back| - 1]);
    }
  }

  lemma {:induction false} SkipSpaces(b: string, s: string)
    requires Spaces(b) && s != [] && !IsSpace(s[0])
    ensures SkipSpace(b + s) == s
    decreases b
  {
    if b == [] {
      assert b + s == s;
    } else {
      assert (b + s)[1..] == b[1..] + s;
      SkipSpaces(b[1..], s);
    }
  }

  lemma {:induction false} SkippedIsSuffix(s: string) returns (n: nat)
    ensures n <= |s| && SkipSpace(s) == s[n..]
  {
    n := 0;
    if s != [] && IsSpace(s[0]) {
      n := SkippedIsSuffix(s[1..]);
      n := n + 1;
    }
  }

  lemma SliceOfSlice(s: string, from: nat, to: nat, i: nat, j: nat)
    requires from <= to <= |s| && i <= j <= to - from
    ensures s[from..to][i..j] == s[from + i..from + j]
  {
    var a, b := s[from..to][i..j], s[from + i..from + j];
    assert forall k | 0 <= k < |a| :: a[k] == b[k];
  }

  lemma ContainsPart(s: string, from: nat, to: nat, needle: string)
    requires from <= to <= |s| && !Contains(s, needle)
    ensures !Contains(s[from..to], needle)
  {
    if Contains(s[from..to], needle) {
      var i: nat :| i <= to - from && OccursAt(s[from..to], needle, i);
      SliceOfSlice(s, from, to, i, i + |needle|);
      assert OccursAt(s, needle, from + i);
    }
  }

  /** What is left of an assignment line when it has been trimmed. */
  function AssignmentCore(l: Layout, key: string, value: string): string {
    if value == [] then key + l.before + "=" else key + l.before + "=" + l.after + value
  }

  lemma AssignmentTrimmed(l: Layout, key: string, value: string)
    requires GoodLayout(l) && GoodKey(key) && Trimmed(value)
    ensures Trim(StripEol(l.lead + key + l.before + "=" + l.after + value + l.trail)) == AssignmentCore(l, key, value)
  {
    var line := l.lead + key + l.before + "=" + l.after + value + l.trail;
    var core := AssignmentCore(l, key, value);
    TrimStripped(line);
    if value == [] {
      assert line == l.lead + core + (l.after + l.trail);
      TrimCore(l.lead, core, l.after + l.trail);
    } else {
      assert line == l.lead + core + l.trail;
      TrimCore(l.lead, core, l.trail);
    }
  }

  /** A line assigns a trimmed value to a key, whatever blanks are around them. */
  lemma CoreParts(l: Layout, key: string, value: string)
    requires GoodLayout(l) && GoodKey(key)
    ensures var core, eq := AssignmentCore(l, key, value), |key| + |l.before|;
      && eq < |core| && core[eq] == '='
      && '=' !in core[..eq]
      && core[..eq] == "" + key + l.before
      && core[eq + 1..] == if value == [] then "" else l.after + value + ""
  {
    var core, eq := AssignmentCore(l, key, value), |key| + |l.before|;
    assert core[..eq] == key + l.before == "" + key + l.before;
  }

  lemma AssignmentLine(l: Layout, key: string, value: string)
    requires GoodLayout(l) && GoodKey(key) && Trimmed(value)
    ensures var s := Trim(StripEol(l.lead + key + l.before + "=" + l.after + value + l.trail));
      var eq := Span(s, '=');
      eq < |s| && Trim(s[..eq]) == key && Trim(s[eq + 1..]) == value
  {
    hide Trim, StripEol, AssignmentCore, Span;
    AssignmentTrimmed(l, key, value);
    var core, eq := AssignmentCore(l, key, value), |key| + |l.before|;
    CoreParts(l, key, value);
    SpanIs(core, '=', eq);
    TrimCore("", key, l.before);
    TrimCore(l.after, value, "");
    TrimCore("", "", "");
    assert "" + "" + "" == "";
  }

  lemma SingleLineReads(r: Reading, e: Entry)
    requires r.open.None? && Printable(e) && !e.layout.multiline
    ensures var l := e.layout;
      ReadLine(r, l.lead + e.secret.key + l.before + "=" + l.after + e.secret.value + l.trail)
      == Reading(r.found + [e.secret], None)
  {
    AssignmentLine(e.layout, e.secret.key, e.secret.value);
  }

  lemma OpeningLineReads(r: Reading, e: Entry)
    requires r.open.None? && Printable(e) && e.layout.multiline
    ensures var l := e.layout;
      ReadLine(r, l.lead + e.secret.key + l.before + "=" + l.after + QUOTES + l.trail)
      == Reading(r.found, Some(Pair(e.secret.key, "")))
  {
    AssignmentLine(e.layout, e.secret.key, QUOTES);
    assert QUOTES[|QUOTES|..] == "";
  }

  lemma ContentLineReads(found: seq<Pair<string>>, key: string, value: string, line: string)
    requires !Contains(line, QUOTES) && '\r' !in line && '\n' !in line
    ensures ReadLine(Reading(found, Some(Pair(key, value))), line)
         == Reading(found, Some(Pair(key, value + line + "\n")))
  {
    assert StripEol(line) == line by {
      assert line != [] ==> line[|line| - 1] in line;
    }
    var n := SkippedIsSuffix(line);
    assert !StartsWith(SkipSpace(line), QUOTES) by {
      assert !OccursAt(line, QUOTES, n);
    }
    FindNothing(line, QUOTES);
  }

  lemma SplitContent(value: string, n: nat, before: string, text: string)
    requires n < |value| && value[n] == '\n'
    ensures var line, rest := value[..n], value[n + 1..];
      && value + "\n" + text == line + "\n" + (rest + "\n" + text)
      && before + line + "\n" + rest + "\n" == before + value + "\n"
  {
    var line, rest := value[..n], value[n + 1..];
    assert value == line + "\n" + rest;
    assert before + line + "\n" + rest + "\n" == before + (line + "\n" + rest) + "\n";
  }

  lemma {:induction false} ContentReads(found: seq<Pair<string>>, key: string, before: string, value: string,
                                         text: string)
    requires ManyLines(value)
    ensures ReadLines(Reading(found, Some(Pair(key, before))), Lines(value + "\n" + text))
         == ReadLines(Reading(found, Some(Pair(key, before + value + "\n"))), Lines(text))
    decreases |value|
  {
    var n := Span(value, '\n');
    var line := value[..n];
    ContainsPart(value, 0, n, QUOTES);
    assert value[0..n] == line;
    ContentLineReads(found, key, before, line);
    if n == |value| {
      assert line == value;
      FirstLineReads(Reading(found, Some(Pair(key, before))), line, text);
    } else {
      var rest := value[n + 1..];
      ContainsPart(value, n + 1, |value|, QUOTES);
      assert value[n + 1..|value|] == rest;
      SplitContent(value, n, before, text);
      hide ReadLines, ReadLine, Lines, Contains, Span;
      FirstLineReads(Reading(found, Some(Pair(key, before))), line, rest + "\n" + text);
      ContentReads(found, key, before + line + "\n", rest, text);
    }
  }

  lemma ClosingLineReads(found: seq<Pair<string>>, key: string, value: string, indent: string, rest: string)
    requires Spaces(indent)
    ensures ReadLine(Reading(found, Some(Pair(key, value + "\n"))), indent + QUOTES + rest)
         == Reading(found + [Pair(key, value)], None)
  {
    StripAfter(indent + QUOTES, rest);
    var line := QUOTES + StripEol(rest);
    assert indent + QUOTES + StripEol(rest) == indent + line;
    SkipSpaces(indent, line);
    assert line[..|QUOTES|] == QUOTES;
    assert (value + "\n")[..|value|] == value;
  }

  /** The first and the last line of a multiline entry. */
  function OpeningOf(e: Entry): string {
    e.layout.lead + e.secret.key + e.layout.before + "=" + e.layout.after + QUOTES + e.layout.trail
  }

  function ClosingOf(e: Entry): string {
    e.layout.indent + QUOTES + e.layout.rest
  }

  lemma MultilineText(e: Entry, text: string)
    requires e.layout.multiline
    ensures Printed(e) + text
         == OpeningOf(e) + "\n" + (e.secret.value + "\n" + (ClosingOf(e) + "\n" + text))
  {
  }

  lemma MultilineEnds(e: Entry)
    requires Printable(e) && e.layout.multiline
    ensures '\n' !in OpeningOf(e) && '\n' !in ClosingOf(e) && ManyLines(e.secret.value) && Spaces(e.layout.indent)
  {
  }

  lemma {:induction false} MultilineReads(found: seq<Pair<string>>, e: Entry, text: string)
    requires Printable(e) && e.layout.multiline
    ensures ReadLines(Reading(found, None), Lines(Printed(e) + text))
         == ReadLines(Reading(found + [e.secret], None), Lines(text))
  {
    var key, value := e.secret.key, e.secret.value;
    OpeningLineReads(Reading(found, None), e);
    ClosingLineReads(found, key, value, e.layout.indent, e.layout.rest);
    assert ReadLine(Reading(found, None), OpeningOf(e)) == Reading(found, Some(Pair(key, "")));
    assert ReadLine(Reading(found, Some(Pair(key, value + "\n"))), ClosingOf(e)) == Reading(found + [e.secret], None);
    hide *;
    MultilineText(e, text);
    MultilineEnds(e);
    FirstLineReads(Reading(found, None), OpeningOf(e), value + "\n" + (ClosingOf(e) + "\n" + text));
    ContentReads(found, key, "", value, ClosingOf(e) + "\n" + text);
    assert "" + value + "\n" == value + "\n";
    FirstLineReads(Reading(found, Some(Pair(key, value + "\n"))), ClosingOf(e), text);
  }

  /** A printed entry adds its secret, whatever comes after it. */
  lemma EntryReads(found: seq<Pair<string>>, e: Entry, text: string)
    requires Printable(e)
    ensures ReadLines(Reading(found, None), Lines(Printed(e) + text))
         == ReadLines(Reading(found + [e.secret], None), Lines(text))
  {
    if e.layout.multiline {
      MultilineReads(found, e, text);
    } else {
      var l := e.layout;
      SingleLineReads(Reading(found, None), e);
      var line := l.lead + e.secret.key + l.before + "=" + l.after + e.secret.value + l.trail;
      assert Printed(e) + text == line + "\n" + text;
      FirstLineReads(Reading(found, None), line, text);
    }
  }

  lemma SecretsFront(found: seq<Pair<string>>, entries: seq<Entry>)
    requires entries != []
    ensures found + [entries[0].secret] + SecretsOf(entries[1..]) == found + SecretsOf(entries)
  {
    assert SecretsOf(entries) == [entries[0].secret] + SecretsOf(entries[1..]);
  }

  lemma {:induction false} EntriesRead(found: seq<Pair<string>>, entries: seq<Entry>)
    requires forall i | 0 <= i < |entries| :: Printable(entries[i])
    ensures ReadLines(Reading(found, None), Lines(PrintedAll(entries))) == Reading(found + SecretsOf(entries), None)
    decreases entries
  {
    if entries == [] {
      assert found + SecretsOf(entries) == found;
    } else {
      EntryReads(found, entries[0], PrintedAll(entries[1..]));
      hide ReadLines, Lines, Printable, Printed, PrintedAll;
      EntriesRead(found + [entries[0].secret], entries[1..]);
      SecretsFront(found, entries);
    }
  }

  /** Every list of secrets in the documented form, single-line or multiline, with any blanks around
      the parts, reads back as exactly that list in order. */
  lemma {:induction false} ParsePrinted(entries: seq<Entry>)
    requires forall i | 0 <= i < |entries| :: Printable(entries[i])
    ensures Parse(PrintedAll(entries)) == SecretsOf(entries)
  {
    EntriesRead([], entries);
    assert [] + SecretsOf(entries) == SecretsOf(entries);
  }

  // ----- other forms the file can have -----

  /** What trimming takes off: every character up to the space, at both ends. */
  lemma TrimIs(b: string, core: string, b': string)
    requires (forall i | 0 <= i < |b| :: b[i] <= ' ') && (forall i | 0 <= i < |b'| :: b'[i] <= ' ')
    requires '\n' !in b && '\n' !in b'
    requires core != "" ==> core[0] > ' ' && core[|core| - 1] > ' '
    ensures Trim(b + core + b') == core
  {
    TrimCore(b, core, b');
  }

  lemma {:induction false} TrimPart(s: string, c: char)
    requires c !in s
    ensures c !in LTrim(s) && c !in RTrim(s)
  {
    LTrimPart(s, c);
    RTrimPart(s, c);
  }

  lemma {:induction false} LTrimPart(s: string, c: char)
    requires c !in s
    ensures c !in LTrim(s)
  {
    if s != [] && Blank(s[0]) {
      LTrimPart(s[1..], c);
    }
  }

  lemma {:induction false} RTrimPart(s: string, c: char)
    requires c !in s
    ensures c !in RTrim(s)
  {
    if s != [] && Blank(s[|s| - 1]) {
      RTrimPart(s[..|s| - 1], c);
    }
  }

  /** Outside a multiline value a line without "=" is skipped. */
  lemma NoAssignmentSkipped(found: seq<Pair<string>>, line: string)
    requires '=' !in line
    ensures ReadLine(Reading(found, None), line) == Reading(found, None)
  {
    TrimStripped(line);
    TrimPart(line, '=');
    TrimPart(LTrim(line), '=');
    var s := Trim(line);
    SpanIs(s, '=', |s|);
  }

  /** So is one with nothing but blanks in front of it. */
  lemma NoKeySkipped(found: seq<Pair<string>>, lead: string, value: string)
    requires Blanks(lead) && Trimmed(value)
    ensures ReadLine(Reading(found, None), lead + "=" + value) == Reading(found, None)
  {
    var line := lead + "=" + value;
    TrimStripped(line);
    assert line == lead + ("=" + value) + "";
    TrimCore(lead, "=" + value, "");
    SpanIs("=" + value, '=', 0);
    assert ("=" + value)[..0] == "";
  }

  lemma QuoteAt(s: string, i: nat)
    requires OccursAt(s, QUOTES, i)
    ensures i < |s| && s[i] == '"'
  {
    assert s[i] == s[i..i + 3][0];
  }

  /** The quotes behind the opening ones are the first that come. */
  lemma QuotesBehind(text: string, rest: string)
    requires '"' !in text
    ensures Find(text + QUOTES + rest, QUOTES) == Some(|text|)
  {
    var s := text + QUOTES + rest;
    assert OccursAt(s, QUOTES, |text|) by {
      assert s[|text|..|text| + 3] == QUOTES;
    }
    FindNothing(s, QUOTES);
    var i := Find(s, QUOTES).value;
    QuoteAt(s, i);
    assert forall k | 0 <= k < |text| :: s[k] == text[k];
    if i > |text| {
      FindFirst(s, QUOTES, |text|);
    }
  }

  /** What an assignment line gives, once its key and value have been told apart. */
  function ValueRead(found: seq<Pair<string>>, key: string, value: string): Reading {
    if !StartsWith(value, QUOTES) then Reading(found + [Pair(key, value)], None)
    else
      var rest := value[|QUOTES|..];
      match Find(rest, QUOTES)
      case Some(close) => Reading(found + [Pair(key, rest[..close])], None)
      case None => Reading(found, Some(Pair(key, if rest == [] then "" else rest + "\n")))
  }

  lemma AssignmentReads(found: seq<Pair<string>>, l: Layout, key: string, value: string)
    requires GoodLayout(l) && GoodKey(key) && Trimmed(value)
    ensures ReadLine(Reading(found, None), l.lead + key + l.before + "=" + l.after + value + l.trail)
         == ValueRead(found, key, value)
  {
    hide Trim, StripEol, Span, Find, StartsWith, GoodLayout;
    AssignmentLine(l, key, value);
  }

  lemma QuotedValue(found: seq<Pair<string>>, key: string, value: string, rest: string)
    requires '"' !in value
    ensures ValueRead(found, key, QUOTES + value + QUOTES + rest) == Reading(found + [Pair(key, value)], None)
  {
    hide Find;
    var quoted := QUOTES + value + QUOTES + rest;
    assert quoted[3..] == value + QUOTES + rest && quoted[..3] == QUOTES;
    QuotesBehind(value, rest);
    assert (value + QUOTES + rest)[..|value|] == value;
  }

  lemma QuotedIsTrimmed(value: string, rest: string)
    requires rest != "" ==> rest[|rest| - 1] > ' '
    ensures Trimmed(QUOTES + value + QUOTES + rest)
  {
    var quoted := QUOTES + value + QUOTES + rest;
    assert quoted[0] == '"' && quoted[|quoted| - 1] == if rest == "" then '"' else rest[|rest| - 1];
  }

  /** A value that is quoted on one line ends at the closing quotes; what follows them is ignored. */
  lemma QuotedLineReads(found: seq<Pair<string>>, l: Layout, key: string, value: string, rest: string)
    requires GoodLayout(l) && GoodKey(key) && '"' !in value && (rest != "" ==> rest[|rest| - 1] > ' ')
    ensures ReadLine(Reading(found, None),
                     l.lead + key + l.before + "=" + l.after + (QUOTES + value + QUOTES + rest) + l.trail)
         == Reading(found + [Pair(key, value)], None)
  {
    hide *;
    QuotedIsTrimmed(value, rest);
    AssignmentReads(found, l, key, QUOTES + value + QUOTES + rest);
    QuotedValue(found, key, value, rest);
  }

  lemma OpeningValue(found: seq<Pair<string>>, key: string, first: string)
    requires '"' !in first && first != "" && first[|first| - 1] > ' '
    ensures Trimmed(QUOTES + first)
    ensures ValueRead(found, key, QUOTES + first) == Reading(found, Some(Pair(key, first + "\n")))
  {
    hide Find;
    assert (QUOTES + first)[3..] == first && (QUOTES + first)[..3] == QUOTES;
    NoQuotes(first);
  }

  /** What stands behind the opening quotes is the first line of the value. */
  lemma OpeningContentReads(found: seq<Pair<string>>, l: Layout, key: string, first: string)
    requires GoodLayout(l) && GoodKey(key) && '"' !in first && first != "" && first[|first| - 1] > ' '
    ensures ReadLine(Reading(found, None), l.lead + key + l.before + "=" + l.after + (QUOTES + first) + l.trail)
         == Reading(found, Some(Pair(key, first + "\n")))
  {
    hide *;
    OpeningValue(found, key, first);
    AssignmentReads(found, l, key, QUOTES + first);
  }

  lemma NoQuotes(text: string)
    requires '"' !in text
    ensures Find(text, QUOTES) == None
  {
    FindNothing(text, QUOTES);
    forall i: nat | i <= |text| ensures !OccursAt(text, QUOTES, i) {
      if OccursAt(text, QUOTES, i) {
        QuoteAt(text, i);
      }
    }
  }

  /** Closing quotes behind content end the value with that content, without a newline. */
  lemma ClosingContentReads(found: seq<Pair<string>>, key: string, value: string, content: string, rest: string, i: nat)
    requires '"' !in content && i < |content|
    requires content[i] != ' ' && !(9 as char <= content[i] <= 13 as char)
    ensures ReadLine(Reading(found, Some(Pair(key, value))), content + QUOTES + rest)
         == Reading(found + [Pair(key, value + content)], None)
  {
    StripAfter(content + QUOTES, rest);
    var line := content + QUOTES + StripEol(rest);
    var n := SkippedIsSuffix(line);
    SkipStops(line, i);
    QuotesBehind(content, StripEol(rest));
    assert line[..|content|] == content && n <= i && line[n] == content[n] == SkipSpace(line)[0];
    assert QUOTES[0] == '"' && content[n] != '"';
  }

  lemma {:induction false} SkipStops(s: string, i: nat)
    requires i < |s| && s[i] != ' ' && !(9 as char <= s[i] <= 13 as char)
    ensures |s| - i <= |SkipSpace(s)|
  {
    if IsSpace(s[0]) {
      SkipStops(s[1..], i - 1);
    }
  }

  /** Behind nothing but spaces, tabs and the like they end it without the last newline. */
  lemma ClosingIndentReads(found: seq<Pair<string>>, key: string, value: string, indent: string, rest: string)
    requires forall i | 0 <= i < |indent| ::
      indent[i] == ' ' || indent[i] == 9 as char || 11 as char <= indent[i] <= 13 as char
    ensures ReadLine(Reading(found, Some(Pair(key, value + "\n"))), indent + QUOTES + rest)
         == Reading(found + [Pair(key, value)], None)
  {
    ClosingLineReads(found, key, value, indent, rest);
  }

  lemma OpenText(key: string, value: string)
    ensures var line := "" + key + "" + "=" + "" + QUOTES + "";
      key + "=" + QUOTES + "\n" + value + "\n" == line + "\n" + (value + "\n" + "")
    ensures "" + value + "\n" == value + "\n"
  {
  }

  lemma OpenLine(key: string)
    requires GoodKey(key)
    ensures '\n' !in "" + key + "" + "=" + "" + QUOTES + ""
    ensures ReadLine(Reading([], None), "" + key + "" + "=" + "" + QUOTES + "") == Reading([], Some(Pair(key, "")))
  {
    OpeningLineReads(Reading([], None), Entry(Pair(key, ""), Layout(true, "", "", "", "", "", "")));
  }

  /** A value that is still open at the end of the file ends there. */
  lemma OpenValueReads(key: string, value: string)
    requires GoodKey(key) && ManyLines(value)
    ensures Parse(key + "=" + QUOTES + "\n" + value + "\n") == [Pair(key, value + "\n")]
  {
    hide ReadLine, ReadLines, Lines, GoodKey, ManyLines;
    OpenText(key, value);
    OpenLine(key);
    FirstLineReads(Reading([], None), "" + key + "" + "=" + "" + QUOTES + "", value + "\n" + "");
    ContentReads([], key, "", value, "");
    NothingLeft(Reading([], Some(Pair(key, value + "\n"))));
    assert [] + [Pair(key, value + "\n")] == [Pair(key, value + "\n")];
  }

  lemma NothingLeft(r: Reading)
    ensures ReadLines(r, Lines("")) == r
  {
  }

  lemma PrintedSingle(key: string, value: string)
    requires GoodKey(key) && OneLine(value)
    ensures var e := Entry(Pair(key, value), Layout(false, "", " ", " ", "", "", ""));
      Printable(e) && Printed(e) == key + " = " + value + "\n"
  {
    assert "" + key + " " + "=" + " " + value + "" + "\n" == key + " = " + value + "\n";
  }

  lemma PrintedMultiline(key: string, value: string)
    requires GoodKey(key) && ManyLines(value)
    ensures var e := Entry(Pair(key, value), Layout(true, "", " ", "", "", "  ", ""));
      Printable(e) && Printed(e) == key + " =" + QUOTES + "\n" + value + "\n  " + QUOTES + "\n"
  {
    assert ("" + key + " " + "=" + "" + QUOTES + "" + "\n") + value + "\n" + "  " + QUOTES + "" + "\n"
        == key + " =" + QUOTES + "\n" + value + "\n  " + QUOTES + "\n";
  }

  lemma PrintedTwo(a: Entry, b: Entry)
    ensures PrintedAll([a, b]) == Printed(a) + Printed(b) && SecretsOf([a, b]) == [a.secret, b.secret]
  {
    assert [a, b][1..] == [b] && [b][1..] == [];
    assert PrintedAll([b]) == Printed(b) + "";
  }

  /** A file with a secret on one line and one on several. */
  lemma SmallFile(key: string, value: string, key': string, value': string)
    requires GoodKey(key) && OneLine(value) && GoodKey(key') && ManyLines(value')
    ensures Parse(key + " = " + value + "\n" + (key' + " =" + QUOTES + "\n" + value' + "\n  " + QUOTES + "\n"))
         == [Pair(key, value), Pair(key', value')]
  {
    hide *;
    var a := Entry(Pair(key, value), Layout(false, "", " ", " ", "", "", ""));
    var b := Entry(Pair(key', value'), Layout(true, "", " ", "", "", "  ", ""));
    PrintedSingle(key, value);
    PrintedMultiline(key', value');
    PrintedTwo(a, b);
    ParsePrinted([a, b]);
  }
}
