/** The lines that are drawn for a keyword, character by character. */
module KeywordText {
  import opened Options
  import opened Keywords
  import opened LogsPrinter
  import opened Seqs

  // ----- the columns in front -----

  lemma RailIs(more: bool)
    ensures |Rail(more)| == 8 && Rail(more) == if more then "\U{2502}       " else "        "
  {
  }

  lemma RailsStep(above: seq<bool>)
    ensures Rails([]) == ""
    ensures above != [] ==> Rails(above) == Rails(above[..|above| - 1]) + Rail(above[|above| - 1])
  {
  }

  lemma SliceOfFront(a: string, b: string, i: nat, j: nat)
    requires i <= j <= |a| + |b|
    ensures j <= |a| ==> (a + b)[i..j] == a[i..j]
    ensures i == |a| && j == |a| + |b| ==> (a + b)[i..j] == b
  {
  }

  /** Every ancestor has eight columns: drawn through if it has a later sibling, and blank if not. */
  lemma {:induction false} RailsAt(above: seq<bool>, i: nat)
    requires i <= |above|
    ensures |Rails(above)| == 8 * |above|
    ensures i < |above| ==> Rails(above)[8 * i..8 * i + 8] == if above[i] then "\U{2502}       " else "        "
    decreases |above|
  {
    hide *;
    RailsStep(above);
    if above != [] {
      var front, last := above[..|above| - 1], above[|above| - 1];
      RailIs(last);
      RailsAt(front, if i < |front| then i else |front|);
      if i < |above| {
        SliceOfFront(Rails(front), Rail(last), 8 * i, 8 * i + 8);
      }
    }
  }

  // ----- the lines -----

  /** One line for a fact about the keyword: the last of them has a corner. */
  function FactLine(above: seq<bool>, later: bool, last: bool, text: string): string {
    Rails(above) + (if later then "\U{2502}   " else "    ")
    + (if last then "\U{2514}\U{2500}\U{2500} " else "\U{251C}\U{2500}\U{2500} ") + text + "\n"
  }

  lemma PropertyIsFact(above: seq<bool>, later: bool, last: bool, title: string, value: string)
    ensures PropertyLine(above, later, last, Property(title, value)) == FactLine(above, later, last, title + value)
  {
    var front := Rails(above) + (if later then VERTICAL + "   " else "    ");
    hide Rails;
    Associative(front, Branch(last), " ");
    assert Branch(last) + " " == if last then "\U{2514}\U{2500}\U{2500} " else "\U{251C}\U{2500}\U{2500} ";
    Associative(front + (Branch(last) + " "), title, value);
  }

  /** The keyword has been closed, with a text that is not empty. */
  predicate Closed(k: Keyword) {
    k.finished.Some? && k.finished.value != ""
  }

  /** A keyword is its name, when it started, when it finished if it did, where it was declared, and a heading
      for its children if it has any. */
  function Facts(k: Keyword, above: seq<bool>, later: bool): string {
    Rails(above) + (if later then "\U{251C}\U{2500}\U{2500}" else "\U{2514}\U{2500}\U{2500}")
    + ("[" + (if k.name.Some? then k.name.value else "(null)") + "]\n")
    + FactLine(above, later, false, "Started: " + if k.started.Some? then k.started.value else "")
    + (if Closed(k) then FactLine(above, later, false, "Finished: " + k.finished.value) else "")
    + FactLine(above, later, k.children == [], "Declaration: " + Declaration(k))
    + (if k.children != [] then FactLine(above, later, true, "Children:" + "") else "")
  }

  lemma LinesStep(k: Keyword, above: seq<bool>, later: bool, n: nat)
    requires 0 < n <= |Properties(k)|
    ensures var p := Properties(k)[n - 1];
      PropertyLines(k, above, later, n)
      == PropertyLines(k, above, later, n - 1) + FactLine(above, later, n == |Properties(k)|, p.title + p.value)
  {
    var p := Properties(k)[n - 1];
    PropertyIsFact(above, later, n == |Properties(k)|, p.title, p.value);
  }

  lemma NoLine(k: Keyword, above: seq<bool>, later: bool)
    ensures PropertyLines(k, above, later, 0) == ""
  {
  }

  lemma PropertiesAre(k: Keyword)
    ensures var p, n, m := Properties(k), if Closed(k) then 3 else 2, if k.children != [] then 1 else 0;
      && |p| == n + m
      && p[0] == Property("Started: ", if k.started.Some? then k.started.value else "")
      && (Closed(k) ==> p[1] == Property("Finished: ", k.finished.value))
      && p[n - 1] == Property("Declaration: ", Declaration(k))
      && (k.children != [] ==> p[n] == Property("Children:", ""))
  {
    hide Declaration;
  }

  lemma NodeSays(k: Keyword, above: seq<bool>, later: bool)
    ensures NodeText(k, above, later) == Facts(k, above, later)
  {
    PropertiesAre(k);
    hide FactLine, PropertyLines, PropertyLine, Properties, Rails, Declaration;
    var p, n := Properties(k), |Properties(k)|;
    NoLine(k, above, later);
    LinesStep(k, above, later, 1);
    LinesStep(k, above, later, 2);
    if n > 2 {
      LinesStep(k, above, later, 3);
    }
    if n > 3 {
      LinesStep(k, above, later, 4);
    }
    LinesJoin(Header(k, above, later),
              FactLine(above, later, false, "Started: " + if k.started.Some? then k.started.value else ""),
              if Closed(k) then FactLine(above, later, false, "Finished: " + k.finished.value) else "",
              FactLine(above, later, k.children == [], "Declaration: " + Declaration(k)),
              if k.children != [] then FactLine(above, later, true, "Children:" + "") else "");
  }

  lemma LinesJoin(h: string, a: string, b: string, c: string, d: string)
    ensures h + ("" + a + b + c + d) == h + a + b + c + d
    ensures h + ("" + a + c + d) == h + a + "" + c + d
    ensures h + ("" + a + b + c) == h + a + b + c + ""
    ensures h + ("" + a + c) == h + a + "" + c + ""
  {
  }

  // ----- the declaration -----

  /** The number that a text of digits writes. */
  function ValueOf(digits: string): nat {
    if digits == "" then 0
    else
      var last := digits[|digits| - 1];
      10 * ValueOf(digits[..|digits| - 1]) + if '0' <= last <= '9' then last as int - '0' as int else 0
  }

  predicate AllDigits(text: string) {
    text != "" && forall i | 0 <= i < |text| :: '0' <= text[i] <= '9'
  }

  lemma {:induction false} DigitsRead(n: nat)
    ensures AllDigits(Digits(n)) && ValueOf(Digits(n)) == n
    ensures |Digits(n)| > 1 ==> Digits(n)[0] != '0'
    ensures |Digits(n)| == 1 ==> n < 10
  {
    if n < 10 {
      assert Digits(n)[..0] == "";
    } else {
      DigitsRead(n / 10);
      assert Digits(n)[..|Digits(n)| - 1] == Digits(n / 10);
      if |Digits(n / 10)| == 1 {
        assert ValueOf(Digits(n / 10)) == n / 10;
        assert Digits(n / 10)[..0] == "";
        assert ValueOf("") == 0;
      }
    }
  }

  /** A declaration is the file, ":" and the line in decimal, cut to 4127 characters. */
  lemma DeclarationSays(k: Keyword)
    ensures var file := if k.file.Some? then k.file.value else "(null)";
      var line := if k.line < 0 then "-" + Digits(-k.line) else Digits(k.line);
      Declaration(k) == if |file + ":" + line| <= 4127 then file + ":" + line else (file + ":" + line)[..4127]
  {
  }

  // ----- a tree -----

  /** A keyword with one child, and another one after it. */
  lemma SmallTree(a: Keyword, b: Keyword, c: Keyword)
    requires a.children == [c] && b.children == [] && c.children == []
    ensures Render([a, b], 0, []) == Facts(a, [], true) + Facts(c, [true], false) + Facts(b, [], false)
  {
    NodeSays(a, [], true);
    NodeSays(c, [true], false);
    NodeSays(b, [], false);
    hide NodeText, Facts;
    assert [] + [true] == [true] && [true] + [false] == [true, false] && [] + [false] == [false];
    RenderStep([a, b], 0, []);
    RenderStep([a, b], 1, []);
    RenderStep([c], 0, [true]);
    assert NodeText(b, [], false) + "" + "" == NodeText(b, [], false);
    assert NodeText(c, [true], false) + "" + "" == NodeText(c, [true], false);
    assert Render([a, b], 0, []) == NodeText(a, [], true) + Render([c], 0, [true]) + Render([a, b], 1, []);
  }
}
