/** The keyword tree as `ltf logs info` draws it (src/ltf_logs.c).  The printer walks the tree with
    one growable vector that every level of the recursion writes to; what it prints is proved to be,
    node by node, a text that depends on nothing but the node's place in the tree. */
module LogsPrinter {
  import opened Options
  import opened DynArray
  import opened Keywords
  import opened KeywordStatus
  import opened Seqs

  const VERTICAL := "\U{2502}"
  const TEE := "\U{251C}\U{2500}\U{2500}"
  const CORNER := "\U{2514}\U{2500}\U{2500}"

  /** sizeof(decl_buf) - 1, with PATH_MAX 4096. */
  const DECLARATION_ROOM := 4096 + 32 - 1

  function Digits(n: nat): string {
    if n < 10 then [('0' as int + n) as char] else Digits(n / 10) + [('0' as int + n % 10) as char]
  }

  function Decimal(n: int): string {
    if n < 0 then "-" + Digits(-n) else Digits(n)
  }

  function OrNull(text: Option<string>): string {
    if text.Some? then text.value else "(null)"
  }

  function Declaration(k: Keyword): string {
    var text := OrNull(k.file) + ":" + Decimal(k.line);
    if |text| <= DECLARATION_ROOM then text else text[..DECLARATION_ROOM]
  }

  // ----- one node -----

  function Rail(more: bool): string {
    if more then VERTICAL + "       " else "        "
  }

  /** One column per ancestor, drawn through where that ancestor has a later sibling. */
  function Rails(above: seq<bool>): string {
    if above == [] then "" else Rails(above[..|above| - 1]) + Rail(above[|above| - 1])
  }

  function Branch(last: bool): string {
    if last then CORNER else TEE
  }

  predicate IsFinished(k: Keyword) {
    k.finished.Some? && k.finished.value != ""
  }

  datatype Property = Property(title: string, value: string)

  function Properties(k: Keyword): seq<Property> {
    [Property("Started: ", if k.started.Some? then k.started.value else "")]
    + (if IsFinished(k) then [Property("Finished: ", k.finished.value)] else [])
    + [Property("Declaration: ", Declaration(k))]
    + (if k.children != [] then [Property("Children:", "")] else [])
  }

  function PropertyLine(above: seq<bool>, later: bool, last: bool, p: Property): string {
    Rails(above) + (if later then VERTICAL + "   " else "    ") + Branch(last) + " " + p.title + p.value + "\n"
  }

  /** The first n property lines; only the last of all has a corner. */
  function PropertyLines(k: Keyword, above: seq<bool>, later: bool, n: nat): string
    requires n <= |Properties(k)|
  {
    if n == 0 then ""
    else
      PropertyLines(k, above, later, n - 1)
      + PropertyLine(above, later, n == |Properties(k)|, Properties(k)[n - 1])
  }

  function Header(k: Keyword, above: seq<bool>, later: bool): string {
    Rails(above) + Branch(!later) + ("[" + OrNull(k.name) + "]\n")
  }

  /** What is printed for a node, without its children. */
  function NodeText(k: Keyword, above: seq<bool>, later: bool): string {
    Header(k, above, later) + PropertyLines(k, above, later, |Properties(k)|)
  }

  // ----- the tree -----

  /** A node and what is under it. */
  function Subtree(k: Keyword, above: seq<bool>, later: bool): string
    decreases k, 0
  {
    NodeText(k, above, later) + Render(k.children, 0, above + [later])
  }

  /** The nodes from the i-th on, each followed by its children. */
  function Render(ks: seq<Keyword>, i: nat, above: seq<bool>): string
    requires i <= |ks|
    decreases ks, |ks| - i
  {
    if i == |ks| then "" else Subtree(ks[i], above, i + 1 < |ks|) + Render(ks, i + 1, above)
  }

  /** The node at a path has a sibling after it. */
  predicate HasLater(top: seq<Keyword>, path: seq<nat>)
    requires path != [] && ValidPath(top, path)
  {
    PrefixValid(top, path[..|path| - 1], path);
    path[|path| - 1] + 1 < |Children(top, path[..|path| - 1])|
  }

  function LaterAlong(top: seq<Keyword>, path: seq<nat>): (flags: seq<bool>)
    requires ValidPath(top, path)
    ensures |flags| == |path|
    decreases |path|
  {
    if path == [] then []
    else
      var owner := path[..|path| - 1];
      PrefixValid(top, owner, path);
      LaterAlong(top, owner) + [HasLater(top, path)]
  }

  function NodeAt(top: seq<Keyword>, path: seq<nat>): Keyword
    requires path != [] && ValidPath(top, path)
  {
    var owner, last := path[..|path| - 1], path[|path| - 1];
    assert path == owner + [last];
    OwnerValid(top, owner, last);
    Children(top, owner)[last]
  }

  /** What is printed for the node at a path: a column for each ancestor says whether that ancestor
      has a later sibling, and the rest is about the node. */
  function Block(top: seq<Keyword>, path: seq<nat>): string
    requires path != [] && ValidPath(top, path)
  {
    var owner := path[..|path| - 1];
    PrefixValid(top, owner, path);
    NodeText(NodeAt(top, path), LaterAlong(top, owner), HasLater(top, path))
  }

  /** The paths of the nodes from the i-th child of `owner` on, a parent before its children. */
  function Preorder(ks: seq<Keyword>, owner: seq<nat>, i: nat): seq<seq<nat>>
    requires i <= |ks|
    decreases ks, |ks| - i
  {
    if i == |ks| then []
    else [owner + [i]] + Preorder(ks[i].children, owner + [i], 0) + Preorder(ks, owner, i + 1)
  }

  predicate AllValid(top: seq<Keyword>, paths: seq<seq<nat>>) {
    forall p | p in paths :: p != [] && ValidPath(top, p)
  }

  function Blocks(top: seq<Keyword>, paths: seq<seq<nat>>): string
    requires AllValid(top, paths)
  {
    assert paths != [] ==> paths[0] in paths;
    if paths == [] then "" else Block(top, paths[0]) + Blocks(top, paths[1..])
  }

  lemma {:induction false} BlocksConcat(top: seq<Keyword>, a: seq<seq<nat>>, b: seq<seq<nat>>)
    requires AllValid(top, a) && AllValid(top, b)
    ensures AllValid(top, a + b) && Blocks(top, a + b) == Blocks(top, a) + Blocks(top, b)
    decreases a
  {
    hide Block, ValidPath;
    if a == [] {
      assert a + b == b;
    } else {
      BlocksConcat(top, a[1..], b);
      assert (a + b)[1..] == a[1..] + b;
    }
  }

  lemma {:induction false} BlocksOfNode(top: seq<Keyword>, path: seq<nat>, below: seq<seq<nat>>, after: seq<seq<nat>>)
    requires path != [] && ValidPath(top, path) && AllValid(top, below) && AllValid(top, after)
    ensures AllValid(top, [path] + below + after)
    ensures Blocks(top, [path] + below + after) == Block(top, path) + Blocks(top, below) + Blocks(top, after)
  {
    hide Block, ValidPath;
    BlocksConcat(top, [path], below);
    BlocksConcat(top, [path] + below, after);
    assert [path][1..] == [];
    assert Blocks(top, [path]) == Block(top, path) + "";
  }

  lemma {:induction false} ChildrenOf(top: seq<Keyword>, owner: seq<nat>, i: nat)
    requires ValidPath(top, owner) && i < |Children(top, owner)|
    ensures ValidPath(top, owner + [i]) && Children(top, owner + [i]) == Children(top, owner)[i].children
    decreases owner
  {
    OwnerValid(top, owner, i);
    if owner == [] {
      assert [i][1..] == [];
      assert owner + [i] == [i];
    } else {
      assert (owner + [i])[1..] == owner[1..] + [i];
      ChildrenOf(top[owner[0]].children, owner[1..], i);
    }
  }

  lemma BlockOf(top: seq<Keyword>, owner: seq<nat>, i: nat)
    requires ValidPath(top, owner) && i < |Children(top, owner)| && ValidPath(top, owner + [i])
    ensures var path, later := owner + [i], i + 1 < |Children(top, owner)|;
      && LaterAlong(top, path) == LaterAlong(top, owner) + [later]
      && Block(top, path) == NodeText(Children(top, owner)[i], LaterAlong(top, owner), later)
  {
    hide NodeText;
    var path := owner + [i];
    assert path[..|path| - 1] == owner;
  }

  lemma RenderStep(ks: seq<Keyword>, i: nat, above: seq<bool>)
    requires i < |ks|
    ensures var later := i + 1 < |ks|;
      Render(ks, i, above)
      == NodeText(ks[i], above, later) + Render(ks[i].children, 0, above + [later]) + Render(ks, i + 1, above)
  {
    hide NodeText;
  }

  lemma PreorderStep(ks: seq<Keyword>, owner: seq<nat>, i: nat)
    requires i < |ks|
    ensures Preorder(ks, owner, i)
         == [owner + [i]] + Preorder(ks[i].children, owner + [i], 0) + Preorder(ks, owner, i + 1)
  {
  }

  lemma NothingLeft(ks: seq<Keyword>, owner: seq<nat>, above: seq<bool>, top: seq<Keyword>)
    ensures Preorder(ks, owner, |ks|) == [] && Render(ks, |ks|, above) == ""
    ensures AllValid(top, []) && Blocks(top, []) == ""
  {
  }

  lemma {:induction false} RenderIsBlocks(top: seq<Keyword>, owner: seq<nat>, i: nat)
    requires ValidPath(top, owner) && i <= |Children(top, owner)|
    ensures var ks := Children(top, owner);
      && AllValid(top, Preorder(ks, owner, i))
      && Render(ks, i, LaterAlong(top, owner)) == Blocks(top, Preorder(ks, owner, i))
    decreases Children(top, owner), |Children(top, owner)| - i
  {
    hide *;
    var ks := Children(top, owner);
    if i == |ks| {
      NothingLeft(ks, owner, LaterAlong(top, owner), top);
      return;
    }
    RenderStep(ks, i, LaterAlong(top, owner));
    PreorderStep(ks, owner, i);
    var path := owner + [i];
    ChildrenOf(top, owner, i);
    PathNotEmpty(owner, i);
    BlockOf(top, owner, i);
    RenderIsBlocks(top, path, 0);
    RenderIsBlocks(top, owner, i + 1);
    BlocksOfNode(top, path, Preorder(ks[i].children, path, 0), Preorder(ks, owner, i + 1));
  }

  lemma PathNotEmpty(owner: seq<nat>, i: nat)
    ensures owner + [i] != []
  {
  }

  /** The printed tree is the text of every node, in preorder, where each node's text is told by its
      place in the tree. */
  lemma TreeIsBlocks(top: seq<Keyword>)
    ensures AllValid(top, Preorder(top, [], 0)) && Render(top, 0, []) == Blocks(top, Preorder(top, [], 0))
  {
    RenderIsBlocks(top, [], 0);
  }

  // ----- every node once, in order -----

  /** A parent comes before what is under it, and an earlier sibling before a later one. */
  predicate Before(p: seq<nat>, q: seq<nat>) {
    q != [] && (p == [] || p[0] < q[0] || (p[0] == q[0] && Before(p[1..], q[1..])))
  }

  predicate Sorted(paths: seq<seq<nat>>) {
    forall i, j | 0 <= i < j < |paths| :: Before(paths[i], paths[j])
  }

  lemma {:induction false} BeforeUnder(owner: seq<nat>, p: seq<nat>, q: seq<nat>)
    ensures Before(owner + p, owner + q) <==> Before(p, q)
    decreases owner
  {
    if owner == [] {
      assert owner + p == p && owner + q == q;
    } else {
      assert (owner + p)[1..] == owner[1..] + p && (owner + q)[1..] == owner[1..] + q;
      BeforeUnder(owner[1..], p, q);
    }
  }

  /** The path goes through the i-th child of `owner` or a later one. */
  predicate From(path: seq<nat>, owner: seq<nat>, i: nat) {
    owner < path && path[|owner|] >= i
  }

  lemma {:induction false} PreorderFrom(ks: seq<Keyword>, owner: seq<nat>, i: nat, path: seq<nat>)
    requires i <= |ks| && path in Preorder(ks, owner, i)
    ensures From(path, owner, i)
    decreases ks, |ks| - i
  {
    if path in Preorder(ks[i].children, owner + [i], 0) {
      PreorderFrom(ks[i].children, owner + [i], 0, path);
      assert path[..|owner|] == (owner + [i])[..|owner|] == owner;
    } else if path in Preorder(ks, owner, i + 1) {
      PreorderFrom(ks, owner, i + 1, path);
    }
  }

  lemma FromOrdered(owner: seq<nat>, i: nat, p: seq<nat>, q: seq<nat>)
    requires p == owner + [i] || From(p, owner + [i], 0)
    requires From(q, owner, i + 1) || (p == owner + [i] && From(q, owner + [i], 0))
    ensures Before(p, q)
  {
    var n := |owner|;
    assert p == owner + p[n..] && q == owner + q[n..];
    assert p[..n + 1] == owner + [i];
    assert p[n] == i;
    if From(q, owner + [i], 0) && p == owner + [i] {
      assert q[n] == i;
      assert p[n..][1..] == [] && q[n..][1..] != [];
    }
    BeforeUnder(owner, p[n..], q[n..]);
  }

  lemma {:induction false} PreorderSorted(ks: seq<Keyword>, owner: seq<nat>, i: nat)
    requires i <= |ks|
    ensures Sorted(Preorder(ks, owner, i))
    decreases ks, |ks| - i
  {
    if i < |ks| {
      var path := owner + [i];
      var below, after := Preorder(ks[i].children, path, 0), Preorder(ks, owner, i + 1);
      PreorderSorted(ks[i].children, path, 0);
      PreorderSorted(ks, owner, i + 1);
      forall p | p in below ensures From(p, path, 0) {
        PreorderFrom(ks[i].children, path, 0, p);
      }
      forall p | p in after ensures From(p, owner, i + 1) {
        PreorderFrom(ks, owner, i + 1, p);
      }
      SortedJoin(owner, i, below, after);
    }
  }

  lemma SortedJoin(owner: seq<nat>, i: nat, below: seq<seq<nat>>, after: seq<seq<nat>>)
    requires Sorted(below) && Sorted(after)
    requires forall p | p in below :: From(p, owner + [i], 0)
    requires forall p | p in after :: From(p, owner, i + 1)
    ensures Sorted([owner + [i]] + below + after)
  {
    hide Before, From;
    var all := [owner + [i]] + below + after;
    var n := 1 + |below|;
    forall j, k | 0 <= j < k < |all| ensures Before(all[j], all[k]) {
      if j < n && (j == 0 || k >= n) {
        assert all[j] == owner + [i] || all[j] in below;
        assert all[k] in below || all[k] in after;
        FromOrdered(owner, i, all[j], all[k]);
      } else if j < n {
        assert all[j] == below[j - 1] && all[k] == below[k - 1];
      } else {
        assert all[j] == after[j - n] && all[k] == after[k - n];
      }
    }
  }

  lemma {:induction false} PreorderReaches(ks: seq<Keyword>, owner: seq<nat>, i: nat, path: seq<nat>)
    requires i <= |ks| && path != [] && ValidPath(ks, path) && path[0] >= i
    ensures owner + path in Preorder(ks, owner, i)
    decreases ks, |ks| - i
  {
    if path[0] > i {
      PreorderReaches(ks, owner, i + 1, path);
    } else if |path| > 1 {
      PreorderReaches(ks[i].children, owner + [i], 0, path[1..]);
      assert owner + path == owner + [i] + path[1..];
    } else {
      assert path == [i];
    }
  }

  /** Every node of the tree is drawn exactly once, parents before children and siblings in order. */
  lemma EveryNodeOnce(top: seq<Keyword>, path: seq<nat>)
    ensures path in Preorder(top, [], 0) <==> path != [] && ValidPath(top, path)
    ensures Sorted(Preorder(top, [], 0))
  {
    PreorderSorted(top, [], 0);
    TreeIsBlocks(top);
    if path != [] && ValidPath(top, path) {
      PreorderReaches(top, [], 0, path);
      assert [] + path == path;
    }
  }

  // ----- the printer -----

  /** What the vector says about the levels above; a level it does not reach has no sibling. */
  function Flags(more: seq<bool>, level: nat): (flags: seq<bool>)
    ensures |flags| == level
  {
    seq(level, i requires 0 <= i < level => i < |more| && more[i])
  }

  method EnsureDepth(v: DynArray<bool>, needed: nat)
    requires v.Valid()
    modifies v, v.data
    ensures v.Valid() && (v.data == old(v.data) || fresh(v.data))
    ensures v.Contents() == if old(v.size) < needed then Flags(old(v.Contents()), needed) else old(v.Contents())
  {
    var cur := v.size;
    if cur < needed {
      var resized := v.Resize(needed);
      for i := cur to needed
        invariant v.Valid() && v.size == needed && (v.data == old(v.data) || fresh(v.data))
        invariant v.Contents()[..cur] == old(v.Contents())
        invariant forall j | cur <= j < i :: !v.Contents()[j]
      {
        var done := v.Set(i, false);
      }
      assert forall j | 0 <= j < cur :: v.Contents()[j] == v.Contents()[..cur][j];
    }
  }

  lemma NoLines(k: Keyword, above: seq<bool>, later: bool, start: string)
    ensures start == start + PropertyLines(k, above, later, 0)
  {
  }

  lemma NextLine(k: Keyword, above: seq<bool>, later: bool, idx: nat, start: string, before: string, after: string)
    requires 0 < idx <= |Properties(k)|
    requires before == start + PropertyLines(k, above, later, idx - 1)
    requires after == before + PropertyLine(above, later, idx == |Properties(k)|, Properties(k)[idx - 1])
    ensures after == start + PropertyLines(k, above, later, idx)
  {
    hide Properties, PropertyLine;
    Associative(start, PropertyLines(k, above, later, idx - 1),
             PropertyLine(above, later, idx == |Properties(k)|, Properties(k)[idx - 1]));
  }

  class Printer {
    var out: string

    constructor ()
      ensures out == ""
    {
      out := "";
    }

    /** Writes one more piece after what has been said since `start`. */
    method Put(piece: string, ghost start: string, ghost said: string)
      requires out == start + said
      modifies this
      ensures out == start + (said + piece)
    {
      out := out + piece;
      Associative(start, said, piece);
    }

    method PutPrefix(v: DynArray<bool>, level: nat)
      requires v.Valid()
      modifies this
      ensures out == old(out) + Rails(Flags(v.Contents(), level))
    {
      assert out == out + Rails([]);
      for i := 0 to level
        invariant out == old(out) + Rails(Flags(v.Contents(), i))
      {
        var more := v.Get(i);
        assert Flags(v.Contents(), i + 1)[..i] == Flags(v.Contents(), i);
        Put(if more == Some(true) then VERTICAL + "       " else "        ", old(out), Rails(Flags(v.Contents(), i)));
      }
    }

    method PrintProp(v: DynArray<bool>, level: nat, continues: bool, last: bool, title: string, value: Option<string>)
      requires v.Valid()
      modifies this
      ensures out == old(out) + PropertyLine(Flags(v.Contents(), level), continues, last,
                                             Property(title, if value.Some? then value.value else ""))
    {
      hide Rails;
      PutPrefix(v, level);
      ghost var start, said := old(out), Rails(Flags(v.Contents(), level));
      var rail := if continues then VERTICAL + "   " else "    ";
      Put(rail, start, said);
      said := said + rail;
      var branch := if last then CORNER else TEE;
      Put(branch, start, said);
      said := said + branch;
      Put(" ", start, said);
      said := said + " ";
      Put(title, start, said);
      said := said + title;
      if value.Some? {
        Put(value.value, start, said);
        said := said + value.value;
      } else {
        assert said + "" == said;
      }
      Put("\n", start, said);
    }

    /** The header and the properties of a keyword, counted as the program counts them. */
    method PrintNode(k: Keyword, v: DynArray<bool>, level: nat, isLast: bool)
      requires v.Valid()
      modifies this
      ensures out == old(out) + NodeText(k, Flags(v.Contents(), level), !isLast)
    {
      hide PropertyLine, PropertyLines, Rails, Declaration;
      ghost var above, later := Flags(v.Contents(), level), !isLast;
      PrintHeader(k, v, level, isLast);
      ghost var start, before := out, out;
      var total := 2 + (if IsFinished(k) then 1 else 0) + if k.children != [] then 1 else 0;
      var idx := 1;
      PrintProp(v, level, !isLast, idx == total, "Started: ", k.started);
      NoLines(k, above, later, start);
      NextLine(k, above, later, idx, start, before, out);
      if IsFinished(k) {
        before := out;
        idx := idx + 1;
        PrintProp(v, level, !isLast, idx == total, "Finished: ", k.finished);
        NextLine(k, above, later, idx, start, before, out);
      }
      before := out;
      idx := idx + 1;
      PrintProp(v, level, !isLast, idx == total, "Declaration: ", Some(Declaration(k)));
      NextLine(k, above, later, idx, start, before, out);
      if k.children != [] {
        before := out;
        idx := idx + 1;
        PrintProp(v, level, !isLast, idx == total, "Children:", None);
        NextLine(k, above, later, idx, start, before, out);
      }
      Associative(old(out), Header(k, above, later), PropertyLines(k, above, later, |Properties(k)|));
    }

    method PrintHeader(k: Keyword, v: DynArray<bool>, level: nat, isLast: bool)
      requires v.Valid()
      modifies this
      ensures out == old(out) + Header(k, Flags(v.Contents(), level), !isLast)
    {
      hide Rails;
      PutPrefix(v, level);
      ghost var said := Rails(Flags(v.Contents(), level));
      Put(if isLast then CORNER else TEE, old(out), said);
      said := said + Branch(isLast);
      Put("[" + OrNull(k.name) + "]\n", old(out), said);
    }

    /** Prints a keyword and what is under it, and leaves what the vector says about the levels above
        as it was. */
    method PrintKeyword(k: Keyword, v: DynArray<bool>, level: nat, isLast: bool)
      requires v.Valid()
      modifies this, v, v.data
      ensures v.Valid() && (v.data == old(v.data) || fresh(v.data))
      ensures Flags(v.Contents(), level) == Flags(old(v.Contents()), level)
      ensures out == old(out) + Subtree(k, Flags(old(v.Contents()), level), !isLast)
      decreases k
    {
      hide NodeText, Render;
      ghost var above := Flags(v.Contents(), level);
      EnsureDepth(v, level + 1);
      var done := v.Set(level, !isLast);
      assert Flags(v.Contents(), level) == above;
      assert Flags(v.Contents(), level + 1) == above + [!isLast];
      PrintNode(k, v, level, isLast);
      ghost var said := NodeText(k, above, !isLast);
      PrintChildren(k.children, v, level + 1, old(out), said);
      assert Flags(v.Contents(), level) == Flags(v.Contents(), level + 1)[..level];
    }

    /** The loop over siblings, which the printer has for the children of a keyword and for the
        keywords of a test. */
    method PrintChildren(ks: seq<Keyword>, v: DynArray<bool>, level: nat, ghost start: string, ghost said: string)
      requires v.Valid() && out == start + said
      modifies this, v, v.data
      ensures v.Valid() && (v.data == old(v.data) || fresh(v.data))
      ensures Flags(v.Contents(), level) == Flags(old(v.Contents()), level)
      ensures out == start + (said + Render(ks, 0, Flags(old(v.Contents()), level)))
      decreases ks
    {
      hide Subtree;
      ghost var above, sofar := Flags(v.Contents(), level), said;
      for i := 0 to |ks|
        invariant v.Valid() && (v.data == old(v.data) || fresh(v.data))
        invariant Flags(v.Contents(), level) == above
        invariant out == start + sofar
        invariant sofar + Render(ks, i, above) == said + Render(ks, 0, above)
      {
        PrintKeyword(ks[i], v, level, i == |ks| - 1);
        ghost var more := Subtree(ks[i], above, i + 1 < |ks|);
        Associative(start, sofar, more);
        Associative(sofar, more, Render(ks, i + 1, above));
        sofar := sofar + more;
      }
      assert sofar + "" == sofar;
    }

    /** Prints all keywords of a test, starting from a fresh vector. */
    method PrintTree(top: seq<Keyword>)
      modifies this
      ensures out == old(out) + Render(top, 0, [])
    {
      if |top| == 0 {
        assert out == out + "";
        return;
      }
      hide Render;
      var v := new DynArray<bool>(4);
      assert Flags(v.Contents(), 0) == [];
      assert out == out + "";
      PrintChildren(top, v, 0, out, "");
      assert "" + Render(top, 0, []) == Render(top, 0, []);
    }
  }
}
