/** Scenario files and their include chains (src/ltf_test_scenarios.c): what a list ends up holding
    after every file of the chain has appended to it, removed from it or replaced it. */
module Scenarios {
  import opened Options
  import opened DynArray
  import opened Pairs

  /** What a file asks for one list: x:append, x:remove and x, of which each may be empty. */
  datatype Change<T> = Change(append: seq<T>, remove: seq<string>, replace: seq<T>)

  datatype Scenario = Scenario(
    includes: Option<string>,
    tags: Change<string>,
    vars: Change<Pair<string>>,
    order: Change<string>)

  /** The readable files; a file that is no scenario holds None. */
  type Files = map<string, Option<Scenario>>

  // ----- the meaning of a chain -----

  function RemoveFirst<T>(items: seq<T>, keyOf: T -> string, key: string): seq<T> {
    if items == [] then []
    else if keyOf(items[0]) == key then items[1..]
    else [items[0]] + RemoveFirst(items[1..], keyOf, key)
  }

  function RemoveAll<T>(items: seq<T>, keyOf: T -> string, keys: seq<string>): seq<T>
    decreases keys
  {
    if keys == [] then items
    else RemoveFirst(RemoveAll(items, keyOf, keys[..|keys| - 1]), keyOf, keys[|keys| - 1])
  }

  /** Append, then remove, then replace. */
  function Changed<T>(items: seq<T>, keyOf: T -> string, c: Change<T>): seq<T> {
    var rest := RemoveAll(items + c.append, keyOf, c.remove);
    if c.replace == [] then rest else c.replace
  }

  /** All changes, the outermost ancestor's first. */
  function Effective<T>(items: seq<T>, keyOf: T -> string, changes: seq<Change<T>>): seq<T> {
    if changes == [] then items
    else Changed(Effective(items, keyOf, changes[..|changes| - 1]), keyOf, changes[|changes| - 1])
  }

  function Itself(s: string): string {
    s
  }

  function KeyOf(p: Pair<string>): string {
    p.key
  }

  // ----- what removal leaves -----

  function Keys<T>(items: seq<T>, keyOf: T -> string): (keys: seq<string>)
    ensures |keys| == |items|
  {
    seq(|items|, i requires 0 <= i < |items| => keyOf(items[i]))
  }

  /** The items before which more of their key have come than are listed for removal. */
  function Survivors<T>(items: seq<T>, keyOf: T -> string, listed: multiset<string>): seq<T> {
    if items == [] then []
    else
      var front, last := items[..|items| - 1], items[|items| - 1];
      Survivors(front, keyOf, listed)
      + if multiset(Keys(front, keyOf))[keyOf(last)] >= listed[keyOf(last)] then [last] else []
  }

  lemma KeysPush<T>(items: seq<T>, keyOf: T -> string, x: T)
    ensures Keys(items + [x], keyOf) == Keys(items, keyOf) + [keyOf(x)]
  {
  }

  lemma RemoveFirstCons<T>(x: T, rest: seq<T>, keyOf: T -> string, key: string)
    ensures RemoveFirst([x] + rest, keyOf, key)
         == if keyOf(x) == key then rest else [x] + RemoveFirst(rest, keyOf, key)
    ensures Keys([x] + rest, keyOf) == [keyOf(x)] + Keys(rest, keyOf)
  {
    assert ([x] + rest)[1..] == rest;
  }

  lemma {:induction false} RemoveFirstPush<T>(items: seq<T>, keyOf: T -> string, x: T, key: string)
    ensures RemoveFirst(items + [x], keyOf, key)
         == if key in Keys(items, keyOf) then RemoveFirst(items, keyOf, key) + [x]
            else if keyOf(x) == key then items
            else items + [x]
  {
    if items == [] {
      assert items + [x] == [x] + [];
      RemoveFirstCons(x, [], keyOf, key);
      return;
    }
    hide *;
    var first, rest := items[0], items[1..];
    RemoveFirstPush(rest, keyOf, x, key);
    RemoveFirstCons(first, rest, keyOf, key);
    RemoveFirstCons(first, rest + [x], keyOf, key);
    assert items == [first] + rest;
    assert [first] + rest + [x] == [first] + (rest + [x]);
    assert key in [keyOf(first)] + Keys(rest, keyOf) <==> key == keyOf(first) || key in Keys(rest, keyOf);
    assert [first] + RemoveFirst(rest, keyOf, key) + [x] == [first] + (RemoveFirst(rest, keyOf, key) + [x]);
  }

  lemma {:induction false} RemoveFirstKeys<T>(items: seq<T>, keyOf: T -> string, key: string)
    ensures multiset(Keys(RemoveFirst(items, keyOf, key), keyOf)) == multiset(Keys(items, keyOf)) - multiset{key}
    decreases items
  {
    if items != [] {
      var front, last := items[..|items| - 1], items[|items| - 1];
      assert items == front + [last];
      RemoveFirstKeys(front, keyOf, key);
      RemoveFirstPush(front, keyOf, last, key);
      KeysPush(front, keyOf, last);
      KeysPush(RemoveFirst(front, keyOf, key), keyOf, last);
    }
  }

  /** Listing a key that is not there changes nothing. */
  lemma {:induction false} SurvivorsWithout<T>(items: seq<T>, keyOf: T -> string, listed: multiset<string>, key: string)
    requires key !in Keys(items, keyOf)
    ensures Survivors(items, keyOf, listed + multiset{key}) == Survivors(items, keyOf, listed)
    decreases items
  {
    if items != [] {
      var front, last := items[..|items| - 1], items[|items| - 1];
      assert items == front + [last];
      KeysPush(front, keyOf, last);
      SurvivorsWithout(front, keyOf, listed, key);
    }
  }

  lemma SurvivorsPush<T>(items: seq<T>, keyOf: T -> string, x: T, listed: multiset<string>)
    ensures Survivors(items + [x], keyOf, listed)
         == Survivors(items, keyOf, listed)
            + if multiset(Keys(items, keyOf))[keyOf(x)] >= listed[keyOf(x)] then [x] else []
  {
    assert (items + [x])[..|items|] == items;
  }

  lemma {:induction false} SurvivorsStep<T>(items: seq<T>, keyOf: T -> string, listed: multiset<string>, key: string)
    ensures Survivors(RemoveFirst(items, keyOf, key), keyOf, listed) == Survivors(items, keyOf, listed + multiset{key})
    decreases items
  {
    if items == [] {
      return;
    }
    hide *;
    var front, last := items[..|items| - 1], items[|items| - 1];
    assert items == front + [last];
    RemoveFirstPush(front, keyOf, last, key);
    SurvivorsPush(front, keyOf, last, listed + multiset{key});
    if key in Keys(front, keyOf) {
      SurvivorsStep(front, keyOf, listed, key);
      RemoveFirstKeys(front, keyOf, key);
      SurvivorsPush(RemoveFirst(front, keyOf, key), keyOf, last, listed);
      assert multiset(Keys(front, keyOf))[key] > 0;
    } else {
      SurvivorsWithout(front, keyOf, listed, key);
      SurvivorsPush(front, keyOf, last, listed);
      assert multiset(Keys(front, keyOf))[key] == 0;
      assert Survivors(front, keyOf, listed) + [] == Survivors(front, keyOf, listed);
    }
  }

  lemma {:induction false} SurvivorsOfNone<T>(items: seq<T>, keyOf: T -> string)
    ensures Survivors(items, keyOf, multiset{}) == items
    decreases items
  {
    if items != [] {
      SurvivorsOfNone(items[..|items| - 1], keyOf);
    }
  }

  lemma {:induction false} SurvivorsOfAll<T>(items: seq<T>, keyOf: T -> string, keys: seq<string>,
                                              listed: multiset<string>)
    ensures Survivors(RemoveAll(items, keyOf, keys), keyOf, listed) == Survivors(items, keyOf, multiset(keys) + listed)
    decreases keys
  {
    if keys != [] {
      var front, last := keys[..|keys| - 1], keys[|keys| - 1];
      assert keys == front + [last];
      SurvivorsStep(RemoveAll(items, keyOf, front), keyOf, listed, last);
      SurvivorsOfAll(items, keyOf, front, listed + multiset{last});
      assert multiset(keys) + listed == multiset(front) + (listed + multiset{last});
    } else {
      assert multiset(keys) + listed == listed;
    }
  }

  /** Removal takes the first occurrences of each key, as many as it is listed, whatever the order
      of the list, and keeps the rest in order. */
  lemma RemovalLeaves<T>(items: seq<T>, keyOf: T -> string, keys: seq<string>)
    ensures RemoveAll(items, keyOf, keys) == Survivors(items, keyOf, multiset(keys))
  {
    SurvivorsOfAll(items, keyOf, keys, multiset{});
    SurvivorsOfNone(RemoveAll(items, keyOf, keys), keyOf);
    assert multiset(keys) + multiset{} == multiset(keys);
  }

  /** What came before a non-empty redeclaration is gone. */
  lemma {:induction false} RedeclarationDiscards<T>(items: seq<T>, keyOf: T -> string, changes: seq<Change<T>>, i: nat)
    requires i < |changes| && changes[i].replace != []
    ensures Effective(items, keyOf, changes) == Effective(changes[i].replace, keyOf, changes[i + 1..])
    decreases |changes|
  {
    var n := |changes| - 1;
    if i < n {
      RedeclarationDiscards(items, keyOf, changes[..n], i);
      assert changes[..n][i + 1..] == changes[i + 1..][..n - i - 1];
    } else {
      assert changes[i + 1..] == [];
    }
  }

  // ----- include chains -----

  /** The directory part of a path, with its "/". */
  function Directory(path: string): string {
    if path == [] then ""
    else if path[|path| - 1] == '/' then path
    else Directory(path[..|path| - 1])
  }

  function IncludePath(path: string, name: string): string {
    Directory(path) + name + ".json"
  }

  /** The file a file includes. */
  function Included(files: Files, path: string): Option<string> {
    if path in files && files[path].Some? && files[path].value.includes.Some?
    then Some(IncludePath(path, files[path].value.includes.value))
    else None
  }

  /** The chain from a file ends after at most so many includes. */
  predicate Ends(files: Files, path: string, steps: nat)
    decreases steps
  {
    Included(files, path).None? || (steps > 0 && Ends(files, Included(files, path).value, steps - 1))
  }

  /** The scenarios of a chain, the outermost ancestor first, if all of them can be read. */
  function Chain(files: Files, path: string, steps: nat): Option<seq<Scenario>>
    requires Ends(files, path, steps)
    decreases steps
  {
    if path !in files || files[path].None? then None
    else if Included(files, path).None? then Some([files[path].value])
    else
      match Chain(files, Included(files, path).value, steps - 1)
      case None => None
      case Some(outer) => Some(outer + [files[path].value])
  }

  /** The chain does not depend on the bound. */
  lemma {:induction false} ChainIsOne(files: Files, path: string, m: nat, n: nat)
    requires Ends(files, path, m) && Ends(files, path, n)
    ensures Chain(files, path, m) == Chain(files, path, n)
    decreases m
  {
    if Included(files, path).Some? {
      ChainIsOne(files, Included(files, path).value, m - 1, n - 1);
    }
  }

  lemma ChainStep(files: Files, path: string, steps: nat, outer: seq<Scenario>)
    requires Ends(files, path, steps) && path in files && files[path].Some?
    requires match Included(files, path)
      case None => outer == []
      case Some(p) => Chain(files, p, steps - 1) == Some(outer)
    ensures Chain(files, path, steps) == Some(outer + [files[path].value])
  {
    if Included(files, path).None? {
      assert outer + [files[path].value] == [files[path].value];
    }
  }

  function TagsOf(chain: seq<Scenario>): (changes: seq<Change<string>>)
    ensures |changes| == |chain|
  {
    seq(|chain|, i requires 0 <= i < |chain| => chain[i].tags)
  }

  function VarsOf(chain: seq<Scenario>): (changes: seq<Change<Pair<string>>>)
    ensures |changes| == |chain|
  {
    seq(|chain|, i requires 0 <= i < |chain| => chain[i].vars)
  }

  function OrderOf(chain: seq<Scenario>): (changes: seq<Change<string>>)
    ensures |changes| == |chain|
  {
    seq(|chain|, i requires 0 <= i < |chain| => chain[i].order)
  }

  lemma EffectivePush(tags: seq<string>, vars: seq<Pair<string>>, order: seq<string>, outer: seq<Scenario>, s: Scenario)
    ensures Effective(tags, Itself, TagsOf(outer + [s]))
         == Changed(Effective(tags, Itself, TagsOf(outer)), Itself, s.tags)
    ensures Effective(vars, KeyOf, VarsOf(outer + [s])) == Changed(Effective(vars, KeyOf, VarsOf(outer)), KeyOf, s.vars)
    ensures Effective(order, Itself, OrderOf(outer + [s]))
         == Changed(Effective(order, Itself, OrderOf(outer)), Itself, s.order)
    ensures outer == [] ==> Effective(tags, Itself, TagsOf(outer)) == tags
    ensures outer == [] ==> Effective(vars, KeyOf, VarsOf(outer)) == vars
    ensures outer == [] ==> Effective(order, Itself, OrderOf(outer)) == order
  {
    hide Changed;
    assert TagsOf(outer + [s])[..|outer|] == TagsOf(outer);
    assert VarsOf(outer + [s])[..|outer|] == VarsOf(outer);
    assert OrderOf(outer + [s])[..|outer|] == OrderOf(outer);
  }

  /** The file reached after so many includes. */
  function Reached(files: Files, path: string, n: nat): Option<string> {
    if n == 0 then Some(path)
    else
      match Reached(files, path, n - 1)
      case None => None
      case Some(p) => Included(files, p)
  }

  ghost predicate NeverReturns(files: Files, path: string) {
    forall i: nat, j: nat | i < j && Reached(files, path, j).Some? ::
      Reached(files, path, i) != Reached(files, path, j)
  }

  lemma {:induction false} ReachedShift(files: Files, path: string, n: nat)
    requires Included(files, path).Some?
    ensures Reached(files, Included(files, path).value, n) == Reached(files, path, n + 1)
  {
    if n > 0 {
      ReachedShift(files, path, n - 1);
    } else {
      assert Reached(files, path, 0) == Some(path);
    }
  }

  lemma {:induction false} EndsIffNothingReached(files: Files, path: string, steps: nat)
    ensures Ends(files, path, steps) <==> Reached(files, path, steps + 1).None?
    decreases steps
  {
    if Included(files, path).None? {
      assert Reached(files, path, 0) == Some(path);
      assert Reached(files, path, 1).None?;
      ReachedNoMore(files, path, 1, steps);
    } else if steps > 0 {
      EndsIffNothingReached(files, Included(files, path).value, steps - 1);
      ReachedShift(files, path, steps);
    } else {
      assert Reached(files, path, 0) == Some(path);
    }
  }

  lemma {:induction false} ReachedNoMore(files: Files, path: string, i: nat, n: nat)
    requires Reached(files, path, i).None?
    ensures Reached(files, path, i + n).None?
    decreases n
  {
    if n > 0 {
      ReachedNoMore(files, path, i, n - 1);
    }
  }

  lemma {:induction false} ReachedAgain(files: Files, path: string, i: nat, j: nat, n: nat)
    requires Reached(files, path, i) == Reached(files, path, j)
    ensures Reached(files, path, i + n) == Reached(files, path, j + n)
    decreases n
  {
    if n > 0 {
      ReachedAgain(files, path, i, j, n - 1);
    }
  }

  /** A chain that comes back to a file goes on for ever. */
  lemma {:induction false} LoopsForEver(files: Files, path: string, i: nat, j: nat, rounds: nat)
    requires i < j && Reached(files, path, j).Some? && Reached(files, path, i) == Reached(files, path, j)
    ensures Reached(files, path, j + rounds).Some?
    decreases rounds
  {
    if rounds >= j - i {
      LoopsForEver(files, path, i, j, rounds - (j - i));
      ReachedAgain(files, path, i, j, rounds);
      assert i + rounds == j + (rounds - (j - i));
    } else if Reached(files, path, j + rounds).None? {
      ReachedAgain(files, path, i, j, rounds);
      ReachedNoMore(files, path, i + rounds, j - i - rounds);
      assert false;
    }
  }

  function ReachedFiles(files: Files, path: string, n: nat): set<string> {
    if n == 0 then {}
    else
      ReachedFiles(files, path, n - 1)
      + if Reached(files, path, n - 1).Some? then {Reached(files, path, n - 1).value} else {}
  }

  predicate ReachedAt(files: Files, path: string, i: nat, p: string) {
    Reached(files, path, i) == Some(p)
  }

  lemma {:induction false} ReachedFilesAre(files: Files, path: string, n: nat, p: string)
    ensures p in ReachedFiles(files, path, n) <==> exists i: nat | i < n :: ReachedAt(files, path, i, p)
  {
    if n > 0 {
      ReachedFilesAre(files, path, n - 1, p);
      assert p in ReachedFiles(files, path, n) <==>
        p in ReachedFiles(files, path, n - 1) || ReachedAt(files, path, n - 1, p);
    }
  }

  /** Different files on the way are as many different keys of the file system. */
  lemma {:induction false} AllDifferent(files: Files, path: string, n: nat)
    requires NeverReturns(files, path) && Reached(files, path, n).Some?
    ensures |ReachedFiles(files, path, n)| == n && ReachedFiles(files, path, n) <= files.Keys
  {
    if n > 0 {
      AllDifferent(files, path, n - 1);
      var p := Reached(files, path, n - 1).value;
      ReachedFilesAre(files, path, n - 1, p);
      assert p !in ReachedFiles(files, path, n - 1);
    }
  }

  lemma {:induction false} SubsetSize(a: set<string>, b: set<string>)
    requires a <= b
    ensures |a| <= |b|
  {
    if a != {} {
      var x :| x in a;
      SubsetSize(a - {x}, b - {x});
    }
  }

  /** The recursion over includes comes to an end exactly when no path is reached twice, and then
      within as many steps as there are readable paths. */
  lemma IncludesEnd(files: Files, path: string)
    ensures (exists steps :: Ends(files, path, steps)) <==> NeverReturns(files, path)
    ensures NeverReturns(files, path) ==> Ends(files, path, |files|)
  {
    if NeverReturns(files, path) {
      EndsIffNothingReached(files, path, |files|);
      assert |files.Keys| == |files|;
      if Reached(files, path, |files| + 1).Some? {
        AllDifferent(files, path, |files| + 1);
        SubsetSize(ReachedFiles(files, path, |files| + 1), files.Keys);
        assert false;
      }
    } else {
      var i: nat, j: nat :|
        i < j && Reached(files, path, j).Some? && Reached(files, path, i) == Reached(files, path, j);
      forall steps: nat ensures !Ends(files, path, steps) {
        EndsIffNothingReached(files, path, steps);
        if steps + 1 >= j {
          LoopsForEver(files, path, i, j, steps + 1 - j);
        } else if Reached(files, path, steps + 1).None? {
          ReachedNoMore(files, path, steps + 1, j - steps - 1);
        }
      }
    }
  }

  /** A file x.json that includes "x" is read for ever. */
  lemma SelfIncludeNeverEnds(s: Scenario, steps: nat)
    requires s.includes == Some("x")
    ensures !Ends(map["x.json" := Some(s)], "x.json", steps)
    decreases steps
  {
    var files: Files := map["x.json" := Some(s)];
    assert Directory("x.json") == "" by {
      assert "x.json"[..5] == "x.jso" && "x.jso"[..4] == "x.js" && "x.js"[..3] == "x.j";
      assert "x.j"[..2] == "x." && "x."[..1] == "x" && "x"[..0] == "";
      assert Directory("x.") == "" && Directory("x.js") == "";
    }
    assert "" + "x" + ".json" == "x.json";
    assert Included(files, "x.json") == Some("x.json");
    if steps > 0 {
      SelfIncludeNeverEnds(s, steps - 1);
    }
  }

  // ----- the list operations -----

  lemma {:induction false} RemoveFirstAt<T>(items: seq<T>, keyOf: T -> string, key: string, j: nat)
    requires j <= |items| && forall k | 0 <= k < j :: keyOf(items[k]) != key
    requires j < |items| ==> keyOf(items[j]) == key
    ensures RemoveFirst(items, keyOf, key) == if j < |items| then items[..j] + items[j + 1..] else items
  {
    if j > 0 {
      RemoveFirstAt(items[1..], keyOf, key, j - 1);
    }
  }

  method RemoveFrom<T(0)>(da: DynArray<T>, keyOf: T -> string, keys: seq<string>)
    requires da.Valid()
    modifies da`size, da.data
    ensures da.Valid() && da.Contents() == RemoveAll(old(da.Contents()), keyOf, keys)
  {
    for i := 0 to |keys|
      invariant da.Valid() && da.data == old(da.data)
      invariant da.Contents() == RemoveAll(old(da.Contents()), keyOf, keys[..i])
    {
      assert keys[..i + 1][..i] == keys[..i];
      RemoveKey(da, keyOf, keys[i]);
    }
    assert keys[..|keys|] == keys;
  }

  method RemoveKey<T(0)>(da: DynArray<T>, keyOf: T -> string, key: string)
    requires da.Valid()
    modifies da`size, da.data
    ensures da.Valid() && da.Contents() == RemoveFirst(old(da.Contents()), keyOf, key)
  {
    for j := 0 to da.size
      invariant da.Valid() && da.size == old(da.size) && da.Contents() == old(da.Contents())
      invariant forall k | 0 <= k < j :: keyOf(da.Contents()[k]) != key
    {
      var slot := da.Get(j);
      if slot.Some? && keyOf(slot.value) == key {
        RemoveFirstAt(da.Contents(), keyOf, key, j);
        var value := da.Pop(j);
        return;
      }
    }
    RemoveFirstAt(da.Contents(), keyOf, key, da.size);
  }

  method AppendTo<T(0)>(da: DynArray<T>, items: seq<T>)
    requires da.Valid()
    modifies da, da.data
    ensures da.Valid() && da.Contents() == old(da.Contents()) + items
    ensures da.data == old(da.data) || fresh(da.data)
  {
    for i := 0 to |items|
      invariant da.Valid() && da.Contents() == old(da.Contents()) + items[..i]
      invariant da.data == old(da.data) || fresh(da.data)
    {
      da.Append(items[i]);
    }
  }

  /** Pops everything, from the end, and appends. */
  method Replace<T(0)>(da: DynArray<T>, items: seq<T>)
    requires da.Valid()
    modifies da, da.data
    ensures da.Valid() && da.Contents() == items
    ensures da.data == old(da.data) || fresh(da.data)
  {
    var i := da.size;
    while i > 0
      invariant da.Valid() && da.size == i && da.data == old(da.data)
    {
      i := i - 1;
      var tmp := da.Pop(i);
    }
    assert da.Contents() == [];
    AppendTo(da, items);
  }

  method MakeChange<T(0)>(da: DynArray<T>, keyOf: T -> string, c: Change<T>)
    requires da.Valid()
    modifies da, da.data
    ensures da.Valid() && da.Contents() == Changed(old(da.Contents()), keyOf, c)
    ensures da.data == old(da.data) || fresh(da.data)
  {
    if |c.append| != 0 {
      AppendTo(da, c.append);
    }
    assert da.Contents() == old(da.Contents()) + c.append;
    if |c.remove| != 0 {
      RemoveFrom(da, keyOf, c.remove);
    }
    if |c.replace| != 0 {
      Replace(da, c.replace);
    }
  }

  class Parser {
    const files: Files
    const tags: DynArray<string>
    const vars: DynArray<Pair<string>>
    const order: DynArray<string>

    ghost predicate Valid()
      reads tags, vars, order
    {
      tags.Valid() && vars.Valid() && order.Valid() && tags != order && tags.data != order.data
    }

    constructor (readable: Files)
      ensures Valid() && files == readable
      ensures fresh(tags) && fresh(tags.data) && fresh(vars) && fresh(vars.data) && fresh(order) && fresh(order.data)
      ensures tags.Contents() == [] && vars.Contents() == [] && order.Contents() == []
    {
      files := readable;
      tags := new DynArray<string>(3);
      vars := new DynArray<Pair<string>>(3);
      order := new DynArray<string>(3);
    }

    method Merge(s: Scenario)
      requires Valid()
      modifies tags, tags.data, vars, vars.data, order, order.data
      ensures Valid()
      ensures tags.data == old(tags.data) || fresh(tags.data)
      ensures vars.data == old(vars.data) || fresh(vars.data)
      ensures order.data == old(order.data) || fresh(order.data)
      ensures tags.Contents() == Changed(old(tags.Contents()), Itself, s.tags)
      ensures vars.Contents() == Changed(old(vars.Contents()), KeyOf, s.vars)
      ensures order.Contents() == Changed(old(order.Contents()), Itself, s.order)
    {
      hide Changed;
      MakeChange(tags, Itself, s.tags);
      MakeChange(vars, KeyOf, s.vars);
      MakeChange(order, Itself, s.order);
    }

    /** Reads a file and the files it includes.  On an error nothing has been merged. */
    method ParseFile(path: string, ghost steps: nat) returns (ok: bool)
      requires Valid() && Ends(files, path, steps)
      modifies tags, tags.data, vars, vars.data, order, order.data
      ensures Valid()
      ensures tags.data == old(tags.data) || fresh(tags.data)
      ensures vars.data == old(vars.data) || fresh(vars.data)
      ensures order.data == old(order.data) || fresh(order.data)
      ensures ok == Chain(files, path, steps).Some?
      ensures ok ==> var chain := Chain(files, path, steps).value;
        && tags.Contents() == Effective(old(tags.Contents()), Itself, TagsOf(chain))
        && vars.Contents() == Effective(old(vars.Contents()), KeyOf, VarsOf(chain))
        && order.Contents() == Effective(old(order.Contents()), Itself, OrderOf(chain))
      ensures !ok ==>
        && tags.Contents() == old(tags.Contents())
        && vars.Contents() == old(vars.Contents())
        && order.Contents() == old(order.Contents())
      decreases steps
    {
      hide Changed, Effective, TagsOf, VarsOf, OrderOf;
      if path !in files || files[path].None? {
        return false;
      }
      var s := files[path].value;
      ghost var outer: seq<Scenario> := [];
      if s.includes.Some? {
        var parent := ParseFile(IncludePath(path, s.includes.value), steps - 1);
        if !parent {
          return false;
        }
        outer := Chain(files, IncludePath(path, s.includes.value), steps - 1).value;
      }
      ChainStep(files, path, steps, outer);
      EffectivePush(old(tags.Contents()), old(vars.Contents()), old(order.Contents()), outer, s);
      Merge(s);
      ok := true;
    }
  }
}
