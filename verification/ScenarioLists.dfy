/** What a scenario's lists hold after a file of the chain, told by what the files before it gave and what this
    one asks for: how often each key is there, which items they are, and in which order. */
module ScenarioLists {
  import opened Options
  import opened Pairs
  import opened Scenarios

  // ----- which items are left -----

  /** As many of the item's name come before it as are to be removed. */
  predicate KeptAt(names: seq<string>, remove: seq<string>, i: nat)
    requires i < |names|
  {
    multiset(names[..i])[names[i]] >= multiset(remove)[names[i]]
  }

  function KeptBefore(names: seq<string>, remove: seq<string>, n: nat): nat
    requires n <= |names|
  {
    if n == 0 then 0 else KeptBefore(names, remove, n - 1) + if KeptAt(names, remove, n - 1) then 1 else 0
  }

  /** `rest` is `items` without the first occurrences of each name in `remove`, as many as it is there. */
  ghost predicate Leaves<T>(items: seq<T>, names: seq<string>, remove: seq<string>, rest: seq<T>)
    requires |names| == |items|
  {
    && |rest| == KeptBefore(names, remove, |names|)
    && forall i | 0 <= i < |items| && KeptAt(names, remove, i) ::
         KeptBefore(names, remove, i) < |rest| && rest[KeptBefore(names, remove, i)] == items[i]
  }

  lemma {:induction false} SurvivorsPrefix<T>(items: seq<T>, keyOf: T -> string, remove: seq<string>, n: nat)
    requires n <= |items|
    ensures Survivors(items[..n], keyOf, multiset(remove)) <= Survivors(items, keyOf, multiset(remove))
    decreases |items|
  {
    if n == |items| {
      assert items[..n] == items;
    } else {
      assert items[..|items| - 1][..n] == items[..n];
      SurvivorsPrefix(items[..|items| - 1], keyOf, remove, n);
    }
  }

  lemma {:induction false} SurvivorsCount<T>(items: seq<T>, keyOf: T -> string, remove: seq<string>, n: nat)
    requires n <= |items|
    ensures |Survivors(items[..n], keyOf, multiset(remove))| == KeptBefore(Keys(items, keyOf), remove, n)
    decreases n
  {
    hide Survivors, Keys;
    if n == 0 {
      SurvivorsOfEmpty(items[..n], keyOf, multiset(remove));
      return;
    }
    KeysUpTo(items, keyOf, n - 1);
    SurvivorsCount(items, keyOf, remove, n - 1);
    assert items[..n] == items[..n - 1] + [items[n - 1]];
    SurvivorsPush(items[..n - 1], keyOf, items[n - 1], multiset(remove));
  }

  lemma SurvivorsOfEmpty<T>(items: seq<T>, keyOf: T -> string, listed: multiset<string>)
    requires items == []
    ensures Survivors(items, keyOf, listed) == []
  {
  }

  lemma KeysUpTo<T>(items: seq<T>, keyOf: T -> string, n: nat)
    requires n < |items|
    ensures Keys(items[..n], keyOf) == Keys(items, keyOf)[..n] && Keys(items, keyOf)[n] == keyOf(items[n])
  {
  }

  lemma SurvivorAt<T>(items: seq<T>, keyOf: T -> string, remove: seq<string>, i: nat)
    requires i < |items| && KeptAt(Keys(items, keyOf), remove, i)
    ensures var k, rest := KeptBefore(Keys(items, keyOf), remove, i), Survivors(items, keyOf, multiset(remove));
      k < |rest| && rest[k] == items[i]
  {
    hide Survivors, KeptBefore, Keys;
    KeysUpTo(items, keyOf, i);
    assert items[..i + 1] == items[..i] + [items[i]];
    SurvivorsCount(items, keyOf, remove, i);
    SurvivorsPrefix(items, keyOf, remove, i + 1);
    SurvivorsPush(items[..i], keyOf, items[i], multiset(remove));
  }

  lemma RemovalIs<T>(items: seq<T>, keyOf: T -> string, remove: seq<string>)
    ensures Leaves(items, Keys(items, keyOf), remove, RemoveAll(items, keyOf, remove))
  {
    hide Survivors, KeptBefore, RemoveAll, Keys, KeptAt;
    RemovalLeaves(items, keyOf, remove);
    SurvivorsCount(items, keyOf, remove, |items|);
    assert items[..|items|] == items;
    var names := Keys(items, keyOf);
    forall i | 0 <= i < |items| && KeptAt(names, remove, i)
      ensures KeptBefore(names, remove, i) < |RemoveAll(items, keyOf, remove)|
      ensures RemoveAll(items, keyOf, remove)[KeptBefore(names, remove, i)] == items[i]
    {
      SurvivorAt(items, keyOf, remove, i);
    }
  }

  function Less(n: nat, taken: nat): nat {
    if n > taken then n - taken else 0
  }

  lemma {:induction false} RemovalCounts<T>(items: seq<T>, keyOf: T -> string, remove: seq<string>, key: string)
    ensures multiset(Keys(RemoveAll(items, keyOf, remove), keyOf))[key]
         == Less(multiset(Keys(items, keyOf))[key], multiset(remove)[key])
    decreases remove
  {
    if remove != [] {
      var front, last := remove[..|remove| - 1], remove[|remove| - 1];
      assert remove == front + [last];
      RemovalCounts(items, keyOf, front, key);
      RemoveFirstKeys(RemoveAll(items, keyOf, front), keyOf, last);
    }
  }

  // ----- one file of the chain -----

  lemma TextKeys(items: seq<string>)
    ensures Keys(items, Itself) == items
  {
    assert forall i | 0 <= i < |items| :: Keys(items, Itself)[i] == Itself(items[i]);
  }

  /** A list of texts after a file: what it asks for instead, or what came before and what it appends, without
      the first of each text it removes. */
  ghost predicate ListAfter(before: seq<string>, c: Change<string>, after: seq<string>) {
    if c.replace != [] then after == c.replace
    else
      var all := before + c.append;
      && Leaves(all, all, c.remove, after)
      && forall key ::
           multiset(after)[key] == Less(multiset(before)[key] + multiset(c.append)[key], multiset(c.remove)[key])
  }

  lemma TextsAfter(before: seq<string>, c: Change<string>)
    ensures ListAfter(before, c, Changed(before, Itself, c))
  {
    if c.replace == [] {
      var all, after := before + c.append, Changed(before, Itself, c);
      RemovalIs(all, Itself, c.remove);
      TextKeys(all);
      TextKeys(after);
      forall key
        ensures multiset(after)[key]
             == Less(multiset(before)[key] + multiset(c.append)[key], multiset(c.remove)[key])
      {
        RemovalCounts(all, Itself, c.remove, key);
      }
    }
  }

  /** The tags after one more file, and the order. */
  lemma TagsAndOrderAre(tags: seq<string>, order: seq<string>, outer: seq<Scenario>, s: Scenario)
    ensures Effective(tags, Itself, TagsOf([])) == tags && Effective(order, Itself, OrderOf([])) == order
    ensures ListAfter(Effective(tags, Itself, TagsOf(outer)), s.tags, Effective(tags, Itself, TagsOf(outer + [s])))
    ensures ListAfter(Effective(order, Itself, OrderOf(outer)), s.order,
                      Effective(order, Itself, OrderOf(outer + [s])))
  {
    EffectivePush(tags, [], order, outer, s);
    EffectivePush(tags, [], order, [], s);
    TextsAfter(Effective(tags, Itself, TagsOf(outer)), s.tags);
    TextsAfter(Effective(order, Itself, OrderOf(outer)), s.order);
  }

  /** The keys of pairs, written out. */
  ghost predicate AreKeys(names: seq<string>, items: seq<Pair<string>>) {
    |names| == |items| && forall i | 0 <= i < |items| :: names[i] == items[i].key
  }

  /** The variables after one more file: removal goes by the key. */
  lemma VarsAre(vars: seq<Pair<string>>, outer: seq<Scenario>, s: Scenario, names: seq<string>, left: seq<string>)
    requires AreKeys(names, Effective(vars, KeyOf, VarsOf(outer)) + s.vars.append)
    requires AreKeys(left, Effective(vars, KeyOf, VarsOf(outer + [s])))
    ensures Effective(vars, KeyOf, VarsOf([])) == vars
    ensures var all := Effective(vars, KeyOf, VarsOf(outer)) + s.vars.append;
      var after := Effective(vars, KeyOf, VarsOf(outer + [s]));
      if s.vars.replace != [] then after == s.vars.replace
      else
        && Leaves(all, names, s.vars.remove, after)
        && forall key :: multiset(left)[key] == Less(multiset(names)[key], multiset(s.vars.remove)[key])
  {
    EffectivePush([], vars, [], outer, s);
    EffectivePush([], vars, [], [], s);
    var all := Effective(vars, KeyOf, VarsOf(outer)) + s.vars.append;
    var after := Effective(vars, KeyOf, VarsOf(outer + [s]));
    assert names == Keys(all, KeyOf) && left == Keys(after, KeyOf);
    if s.vars.replace == [] {
      RemovalIs(all, KeyOf, s.vars.remove);
      forall key ensures multiset(left)[key] == Less(multiset(names)[key], multiset(s.vars.remove)[key]) {
        RemovalCounts(all, KeyOf, s.vars.remove, key);
      }
    }
  }

  // ----- where an include leads -----

  lemma {:induction false} DirectoryIs(front: string, name: string)
    requires '/' !in name
    ensures Directory(name) == "" && Directory(front + "/" + name) == front + "/"
    decreases name
  {
    if name == "" {
      assert front + "/" + name == front + "/";
    } else {
      var shorter := name[..|name| - 1];
      assert (front + "/" + name)[..|front + "/" + name| - 1] == front + "/" + shorter;
      DirectoryIs(front, shorter);
    }
  }

  /** The included file is looked for beside the file that includes it. */
  lemma IncludeLeads(files: Files, front: string, name: string, s: Scenario, included: string)
    requires '/' !in name && s.includes == Some(included)
    ensures front + "/" + name in files && files[front + "/" + name] == Some(s) ==>
      Included(files, front + "/" + name) == Some(front + "/" + included + ".json")
    ensures name in files && files[name] == Some(s) ==> Included(files, name) == Some(included + ".json")
  {
    DirectoryIs(front, name);
    assert "" + included == included;
  }

  /** The included file comes first. */
  lemma ParentFirst(files: Files, front: string, name: string, included: string, parent: Scenario, s: Scenario)
    requires '/' !in name && s.includes == Some(included) && parent.includes == None
    requires front + "/" + name in files && files[front + "/" + name] == Some(s)
    requires front + "/" + included + ".json" in files && files[front + "/" + included + ".json"] == Some(parent)
    ensures Ends(files, front + "/" + name, 1) && Chain(files, front + "/" + name, 1) == Some([parent, s])
  {
    var p := front + "/" + included + ".json";
    IncludeLeads(files, front, name, s, included);
    assert Included(files, p) == None;
    assert Ends(files, p, 0) && Chain(files, p, 0) == Some([parent]);
    assert [parent] + [s] == [parent, s];
  }
}
