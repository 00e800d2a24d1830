/** The list of tests: registration with the tag filter and overwriting by name, and the order a
    scenario asks for (src/test_case.c). */
module TestRegistry {
  import opened Options
  import opened Pairs
  import opened Seqs

  /** Everything about a test but its name. */
  datatype Definition = Definition(description: Option<string>, ref: int, tags: seq<string>)

  type Test = Pair<Definition>

  /** With active tags only tests that have one of them are taken. */
  predicate Takes(active: seq<string>, t: Test) {
    active == [] || exists i :: 0 <= i < |active| && active[i] in t.value.tags
  }

  function Taken(active: seq<string>, given: seq<Test>): seq<Test> {
    if given == [] then []
    else
      var last := given[|given| - 1];
      Taken(active, given[..|given| - 1]) + if Takes(active, last) then [last] else []
  }

  /** The tests with a name, and those an order lists, in its order. */
  function Named(tests: seq<Test>, name: string): seq<Test> {
    if tests == [] then []
    else Named(tests[..|tests| - 1], name) + if tests[|tests| - 1].key == name then [tests[|tests| - 1]] else []
  }

  function Ordered(tests: seq<Test>, order: seq<string>): seq<Test> {
    if order == [] then []
    else Ordered(tests, order[..|order| - 1]) + Named(tests, order[|order| - 1])
  }

  class Registry {
    const active: seq<string>
    var tests: seq<Test>

    constructor (tags: seq<string>)
      ensures active == tags && tests == []
    {
      active, tests := tags, [];
    }

    method HasTag(tags: seq<string>) returns (has: bool)
      ensures has <==> exists i :: 0 <= i < |active| && active[i] in tags
    {
      for i := 0 to |active|
        invariant forall k | 0 <= k < i :: active[k] !in tags
      {
        for j := 0 to |tags|
          invariant active[i] !in tags[..j]
        {
          if active[i] == tags[j] {
            return true;
          }
        }
        assert tags[..|tags|] == tags;
      }
      has := false;
    }

    /** 1 when the test is skipped, else 0. */
    method Enqueue(t: Test) returns (res: int)
      modifies this`tests
      ensures res == if Takes(active, t) then 0 else 1
      ensures tests == if Takes(active, t) then Upsert(old(tests), t) else old(tests)
    {
      if |active| > 0 {
        var has := HasTag(t.value.tags);
        if !has {
          return 1;
        }
      }
      for i := 0 to |tests|
        invariant tests == old(tests)
        invariant Upsert(tests, t) == tests[..i] + Upsert(tests[i..], t)
      {
        UpsertStep(tests, t, i);
        if t.key == tests[i].key {
          tests := tests[i := t];
          return 0;
        }
      }
      tests := tests + [t];
      res := 0;
    }

    method OrderTests(order: seq<string>)
      modifies this`tests
      ensures tests == if order == [] then old(tests) else Ordered(old(tests), order)
    {
      if |order| == 0 {
        return;
      }
      var ordered: seq<Test> := [];
      for i := 0 to |order|
        invariant ordered == Ordered(tests, order[..i]) && tests == old(tests)
      {
        for j := 0 to |tests|
          invariant ordered == Ordered(tests, order[..i]) + Named(tests[..j], order[i]) && tests == old(tests)
        {
          assert tests[..j + 1][..j] == tests[..j];
          if tests[j].key == order[i] {
            ordered := ordered + [tests[j]];
          }
        }
        assert tests[..|tests|] == tests;
        assert order[..i + 1][..i] == order[..i];
      }
      assert order[..|order|] == order;
      tests := ordered;
    }

    /** Any number of registrations, one after the other. */
    method EnqueueAll(given: seq<Test>)
      requires tests == []
      modifies this`tests
      ensures tests == UpsertAll([], Taken(active, given))
    {
      for i := 0 to |given|
        invariant tests == UpsertAll([], Taken(active, given[..i]))
      {
        assert given[..i + 1][..i] == given[..i];
        UpsertAllPush([], Taken(active, given[..i]), given[i]);
        assert Taken(active, given[..i]) + [] == Taken(active, given[..i]);
        var res := Enqueue(given[i]);
      }
      assert given[..|given|] == given;
    }
  }

  /** After any registrations names are distinct, each where it was first taken, with the definition
      it was last taken with. */
  lemma RegistrationsAre(active: seq<string>, given: seq<Test>, name: string)
    ensures var tests := UpsertAll([], Taken(active, given));
      && Distinct(KeysOf(tests))
      && KeysOf(tests) == Firsts(KeysOf(Taken(active, given)))
      && Lookup(tests, name) == LastOf(Taken(active, given), name)
  {
    var taken := Taken(active, given);
    var none: seq<Test> := [];
    assert KeysOf(none) + KeysOf(taken) == KeysOf(taken);
    UpsertAllIs(none, taken, name);
    FirstsDistinct(KeysOf(taken));
  }

  /** The order, without the names that are not registered. */
  function Known(order: seq<string>, names: seq<string>): seq<string> {
    if order == [] then []
    else
      var last := order[|order| - 1];
      Known(order[..|order| - 1], names) + if last in names then [last] else []
  }

  lemma {:induction false} NamedIs(tests: seq<Test>, name: string)
    requires Distinct(KeysOf(tests))
    ensures Named(tests, name) == if Lookup(tests, name).Some? then [Pair(name, Lookup(tests, name).value)] else []
    decreases tests
  {
    if tests != [] {
      var front, last := tests[..|tests| - 1], tests[|tests| - 1];
      assert forall i | 0 <= i < |front| :: KeysOf(front)[i] == KeysOf(tests)[i];
      NamedIs(front, name);
      assert tests == front + [last];
      LookupPush(front, last, name);
      LookupKnown(front, last.key);
      assert last.key == KeysOf(tests)[|front|];
    }
  }

  lemma OrderedPush(tests: seq<Test>, order: seq<string>, name: string)
    requires Distinct(KeysOf(tests))
    ensures Ordered(tests, []) == []
    ensures Ordered(tests, order + [name])
         == Ordered(tests, order) + match Lookup(tests, name) case Some(d) => [Pair(name, d)] case None => []
  {
    assert (order + [name])[..|order|] == order;
    NamedIs(tests, name);
  }

  lemma KnownPush(order: seq<string>, name: string, names: seq<string>)
    ensures Known([], names) == []
    ensures Known(order + [name], names) == Known(order, names) + if name in names then [name] else []
  {
    assert (order + [name])[..|order|] == order;
  }

  lemma KeysJoin(a: seq<Test>, b: seq<Test>)
    ensures KeysOf(a + b) == KeysOf(a) + KeysOf(b)
  {
  }

  lemma KeysOfOne(name: string, d: Option<Definition>)
    ensures KeysOf(match d case Some(x) => [Pair(name, x)] case None => []) == if d.Some? then [name] else []
  {
  }

  /** A non-empty order runs exactly the registered tests it names, in its order, each with its own
      definition. */
  lemma {:induction false} OrderedIs(tests: seq<Test>, order: seq<string>)
    requires Distinct(KeysOf(tests))
    ensures KeysOf(Ordered(tests, order)) == Known(order, KeysOf(tests))
    ensures forall i | 0 <= i < |Ordered(tests, order)| ::
      var t := Ordered(tests, order)[i]; Lookup(tests, t.key) == Some(t.value)
    decreases order
  {
    hide *;
    if order == [] {
      OrderedPush(tests, [], "");
      KnownPush([], "", KeysOf(tests));
      KeysOfOne("", None);
      return;
    }
    var front, last := order[..|order| - 1], order[|order| - 1];
    assert order == front + [last];
    OrderedIs(tests, front);
    OrderedPush(tests, front, last);
    KnownPush(front, last, KeysOf(tests));
    LookupKnown(tests, last);
    var d := Lookup(tests, last);
    KeysOfOne(last, d);
    KeysJoin(Ordered(tests, front), match d case Some(x) => [Pair(last, x)] case None => []);
  }

  // ----- which registrations are taken -----

  /** One of the test's tags is active, or none is asked for. */
  ghost predicate Wanted(active: seq<string>, t: Test) {
    active == [] || exists tag :: tag in active && tag in t.value.tags
  }

  lemma TakesIs(active: seq<string>, t: Test)
    ensures Takes(active, t) <==> Wanted(active, t)
  {
    if tag :| tag in active && tag in t.value.tags {
      var i :| 0 <= i < |active| && active[i] == tag;
    }
  }

  lemma TakenPush(active: seq<string>, given: seq<Test>, t: Test)
    ensures Taken(active, []) == []
    ensures Taken(active, given + [t]) == Taken(active, given) + if Wanted(active, t) then [t] else []
  {
    assert (given + [t])[..|given|] == given;
    TakesIs(active, t);
  }

  lemma {:induction false} TakenAround(active: seq<string>, a: seq<Test>, t: Test, b: seq<Test>)
    ensures Taken(active, a + [t] + b)
         == Taken(active, a) + (if Wanted(active, t) then [t] else []) + Taken(active, b)
    decreases b
  {
    hide *;
    TakenPush(active, a, t);
    var here := Taken(active, a) + if Wanted(active, t) then [t] else [];
    if b == [] {
      assert a + [t] + b == a + [t] && here + [] == here;
      return;
    }
    var front, last := b[..|b| - 1], b[|b| - 1];
    TakenAround(active, a, t, front);
    assert b == front + [last] && a + [t] + b == a + [t] + front + [last];
    TakenPush(active, a + [t] + front, last);
    TakenPush(active, front, last);
    Associative(here, Taken(active, front), if Wanted(active, last) then [last] else []);
  }

  lemma {:induction false} TakenHave(active: seq<string>, given: seq<Test>, name: string)
    ensures Taken(active, []) == []
    ensures name in KeysOf(Taken(active, given))
       <==> exists i :: 0 <= i < |given| && given[i].key == name && Wanted(active, given[i])
    decreases |given|
  {
    if given != [] {
      var front, last := given[..|given| - 1], given[|given| - 1];
      TakenHave(active, front, name);
      TakesIs(active, last);
      assert KeysOf(Taken(active, given))
          == KeysOf(Taken(active, front)) + if Takes(active, last) then [last.key] else [];
      if i :| 0 <= i < |given| && given[i].key == name && Wanted(active, given[i]) {
        assert i < |front| ==> front[i] == given[i];
      }
      if i :| 0 <= i < |front| && front[i].key == name && Wanted(active, front[i]) {
        assert given[i] == front[i];
      }
    }
  }

  lemma {:induction false} TakenEnds(active: seq<string>, given: seq<Test>, name: string, i: nat)
    requires i < |given| && given[i].key == name && Wanted(active, given[i])
    requires forall j | i < j < |given| :: given[j].key != name || !Wanted(active, given[j])
    ensures LastOf(Taken(active, given), name) == Some(given[i].value)
    decreases |given|
  {
    var front, last := given[..|given| - 1], given[|given| - 1];
    TakesIs(active, last);
    assert Taken(active, given) == Taken(active, front) + if Takes(active, last) then [last] else [];
    if i < |front| {
      assert last == given[|given| - 1];
      TakenEnds(active, front, name, i);
      if Takes(active, last) {
        assert last.key != name;
        assert (Taken(active, front) + [last])[..|Taken(active, front)|] == Taken(active, front);
      } else {
        assert Taken(active, front) + [] == Taken(active, front);
      }
    }
  }

  /** A name is registered exactly when some registration of it is wanted, and with the definition of the last
      of these. */
  lemma RegisteredIs(active: seq<string>, given: seq<Test>, name: string)
    ensures var tests := UpsertAll([], Taken(active, given));
      && (Lookup(tests, name).Some?
          <==> exists i :: 0 <= i < |given| && given[i].key == name && Wanted(active, given[i]))
      && forall i | 0 <= i < |given| && given[i].key == name && Wanted(active, given[i])
                    && (forall j | i < j < |given| :: given[j].key != name || !Wanted(active, given[j])) ::
           Lookup(tests, name) == Some(given[i].value)
  {
    var taken := Taken(active, given);
    RegistrationsAre(active, given, name);
    TakenHave(active, given, name);
    LookupKnown(UpsertAll([], taken), name);
    FirstsDistinct(KeysOf(taken));
    hide Taken, UpsertAll, Lookup, Wanted;
    forall i | 0 <= i < |given| && given[i].key == name && Wanted(active, given[i])
               && (forall j | i < j < |given| :: given[j].key != name || !Wanted(active, given[j]))
      ensures LastOf(taken, name) == Some(given[i].value)
    {
      TakenEnds(active, given, name, i);
    }
  }

  /** The order is gone through name by name: a registered one gives its test, another one nothing. */
  lemma {:induction false} OrderedAround(tests: seq<Test>, a: seq<string>, name: string, b: seq<string>)
    requires Distinct(KeysOf(tests))
    ensures Ordered(tests, a + [name] + b)
         == Ordered(tests, a)
            + (match Lookup(tests, name) case Some(d) => [Pair(name, d)] case None => [])
            + Ordered(tests, b)
    decreases b
  {
    hide *;
    OrderedPush(tests, a, name);
    var here := Ordered(tests, a) + match Lookup(tests, name) case Some(d) => [Pair(name, d)] case None => [];
    if b == [] {
      assert a + [name] + b == a + [name];
      assert here + [] == here;
      return;
    }
    var front, last := b[..|b| - 1], b[|b| - 1];
    OrderedAround(tests, a, name, front);
    assert b == front + [last] && a + [name] + b == a + [name] + front + [last];
    OrderedPush(tests, a + [name] + front, last);
    OrderedPush(tests, front, last);
    Associative(here, Ordered(tests, front), match Lookup(tests, last) case Some(d) => [Pair(last, d)] case None => []);
  }
}
