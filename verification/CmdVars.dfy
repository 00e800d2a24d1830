/** How -v and -s options build the list of variables (set_test_vars and set_test_scenario in
    src/cmd_parser.c). */
module CmdVars {
  import opened Options
  import opened Text
  import opened Pairs
  import opened Duplicates

  datatype VarOption = Vars(arg: string) | Scenario(vars: seq<Pair<string>>)

  /** A piece of the argument of -v has a "=" and something after it. */
  predicate WellFormedToken(token: string) {
    Span(token, '=') + 1 < |token|
  }

  function PairOf(token: string): Pair<string>
    requires WellFormedToken(token)
  {
    Pair(token[..Span(token, '=')], token[Span(token, '=') + 1..])
  }

  predicate WellFormed(o: VarOption) {
    o.Vars? ==> forall t | t in Tokens(o.arg, ',') :: WellFormedToken(t)
  }

  function PairsIn(tokens: seq<string>): (pairs: seq<Pair<string>>)
    requires forall t | t in tokens :: WellFormedToken(t)
    ensures |pairs| == |tokens|
  {
    seq(|tokens|, i requires 0 <= i < |tokens| => PairOf(tokens[i]))
  }

  function Given(o: VarOption): seq<Pair<string>>
    requires WellFormed(o)
  {
    match o
    case Vars(arg) => PairsIn(Tokens(arg, ','))
    case Scenario(vars) => vars
  }

  function Applied(vars: seq<Pair<string>>, o: VarOption): seq<Pair<string>>
    requires WellFormed(o)
  {
    if o.Vars? then UpsertAll(vars, Given(o)) else AddAllMissing(vars, Given(o))
  }

  predicate AllWellFormed(options: seq<VarOption>) {
    forall i | 0 <= i < |options| :: WellFormed(options[i])
  }

  function AppliedAll(options: seq<VarOption>): seq<Pair<string>>
    requires AllWellFormed(options)
  {
    if options == [] then []
    else Applied(AppliedAll(options[..|options| - 1]), options[|options| - 1])
  }

  class TestOptions {
    var vars: seq<Pair<string>>

    constructor ()
      ensures vars == []
    {
      vars := [];
    }

    /** The scan for the variable, and the update or the append. */
    method SetVar(p: Pair<string>)
      modifies this
      ensures vars == Upsert(old(vars), p)
    {
      for i := 0 to |vars|
        invariant vars == old(vars)
        invariant Upsert(vars, p) == vars[..i] + Upsert(vars[i..], p)
      {
        UpsertStep(vars, p, i);
        if p.key == vars[i].key {
          vars := vars[i := p];
          return;
        }
      }
      vars := vars + [p];
    }

    /** Without success the program has exited with an error. */
    method SetTestVars(arg: string) returns (ok: bool)
      modifies this
      ensures ok == WellFormed(Vars(arg))
      ensures ok ==> vars == Applied(old(vars), Vars(arg))
    {
      var tokens := Tokens(arg, ',');
      for i := 0 to |tokens|
        invariant forall j | 0 <= j < i :: WellFormedToken(tokens[j])
        invariant vars == UpsertAll(old(vars), PairsIn(tokens[..i]))
      {
        var token := tokens[i];
        var eq := Span(token, '=');
        if eq == |token| || eq + 1 == |token| {
          assert token in tokens;
          return false;
        }
        var p := Pair(token[..eq], token[eq + 1..]);
        UpsertAllPush(old(vars), PairsIn(tokens[..i]), p);
        assert PairsIn(tokens[..i + 1]) == PairsIn(tokens[..i]) + [p];
        SetVar(p);
      }
      assert tokens[..|tokens|] == tokens;
      ok := true;
    }

    method SetTestScenario(scenario: seq<Pair<string>>)
      modifies this
      ensures vars == Applied(old(vars), Scenario(scenario))
    {
      for i := 0 to |scenario|
        invariant AddAllMissing(vars, scenario[i..]) == AddAllMissing(old(vars), scenario)
      {
        var found := false;
        for j := 0 to |vars|
          invariant found <==> scenario[i].key in KeysOf(vars)[..j]
        {
          if scenario[i].key == vars[j].key {
            found := true;
            assert KeysOf(vars)[j] in KeysOf(vars)[..j + 1];
            break;
          }
        }
        assert KeysOf(vars)[..|vars|] == KeysOf(vars);
        assert found <==> scenario[i].key in KeysOf(vars);
        assert scenario[i..][1..] == scenario[i + 1..];
        if !found {
          vars := vars + [scenario[i]];
        }
      }
    }

    /** The options of a command line, one after the other. */
    method ApplyOptions(options: seq<VarOption>) returns (ok: bool)
      requires vars == []
      modifies this
      ensures ok <==> AllWellFormed(options)
      ensures ok ==> vars == AppliedAll(options)
    {
      hide WellFormed, Applied;
      for i := 0 to |options|
        invariant AllWellFormed(options[..i]) && vars == AppliedAll(options[..i])
      {
        assert options[..i + 1][..i] == options[..i] && options[..i + 1][i] == options[i];
        match options[i] {
          case Vars(arg) =>
            ok := SetTestVars(arg);
            if !ok {
              return;
            }
          case Scenario(scenario) =>
            ScenarioIsWellFormed(scenario);
            SetTestScenario(scenario);
        }
      }
      assert options[..|options|] == options;
      ok := true;
    }
  }

  lemma ScenarioIsWellFormed(scenario: seq<Pair<string>>)
    ensures WellFormed(Scenario(scenario))
  {
  }

  // ----- the meaning -----

  /** What all -v options give, in order, and what all scenarios give. */
  function FromCli(options: seq<VarOption>): seq<Pair<string>>
    requires AllWellFormed(options)
  {
    if options == [] then []
    else
      var last := options[|options| - 1];
      FromCli(options[..|options| - 1]) + if last.Vars? then Given(last) else []
  }

  function FromScenarios(options: seq<VarOption>): seq<Pair<string>>
    requires AllWellFormed(options)
  {
    if options == [] then []
    else
      var last := options[|options| - 1];
      FromScenarios(options[..|options| - 1]) + if last.Scenario? then Given(last) else []
  }

  lemma {:induction false} LastOfConcat<V>(a: seq<Pair<V>>, b: seq<Pair<V>>, key: string)
    ensures LastOf(a + b, key) == if LastOf(b, key).Some? then LastOf(b, key) else LastOf(a, key)
    decreases b
  {
    if b == [] {
      assert a + b == a;
    } else {
      assert (a + b)[..|a + b| - 1] == a + b[..|b| - 1];
      LastOfConcat(a, b[..|b| - 1], key);
    }
  }

  lemma {:induction false} LookupConcat<V>(a: seq<Pair<V>>, b: seq<Pair<V>>, key: string)
    ensures Lookup(a + b, key) == if Lookup(a, key).Some? then Lookup(a, key) else Lookup(b, key)
    decreases a
  {
    if a == [] {
      assert a + b == b;
    } else {
      assert (a + b)[1..] == a[1..] + b;
      LookupConcat(a[1..], b, key);
    }
  }

  /** However the options are mixed, every key is there once, with its last value from the command
      line if it has one there, and else with its first value from a scenario. */
  lemma {:induction false} MergedVars(options: seq<VarOption>, key: string)
    requires AllWellFormed(options)
    ensures var vars := AppliedAll(options);
      && Distinct(KeysOf(vars))
      && Lookup(vars, key) == if LastOf(FromCli(options), key).Some? then LastOf(FromCli(options), key)
                              else Lookup(FromScenarios(options), key)
    decreases options
  {
    if options != [] {
      var front, last := options[..|options| - 1], options[|options| - 1];
      MergedVars(front, key);
      var vars, given := AppliedAll(front), Given(last);
      FirstsDistinct(KeysOf(vars) + KeysOf(given));
      if last.Vars? {
        UpsertAllIs(vars, given, key);
        LastOfConcat(FromCli(front), given, key);
        assert FromScenarios(front) + [] == FromScenarios(front);
      } else {
        AddAllMissingIs(vars, given, key);
        LookupConcat(FromScenarios(front), given, key);
        assert FromCli(front) + [] == FromCli(front);
      }
    }
  }

  /** So the check for variables specified more than once never reports anything. */
  method CheckNeverFires(options: seq<VarOption>) returns (reports: seq<nat>)
    requires AllWellFormed(options)
    ensures reports == []
  {
    MergedVars(options, "");
    reports := FindDuplicates(KeysOf(AppliedAll(options)));
  }

  // ----- arguments as they are written -----

  /** A key, "=", and a value that is not empty. */
  ghost predicate Assigns(token: string, key: string, value: string) {
    token == key + "=" + value && '=' !in key && value != ""
  }

  lemma PairIs(token: string, key: string, value: string)
    requires Assigns(token, key, value)
    ensures WellFormedToken(token) && PairOf(token) == Pair(key, value)
  {
    assert token[..|key|] == key && token[|key| + 1..] == value;
    SpanIs(token, '=', |key|);
  }

  ghost predicate IsAssignment(token: string) {
    exists key, value :: Assigns(token, key, value)
  }

  lemma TokenForm(token: string)
    ensures WellFormedToken(token) <==> IsAssignment(token)
  {
    if WellFormedToken(token) {
      var n := Span(token, '=');
      assert Assigns(token, token[..n], token[n + 1..]);
    }
    if key, value :| Assigns(token, key, value) {
      PairIs(token, key, value);
    }
  }

  /** An argument is refused exactly when one of its pieces is no such assignment. */
  lemma ArgumentForm(arg: string)
    ensures WellFormed(Vars(arg)) <==> forall t | t in Tokens(arg, ',') :: IsAssignment(t)
  {
    hide WellFormedToken, IsAssignment;
    forall t | t in Tokens(arg, ',') ensures WellFormedToken(t) <==> IsAssignment(t) {
      TokenForm(t);
    }
  }

  lemma AppliedLast(options: seq<VarOption>, o: VarOption)
    requires AllWellFormed(options) && WellFormed(o)
    ensures AllWellFormed(options + [o]) && AppliedAll(options + [o]) == Applied(AppliedAll(options), o)
  {
    assert (options + [o])[..|options|] == options;
  }

  lemma GivenOne(vars: seq<Pair<string>>, key: string, value: string)
    requires '=' !in key && ',' !in key && value != "" && ',' !in value
    ensures var o := Vars(key + "=" + value);
      WellFormed(o) && Applied(vars, o) == Upsert(vars, Pair(key, value))
  {
    var token := key + "=" + value;
    TokensFirst(token, "", ',');
    assert token + "" == token;
    PairIs(token, key, value);
    var given := [Pair(key, value)];
    assert Given(Vars(token)) == given && given[1..] == [];
    assert UpsertAll(vars, given) == UpsertAll(Upsert(vars, given[0]), given[1..]) == Upsert(vars, given[0]);
  }

  /** `-v key=value` after other options gives the key that value, and changes no other. */
  lemma OneVar(options: seq<VarOption>, key: string, value: string, other: string)
    requires AllWellFormed(options) && '=' !in key && ',' !in key && value != "" && ',' !in value
    ensures var more := options + [Vars(key + "=" + value)];
      && AllWellFormed(more)
      && Lookup(AppliedAll(more), key) == Some(value)
      && (other != key ==> Lookup(AppliedAll(more), other) == Lookup(AppliedAll(options), other))
  {
    hide *;
    GivenOne(AppliedAll(options), key, value);
    AppliedLast(options, Vars(key + "=" + value));
    UpsertIs(AppliedAll(options), Pair(key, value), key);
    UpsertIs(AppliedAll(options), Pair(key, value), other);
  }

  /** `-v a,b` is `-v a` and then `-v b`. */
  lemma CommaSeparates(vars: seq<Pair<string>>, a: string, b: string)
    ensures WellFormed(Vars(a + "," + b)) <==> WellFormed(Vars(a)) && WellFormed(Vars(b))
    ensures WellFormed(Vars(a + "," + b)) ==>
      Applied(vars, Vars(a + "," + b)) == Applied(Applied(vars, Vars(a)), Vars(b))
  {
    hide UpsertAll, Tokens, WellFormedToken, PairOf;
    TokensConcat(a, b, ',');
    if WellFormed(Vars(a + "," + b)) {
      assert Given(Vars(a + "," + b)) == Given(Vars(a)) + Given(Vars(b));
      UpsertAllConcat(vars, Given(Vars(a)), Given(Vars(b)));
    }
  }

  lemma {:induction false} UpsertAllConcat<V>(pairs: seq<Pair<V>>, a: seq<Pair<V>>, b: seq<Pair<V>>)
    ensures UpsertAll(pairs, a + b) == UpsertAll(UpsertAll(pairs, a), b)
    decreases a
  {
    if a == [] {
      assert a + b == b;
    } else {
      assert (a + b)[1..] == a[1..] + b;
      UpsertAllConcat(Upsert(pairs, a[0]), a[1..], b);
    }
  }

  /** `-s` after other options: what is there stays, and a key that is missing gets its first value. */
  lemma OneScenario(options: seq<VarOption>, vars: seq<Pair<string>>, key: string)
    requires AllWellFormed(options)
    ensures var more := options + [Scenario(vars)];
      && AllWellFormed(more)
      && Lookup(AppliedAll(more), key)
         == if Lookup(AppliedAll(options), key).Some? then Lookup(AppliedAll(options), key) else Lookup(vars, key)
  {
    AppliedLast(options, Scenario(vars));
    hide AppliedAll, AddAllMissing, Lookup;
    AddAllMissingLookup(AppliedAll(options), vars, key);
  }
}
