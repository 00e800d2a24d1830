/** Variable registration (l_module_ltf_register_vars in src/modules/ltf/ltf.c) and validation
    (ltf_parse_vars in src/ltf_vars.c), and the validation of secrets (ltf_parse_secrets in
    src/ltf_secrets.c), which shares its first half. */
module Vars {
  import opened Options
  import opened Pairs
  import opened Duplicates

  datatype VarEntry = VarEntry(
    name: string,
    isScalar: bool,
    scalar: Option<string>,
    values: seq<string>,
    defValue: Option<string>,
    finalValue: Option<string>)

  // ----- registration -----

  /** A field of a table: nil, what is asked for, or something else.  A number counts as text where a
      value is asked for, but is no key. */
  datatype Arg<T> = Absent | Given(value: T) | WrongType

  /** What Lua code gives for a variable: a string, a table, or something else. */
  datatype Declaration =
    | Constant(text: string)
    | Table(values: Arg<seq<Arg<string>>>, default: Arg<string>)
    | Other

  datatype Field = Field(key: Arg<string>, declaration: Declaration)

  predicate AllText(items: seq<Arg<string>>) {
    forall i | 0 <= i < |items| :: items[i].Given?
  }

  function Texts(items: seq<Arg<string>>): seq<string>
    requires AllText(items)
  {
    seq(|items|, i requires 0 <= i < |items| => items[i].value)
  }

  /** The list of allowed values; without one every value is allowed. */
  function ValuesOf(values: Arg<seq<Arg<string>>>): seq<string>
    requires values.Given? ==> AllText(values.value)
  {
    if values.Given? then Texts(values.value) else []
  }

  /** The types are right, and a default is among the values if there are any. */
  predicate Acceptable(d: Declaration) {
    match d
    case Constant(_) => true
    case Table(values, default) =>
      && !values.WrongType? && (values.Given? ==> AllText(values.value)) && !default.WrongType?
      && (default.Given? ==> ValuesOf(values) == [] || default.value in ValuesOf(values))
    case Other => false
  }

  function EntryOf(name: string, d: Declaration): (e: VarEntry)
    requires Acceptable(d)
    ensures Registered(e)
  {
    match d
    case Constant(text) => VarEntry(name, true, Some(text), [], None, None)
    case Table(values, default) =>
      VarEntry(name, false, None, ValuesOf(values), if default.Given? then Some(default.value) else None, None)
  }

  predicate AcceptableField(f: Field) {
    f.key.Given? && Acceptable(f.declaration)
  }

  predicate AcceptableTable(table: seq<Field>) {
    forall i | 0 <= i < |table| :: AcceptableField(table[i])
  }

  function EntriesOf(table: seq<Field>): seq<VarEntry>
    requires AcceptableTable(table)
  {
    seq(|table|, i requires 0 <= i < |table| => EntryOf(table[i].key.value, table[i].declaration))
  }

  method Among(texts: seq<string>, text: string) returns (found: bool)
    ensures found <==> text in texts
  {
    found := false;
    for i := 0 to |texts|
      invariant text !in texts[..i]
    {
      if text == texts[i] {
        return true;
      }
    }
    assert texts[..|texts|] == texts;
  }

  /** read_string_array; an item that is no text is an error. */
  method ReadStrings(items: seq<Arg<string>>) returns (texts: Option<seq<string>>)
    ensures texts == if AllText(items) then Some(Texts(items)) else None
  {
    var read: seq<string> := [];
    for i := 0 to |items|
      invariant AllText(items[..i]) && read == Texts(items[..i])
    {
      if !items[i].Given? {
        return None;
      }
      read := read + [items[i].value];
    }
    assert items[..|items|] == items;
    texts := Some(read);
  }

  /** One entry; an error leaves Lua by luaL_error. */
  method RegisterVar(name: string, d: Declaration) returns (e: Option<VarEntry>)
    ensures e == if Acceptable(d) then Some(EntryOf(name, d)) else None
  {
    match d {
      case Constant(text) =>
        e := Some(VarEntry(name, true, Some(text), [], None, None));
      case Table(given, default) =>
        var values: seq<string> := [];
        if given.WrongType? {
          return None;
        }
        if given.Given? {
          var read := ReadStrings(given.value);
          if read.None? {
            return None;
          }
          values := read.value;
        }
        if default.WrongType? {
          return None;
        }
        var defValue: Option<string> := None;
        if default.Given? {
          defValue := Some(default.value);
          var found := Among(values, default.value);
          if !found && |values| > 0 {
            return None;
          }
        }
        e := Some(VarEntry(name, false, None, values, defValue, None));
      case Other =>
        e := None;
    }
  }

  class VarRegistry {
    var vars: seq<VarEntry>

    constructor ()
      ensures vars == []
    {
      vars := [];
    }

    /** l_module_ltf_register_vars, on the fields in the order they are visited: all of them are
        registered, or none when one is not acceptable. */
    method RegisterVars(table: seq<Field>) returns (ok: bool)
      modifies this
      ensures ok <==> AcceptableTable(table)
      ensures vars == if ok then old(vars) + EntriesOf(table) else old(vars)
    {
      var entries: seq<VarEntry> := [];
      for i := 0 to |table|
        invariant vars == old(vars)
        invariant AcceptableTable(table[..i]) && entries == EntriesOf(table[..i])
      {
        if !table[i].key.Given? {
          return false;
        }
        var e := RegisterVar(table[i].key.value, table[i].declaration);
        if e.None? {
          return false;
        }
        entries := entries + [e.value];
      }
      assert table[..|table|] == table;
      vars := vars + entries;
      ok := true;
    }
  }

  /** The entries registration makes. */
  predicate Registered(e: VarEntry) {
    && e.finalValue == None
    && (e.isScalar ==> e.scalar.Some?)
    && (!e.isScalar && e.defValue.Some? && e.values != [] ==> e.defValue.value in e.values)
  }

  // ----- validation -----

  predicate Allowed(e: VarEntry, value: string) {
    e.values == [] || value in e.values
  }

  /** A constant is not overridden; any other variable has an allowed specified value, or none and a
      default. */
  predicate Accepted(e: VarEntry, specified: Option<string>) {
    if e.isScalar then specified.None?
    else if specified.Some? then Allowed(e, specified.value)
    else e.defValue.Some?
  }

  /** The value an accepted variable ends with. */
  function Effective(e: VarEntry, specified: Option<string>): Option<string> {
    if e.isScalar then e.scalar
    else if specified.Some? then specified
    else e.defValue
  }

  /** The variable with its final value, if it is accepted. */
  function Resolved(e: VarEntry, specified: Option<string>): VarEntry {
    e.(finalValue := if Accepted(e, specified) then Effective(e, specified) else None)
  }

  function NamesOf(entries: seq<VarEntry>): (names: seq<string>)
    ensures |names| == |entries|
  {
    seq(|entries|, i requires 0 <= i < |entries| => entries[i].name)
  }

  method FindSpecified(opts: seq<Pair<string>>, name: string) returns (found: Option<string>)
    ensures found == Lookup(opts, name)
  {
    found := None;
    for j := 0 to |opts|
      invariant Lookup(opts[..j], name) == None
      invariant Lookup(opts, name) == Lookup(opts[j..], name)
    {
      assert opts[..j + 1] == opts[..j] + [opts[j]];
      LookupPush(opts[..j], opts[j], name);
      assert opts[j..][1..] == opts[j + 1..];
      if opts[j].key == name {
        return Some(opts[j].value);
      }
    }
  }

  /** One registered variable: its final value, or an error. */
  method ResolveVar(e: VarEntry, opts: seq<Pair<string>>) returns (r: VarEntry, ok: bool)
    requires Registered(e)
    ensures ok <==> Accepted(e, Lookup(opts, e.name))
    ensures r == Resolved(e, Lookup(opts, e.name))
  {
    r, ok := e, true;
    var found := FindSpecified(opts, e.name);
    if e.isScalar {
      if found.Some? {
        return e, false;
      }
      return e.(finalValue := e.scalar), true;
    }
    if found.None? && e.defValue.Some? {
      return e.(finalValue := e.defValue), true;
    }
    if found.None? {
      return e, false;
    }
    if |e.values| == 0 {
      return e.(finalValue := found), true;
    }
    for j := 0 to |e.values|
      invariant found.value !in e.values[..j]
    {
      if e.values[j] == found.value {
        return e.(finalValue := found), true;
      }
    }
    assert e.values[..|e.values|] == e.values;
    return e, false;
  }

  /** Validation succeeds. */
  predicate Valid(entries: seq<VarEntry>, opts: seq<Pair<string>>) {
    && Distinct(NamesOf(entries))
    && Distinct(KeysOf(opts))
    && forall i | 0 <= i < |entries| :: Accepted(entries[i], Lookup(opts, entries[i].name))
  }

  /** ltf_parse_vars: 0 exactly when validation succeeds, and every accepted variable has its value. */
  method ParseVars(vars: array<VarEntry>, opts: seq<Pair<string>>) returns (res: int)
    requires forall i | 0 <= i < vars.Length :: Registered(vars[i])
    modifies vars
    ensures res == if Valid(old(vars[..]), opts) then 0 else -1
    ensures forall i | 0 <= i < vars.Length :: vars[i] == Resolved(old(vars[i]), Lookup(opts, old(vars[i]).name))
  {
    hide Registered, Accepted, Resolved, Lookup, Distinct;
    res := 0;
    ghost var entries := vars[..];
    var names := seq(vars.Length, i requires 0 <= i < vars.Length reads vars => vars[i].name);
    assert names == NamesOf(entries);
    var twice := FindDuplicates(names);
    if twice != [] {
      res := -1;
    }
    twice := FindDuplicates(KeysOf(opts));
    if twice != [] {
      res := -1;
    }
    for i := 0 to vars.Length
      invariant forall j | i <= j < vars.Length :: vars[j] == entries[j]
      invariant forall j | 0 <= j < i :: vars[j] == Resolved(entries[j], Lookup(opts, entries[j].name))
      invariant res == if Distinct(NamesOf(entries)) && Distinct(KeysOf(opts))
                          && forall j | 0 <= j < i :: Accepted(entries[j], Lookup(opts, entries[j].name))
                       then 0 else -1
    {
      var e, ok := ResolveVar(vars[i], opts);
      vars[i] := e;
      if !ok {
        res := -1;
      }
    }
  }

  /** After a successful validation every variable has a value, an allowed one if it is an enum, and
      a constant has its own. */
  lemma ValidVarsHaveValues(entries: seq<VarEntry>, opts: seq<Pair<string>>, i: nat)
    requires i < |entries| && Registered(entries[i]) && Valid(entries, opts)
    ensures var e := entries[i];
      var value := Effective(e, Lookup(opts, e.name));
      && value.Some?
      && (!e.isScalar ==> Allowed(e, value.value))
      && (e.isScalar ==> value == e.scalar)
      && (!e.isScalar && e.name in KeysOf(opts) ==> value == Lookup(opts, e.name))
  {
    LookupKnown(opts, entries[i].name);
    assert Accepted(entries[i], Lookup(opts, entries[i].name));
  }

  // ----- from the declaration to the value -----

  /** The value a declared variable ends with, when its name has been given this value or none; without one
      there is an error. */
  predicate EndsWith(d: Declaration, specified: Option<string>, final: Option<string>) {
    match d
    case Constant(text) => final == if specified == None then Some(text) else None
    case Table(values, default) =>
      !values.WrongType? &&
      (match specified
       case Some(v) =>
         final == if values.Absent? || values.value == [] || Given(v) in values.value then Some(v) else None
       case None => final == if default.Given? then Some(default.value) else None)
    case Other => false
  }

  /** A declaration is acceptable exactly when everything in it is text and a default is one of the values, if
      there are any. */
  lemma AcceptableIs(values: Arg<seq<Arg<string>>>, default: Arg<string>)
    ensures Acceptable(Table(values, default)) <==>
      && !default.WrongType?
      && match values
         case Absent => true
         case Given(items) =>
           (forall i | 0 <= i < |items| :: items[i].Given?) && (default.Absent? || items == [] || default in items)
         case WrongType => false
    ensures !Acceptable(Other) && forall text :: Acceptable(Constant(text))
  {
    if values.Given? && AllText(values.value) && default.Given? {
      AmongTexts(values.value, default.value);
    }
  }

  lemma AmongTexts(items: seq<Arg<string>>, text: string)
    requires AllText(items)
    ensures text in Texts(items) <==> Given(text) in items
    ensures Texts(items) == [] <==> items == []
  {
    if Given(text) in items {
      var i :| 0 <= i < |items| && items[i] == Given(text);
      assert Texts(items)[i] == text;
    }
  }

  lemma DeclaredEndsWith(name: string, d: Declaration, specified: Option<string>)
    requires Acceptable(d)
    ensures var e := EntryOf(name, d);
      && e.name == name
      && EndsWith(d, specified, Resolved(e, specified).finalValue)
      && (Accepted(e, specified) <==> Resolved(e, specified).finalValue.Some?)
  {
    if d.Table? && d.values.Given? && specified.Some? {
      AmongTexts(d.values.value, specified.value);
    }
  }

  lemma EntryAt(table: seq<Field>, i: nat)
    requires AcceptableTable(table) && i < |table|
    ensures AcceptableField(table[i]) && table[i].key.Given? && Acceptable(table[i].declaration)
    ensures EntriesOf(table)[i] == EntryOf(table[i].key.value, table[i].declaration) && Registered(EntriesOf(table)[i])
  {
  }

  ghost predicate AllKeysGiven(table: seq<Field>) {
    forall i | 0 <= i < |table| :: table[i].key.Given?
  }

  /** What is declared, specified, and the final values. */
  ghost predicate Ends(table: seq<Field>, opts: seq<Pair<string>>, final: seq<VarEntry>)
    requires AllKeysGiven(table)
  {
    && |final| == |table|
    && forall i | 0 <= i < |table| ::
         && final[i].name == table[i].key.value
         && EndsWith(table[i].declaration, Lookup(opts, table[i].key.value), final[i].finalValue)
  }

  /** No name is declared twice. */
  ghost predicate DeclaredOnce(table: seq<Field>) {
    forall i, j | 0 <= i < j < |table| :: table[i].key != table[j].key
  }

  ghost predicate AllHaveValues(final: seq<VarEntry>) {
    forall i | 0 <= i < |final| :: final[i].finalValue.Some?
  }

  lemma FinalAt(table: seq<Field>, opts: seq<Pair<string>>, e: VarEntry, i: nat)
    requires AcceptableTable(table) && i < |table|
    requires e == Resolved(EntriesOf(table)[i], Lookup(opts, EntriesOf(table)[i].name))
    ensures table[i].key.Given? && e.name == table[i].key.value
    ensures EndsWith(table[i].declaration, Lookup(opts, table[i].key.value), e.finalValue)
    ensures e.finalValue.Some? <==> Accepted(EntriesOf(table)[i], Lookup(opts, table[i].key.value))
    ensures NamesOf(EntriesOf(table))[i] == table[i].key.value
  {
    EntryAt(table, i);
    hide EndsWith, Accepted, Acceptable, Lookup;
    DeclaredEndsWith(table[i].key.value, table[i].declaration, Lookup(opts, table[i].key.value));
  }

  lemma FinalsAre(table: seq<Field>, opts: seq<Pair<string>>, final: seq<VarEntry>)
    requires AcceptableTable(table) && |final| == |table|
    requires forall i | 0 <= i < |table| ::
      final[i] == Resolved(EntriesOf(table)[i], Lookup(opts, EntriesOf(table)[i].name))
    ensures AllKeysGiven(table) && Ends(table, opts, final)
    ensures Valid(EntriesOf(table), opts) <==> DeclaredOnce(table) && Distinct(KeysOf(opts)) && AllHaveValues(final)
  {
    EntryCount(table);
    hide AcceptableTable, EndsWith, Accepted, Resolved, Lookup, EntriesOf, Distinct, KeysOf, DeclaredOnce;
    forall i | 0 <= i < |table|
      ensures table[i].key.Given? && final[i].name == table[i].key.value
      ensures EndsWith(table[i].declaration, Lookup(opts, table[i].key.value), final[i].finalValue)
      ensures final[i].finalValue.Some? <==> Accepted(EntriesOf(table)[i], Lookup(opts, EntriesOf(table)[i].name))
    {
      FinalAt(table, opts, final[i], i);
      EntryNamed(table, i);
    }
    DistinctNamesAre(table);
  }

  lemma EntryCount(table: seq<Field>)
    requires AcceptableTable(table)
    ensures |EntriesOf(table)| == |table|
  {
  }

  lemma EntryNamed(table: seq<Field>, i: nat)
    requires AcceptableTable(table) && i < |table|
    ensures |EntriesOf(table)| == |table| && AcceptableField(table[i]) && EntriesOf(table)[i].name == table[i].key.value
  {
    EntryAt(table, i);
  }

  lemma DistinctNamesAre(table: seq<Field>)
    requires AcceptableTable(table)
    ensures Distinct(NamesOf(EntriesOf(table))) <==> DeclaredOnce(table)
  {
    forall i | 0 <= i < |table|
      ensures table[i].key.Given? && NamesOf(EntriesOf(table))[i] == table[i].key.value
    {
      EntryAt(table, i);
    }
    hide AcceptableTable, EntriesOf, NamesOf;
  }

  method Declare(table: seq<Field>) returns (ok: bool, vars: array<VarEntry>)
    ensures fresh(vars) && (ok <==> AcceptableTable(table))
    ensures ok ==> vars[..] == EntriesOf(table)
  {
    var registry := new VarRegistry();
    ok := registry.RegisterVars(table);
    var entries := registry.vars;
    vars := new VarEntry[|entries|](i requires 0 <= i < |entries| => entries[i]);
    assert vars[..] == entries;
    assert ok ==> [] + EntriesOf(table) == EntriesOf(table);
  }

  lemma TableForm(table: seq<Field>)
    ensures AcceptableTable(table)
       <==> AllKeysGiven(table) && forall i | 0 <= i < |table| :: Acceptable(table[i].declaration)
  {
    hide Acceptable;
  }

  lemma AllRegistered(table: seq<Field>)
    requires AcceptableTable(table)
    ensures forall i | 0 <= i < |EntriesOf(table)| :: Registered(EntriesOf(table)[i])
  {
  }

  /** Declares the variables and validates what is specified for them: every variable ends with its value, and
      the result is 0 exactly when no name is declared or specified twice and every variable has one. */
  method DeclareAndParse(table: seq<Field>, opts: seq<Pair<string>>) returns (res: Option<int>, vars: array<VarEntry>)
    ensures fresh(vars)
    ensures res.Some? <==> AllKeysGiven(table) && forall i | 0 <= i < |table| :: Acceptable(table[i].declaration)
    ensures res.Some? ==> AllKeysGiven(table) && Ends(table, opts, vars[..])
    ensures res == Some(0)
       <==> res.Some? && DeclaredOnce(table) && Distinct(KeysOf(opts)) && AllHaveValues(vars[..])
  {
    hide *;
    var ok: bool;
    ok, vars := Declare(table);
    TableForm(table);
    if !ok {
      return None, vars;
    }
    ghost var entries := vars[..];
    EntryCount(table);
    AllRegistered(table);
    assert forall i | 0 <= i < vars.Length :: vars[i] == entries[i];
    var r := ParseVars(vars, opts);
    FinalsAre(table, opts, vars[..]);
    res := Some(r);
  }

  // ----- secrets -----

  /** ltf_parse_secrets, on the pairs read from the file: 0 exactly when no name is registered twice,
      none is specified twice and every registered one is specified; each then has its value. */
  method ParseSecrets(secrets: array<Pair<Option<string>>>, specified: seq<Pair<string>>) returns (res: int)
    modifies secrets
    ensures res == if Distinct(KeysOf(old(secrets[..]))) && Distinct(KeysOf(specified))
                      && (forall i | 0 <= i < secrets.Length :: old(secrets[i]).key in KeysOf(specified))
                   then 0 else -1
    ensures forall i | 0 <= i < secrets.Length ::
      secrets[i] == if old(secrets[i]).key in KeysOf(specified)
                    then Pair(old(secrets[i]).key, Lookup(specified, old(secrets[i]).key))
                    else old(secrets[i])
  {
    res := 0;
    ghost var registered := secrets[..];
    var names := seq(secrets.Length, i requires 0 <= i < secrets.Length reads secrets => secrets[i].key);
    assert names == KeysOf(registered);
    var twice := FindDuplicates(names);
    if twice != [] {
      res := -1;
    }
    twice := FindDuplicates(KeysOf(specified));
    if twice != [] {
      res := -1;
    }
    for i := 0 to secrets.Length
      invariant forall j | i <= j < secrets.Length :: secrets[j] == registered[j]
      invariant forall j | 0 <= j < i ::
        secrets[j] == if registered[j].key in KeysOf(specified)
                      then Pair(registered[j].key, Lookup(specified, registered[j].key)) else registered[j]
      invariant res == if Distinct(KeysOf(registered)) && Distinct(KeysOf(specified))
                          && (forall j | 0 <= j < i :: registered[j].key in KeysOf(specified))
                       then 0 else -1
    {
      var value := FindSpecified(specified, secrets[i].key);
      LookupKnown(specified, secrets[i].key);
      if value.Some? {
        secrets[i] := Pair(secrets[i].key, value);
      } else {
        res := -1;
      }
    }
  }
}
