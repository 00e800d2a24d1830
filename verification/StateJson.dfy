/** The raw log: the run state written as JSON and read back, by the converters of src/ltf_state.c.
    Texts stand for C strings, so they hold no NUL and copying keeps them whole. */
module StateJson {
  import opened Options
  import opened Json
  import opened Keywords
  import opened RunState
  import LogLevel

  datatype Var = Var(name: string, finalValue: Option<string>)

  datatype RunLog = RunLog(
    projectName: Option<string>,
    ltfVersion: Option<string>,
    os: Option<string>,
    osVersion: Option<string>,
    started: Option<string>,
    finished: Option<string>,
    target: Option<string>,
    totalAmount: nat,
    passedAmount: nat,
    failedAmount: nat,
    finishedAmount: nat,
    vars: seq<Var>,
    tags: seq<string>,
    tests: seq<TestRecord>)

  // ----- members -----

  /** A member to write; a NULL text is not written. */
  datatype Field = Field(key: string, value: Option<Json>)

  function Text(text: Option<string>): Option<Json> {
    if text.Some? then Some(JString(text.value)) else None
  }

  /** The members after adding these fields one after the other. */
  function Build(fields: seq<Field>): seq<Member> {
    if fields == [] then []
    else
      var last := fields[|fields| - 1];
      var before := Build(fields[..|fields| - 1]);
      if last.value.Some? then Put(before, last.key, last.value.value) else before
  }

  predicate DistinctFields(fields: seq<Field>) {
    forall i, j | 0 <= i < j < |fields| :: fields[i].key != fields[j].key
  }

  lemma {:induction false} BuildGet(fields: seq<Field>, key: string)
    requires DistinctFields(fields)
    ensures forall i | 0 <= i < |fields| && fields[i].key == key :: Get(Build(fields), key) == fields[i].value
    ensures (forall i | 0 <= i < |fields| :: fields[i].key != key) ==> Get(Build(fields), key) == None
    decreases fields
  {
    if fields != [] {
      BuildGet(fields[..|fields| - 1], key);
    }
  }

  /** The members an object was built from can be read back, each by its key. */
  lemma BuildReads(fields: seq<Field>)
    requires DistinctFields(fields)
    ensures forall i | 0 <= i < |fields| :: Get(Build(fields), fields[i].key) == fields[i].value
  {
    forall i | 0 <= i < |fields| ensures Get(Build(fields), fields[i].key) == fields[i].value {
      BuildGet(fields, fields[i].key);
    }
  }

  function MembersOf(j: Json): seq<Member> {
    if j.JObject? then j.members else []
  }

  function GetText(members: seq<Member>, key: string): Option<string> {
    match Get(members, key)
    case Some(JString(s)) => Some(s)
    case _ => None
  }

  /** json_object_get_int, which saturates. */
  function GetInt(members: seq<Member>, key: string): (i: int)
    ensures IsInt32(i)
  {
    match Get(members, key)
    case Some(JInt(i)) => if i < -0x8000_0000 then -0x8000_0000 else if i > 0x7fff_ffff then 0x7fff_ffff else i
    case _ => 0
  }

  function GetItems(members: seq<Member>, key: string): seq<Json> {
    match Get(members, key)
    case Some(JArray(items)) => items
    case _ => []
  }

  predicate IsInt32(i: int) {
    -0x8000_0000 <= i <= 0x7fff_ffff
  }

  const SIZE := 0x1_0000_0000_0000_0000

  /** A size_t cast to int. */
  function CountToInt(n: nat): (i: int)
    ensures IsInt32(i)
  {
    var low := n % 0x1_0000_0000;
    if low < 0x8000_0000 then low else low - 0x1_0000_0000
  }

  /** An int stored in a size_t. */
  function IntToCount(i: int): nat
    requires IsInt32(i)
  {
    if i < 0 then i + SIZE else i
  }

  lemma CountSurvives(n: nat)
    requires n < SIZE
    ensures IntToCount(CountToInt(n)) == n <==> n < 0x8000_0000 || n >= SIZE - 0x8000_0000
  {
  }

  // ----- texts and outputs -----

  function TextsToJson(texts: seq<string>): seq<Json> {
    seq(|texts|, i requires 0 <= i < |texts| => JString(texts[i]))
  }

  function TextsFromJson(items: seq<Json>): seq<string> {
    seq(|items|, i requires 0 <= i < |items| => if items[i].JString? then items[i].s else "")
  }

  function OutputFields(o: Output): seq<Field> {
    [Field("file", Text(o.file)), Field("line", Some(JInt(o.line))), Field("date_time", Text(o.dateTime)),
     Field("level", Text(LogLevel.ToStr(o.level))), Field("msg", Text(o.msg))]
  }

  function OutputToJson(o: Output): Json {
    JObject(Build(OutputFields(o)))
  }

  function OutputFromJson(j: Json): Output {
    var m := MembersOf(j);
    var level := GetText(m, "level");
    Output(GetText(m, "file"), GetInt(m, "line"), GetText(m, "date_time"),
           if level.Some? then LogLevel.FromStr(level.value) else 0, GetText(m, "msg"))
  }

  /** The values the C types and the recorder allow. */
  predicate OutputStored(o: Output) {
    IsInt32(o.line) && LogLevel.IsLevel(o.level)
  }

  lemma OutputRoundTrip(o: Output)
    requires OutputStored(o)
    ensures OutputFromJson(OutputToJson(o)) == o
  {
    var f := OutputFields(o);
    assert |f[0].key| == 4 && |f[1].key| == 4 && |f[2].key| == 9 && |f[3].key| == 5 && |f[4].key| == 3;
    assert f[0].key[0] != f[1].key[0];
    BuildReads(f);
    assert f[0].key == "file" && f[1].key == "line" && f[2].key == "date_time" && f[3].key == "level"
        && f[4].key == "msg";
    LogLevel.LevelRoundTrip(o.level);
  }

  function OutputsToJson(outputs: seq<Output>): seq<Json> {
    seq(|outputs|, i requires 0 <= i < |outputs| => OutputToJson(outputs[i]))
  }

  function OutputsFromJson(items: seq<Json>): seq<Output> {
    seq(|items|, i requires 0 <= i < |items| => OutputFromJson(items[i]))
  }

  predicate OutputsStored(outputs: seq<Output>) {
    forall i | 0 <= i < |outputs| :: OutputStored(outputs[i])
  }

  lemma OutputsRoundTrip(outputs: seq<Output>)
    requires OutputsStored(outputs)
    ensures OutputsFromJson(OutputsToJson(outputs)) == outputs
  {
    forall i | 0 <= i < |outputs| ensures OutputFromJson(OutputToJson(outputs[i])) == outputs[i] {
      OutputRoundTrip(outputs[i]);
    }
  }

  lemma TextsRoundTrip(texts: seq<string>)
    ensures TextsFromJson(TextsToJson(texts)) == texts
  {
  }

  // ----- keywords, at any depth -----

  function KeywordFields(k: Keyword): seq<Field>
    decreases k, 0
  {
    [Field("name", Text(k.name)), Field("started", Text(k.started)), Field("finished", Text(k.finished)),
     Field("file", Text(k.file)), Field("line", Some(JInt(k.line))),
     Field("children", Some(JArray(KeywordsToJson(k.children))))]
  }

  function KeywordToJson(k: Keyword): Json
    decreases k, 1
  {
    JObject(Build(KeywordFields(k)))
  }

  function KeywordsToJson(ks: seq<Keyword>): (items: seq<Json>)
    ensures |items| == |ks|
    decreases ks
  {
    if ks == [] then [] else [KeywordToJson(ks[0])] + KeywordsToJson(ks[1..])
  }

  function KeywordFromJson(j: Json): Keyword
    decreases j
  {
    var m := MembersOf(j);
    var items := GetItems(m, "children");
    Keyword(GetText(m, "name"), GetText(m, "file"), GetInt(m, "line"), GetText(m, "started"), GetText(m, "finished"),
            if items == [] then [] else GetSmaller(j, "children"); KeywordsFromJson(items))
  }

  function KeywordsFromJson(items: seq<Json>): seq<Keyword>
    decreases items
  {
    if items == [] then [] else [KeywordFromJson(items[0])] + KeywordsFromJson(items[1..])
  }

  /** An array read out of an object is a part of it. */
  lemma {:induction false} GetSmaller(j: Json, key: string)
    requires GetItems(MembersOf(j), key) != []
    ensures j decreases to GetItems(MembersOf(j), key)
  {
    var i := MemberOf(j.members, key);
    assert j decreases to j.members[i];
    assert j.members[i] decreases to j.members[i].value;
    assert j.members[i].value decreases to j.members[i].value.items;
  }

  predicate KeywordsStored(ks: seq<Keyword>)
    decreases ks
  {
    ks == [] || (IsInt32(ks[0].line) && KeywordsStored(ks[0].children) && KeywordsStored(ks[1..]))
  }

  lemma KeywordReads(k: Keyword)
    requires IsInt32(k.line)
    ensures var m := MembersOf(KeywordToJson(k));
      && GetText(m, "name") == k.name && GetText(m, "file") == k.file && GetInt(m, "line") == k.line
      && GetText(m, "started") == k.started && GetText(m, "finished") == k.finished
      && GetItems(m, "children") == KeywordsToJson(k.children)
  {
    var f := KeywordFields(k);
    assert |f[0].key| == 4 && |f[1].key| == 7 && |f[2].key| == 8 && |f[3].key| == 4
        && |f[4].key| == 4 && |f[5].key| == 8;
    assert f[0].key[0] == 'n' && f[3].key[0] == 'f' && f[4].key[0] == 'l' && f[2].key[0] == 'f' && f[5].key[0] == 'c';
    BuildReads(f);
    assert f[0].key == "name" && f[1].key == "started" && f[2].key == "finished"
        && f[3].key == "file" && f[4].key == "line" && f[5].key == "children";
  }

  /** Keyword trees of any depth and width come back whole. */
  lemma {:induction false} KeywordsRoundTrip(ks: seq<Keyword>)
    requires KeywordsStored(ks)
    ensures KeywordsFromJson(KeywordsToJson(ks)) == ks
    decreases ks
  {
    if ks != [] {
      var items := KeywordsToJson(ks);
      assert items[0] == KeywordToJson(ks[0]) && items[1..] == KeywordsToJson(ks[1..]);
      KeywordReads(ks[0]);
      KeywordsRoundTrip(ks[0].children);
      KeywordsRoundTrip(ks[1..]);
      assert KeywordFromJson(items[0]) == ks[0];
    }
  }

  // ----- tests -----

  function TestFields(t: TestRecord): seq<Field> {
    [Field("name", Text(t.name)), Field("description", Text(t.description)),
     Field("started", Text(t.started)), Field("finished", Text(t.finished)),
     Field("teardown_start", Text(t.teardownStart)), Field("status", Text(t.statusStr)),
     Field("tags", Some(JArray(TextsToJson(t.tags)))),
     Field("failure_reasons", Some(JArray(OutputsToJson(t.failureReasons)))),
     Field("output", Some(JArray(OutputsToJson(t.outputs)))),
     Field("teardown_output", Some(JArray(OutputsToJson(t.teardownOutputs)))),
     Field("teardown_errors", Some(JArray(OutputsToJson(t.teardownErrors)))),
     Field("keywords", Some(JArray(KeywordsToJson(t.keywords))))]
  }

  function TestToJson(t: TestRecord): Json {
    JObject(Build(TestFields(t)))
  }

  /** What is not in the log is left zeroed: the end of the teardown, and the status enum. */
  function TestFromJson(j: Json): TestRecord {
    var m := MembersOf(j);
    TestRecord(GetText(m, "name"), GetText(m, "description"), GetText(m, "started"), GetText(m, "finished"),
               GetText(m, "teardown_start"), None, RUNNING, GetText(m, "status"),
               TextsFromJson(GetItems(m, "tags")),
               OutputsFromJson(GetItems(m, "failure_reasons")), OutputsFromJson(GetItems(m, "output")),
               OutputsFromJson(GetItems(m, "teardown_output")), OutputsFromJson(GetItems(m, "teardown_errors")),
               KeywordsFromJson(GetItems(m, "keywords")))
  }

  predicate TestStored(t: TestRecord) {
    && OutputsStored(t.failureReasons) && OutputsStored(t.outputs)
    && OutputsStored(t.teardownOutputs) && OutputsStored(t.teardownErrors)
    && KeywordsStored(t.keywords)
  }

  function Persisted(t: TestRecord): TestRecord {
    t.(teardownEnd := None, status := RUNNING)
  }

  lemma TestFieldsDistinct(t: TestRecord)
    ensures DistinctFields(TestFields(t))
  {
    hide TextsToJson, OutputsToJson, KeywordsToJson, Text;
    var f := TestFields(t);
    var sizes := [4, 11, 7, 8, 14, 6, 4, 15, 6, 15, 15, 8];
    assert forall i | 0 <= i < 12 :: |f[i].key| == sizes[i];
    assert f[0].key[0] != f[6].key[0];
    assert f[3].key[0] != f[11].key[0];
    assert f[5].key[0] != f[8].key[0];
    assert f[7].key[0] != f[9].key[0];
    assert f[7].key[0] != f[10].key[0];
    assert f[9].key[9] != f[10].key[9];
  }

  lemma TestReadsTexts(t: TestRecord)
    ensures var m := Build(TestFields(t));
      && GetText(m, "name") == t.name && GetText(m, "description") == t.description
      && GetText(m, "started") == t.started && GetText(m, "finished") == t.finished
      && GetText(m, "teardown_start") == t.teardownStart && GetText(m, "status") == t.statusStr
  {
    TestFieldsDistinct(t);
    var f := TestFields(t);
    BuildReads(f);
    hide Build, Get, OutputsToJson, KeywordsToJson, TextsToJson;
    assert f[0].key == "name" && f[1].key == "description" && f[2].key == "started";
    assert f[3].key == "finished" && f[4].key == "teardown_start" && f[5].key == "status";
  }

  lemma TestReadsLists(t: TestRecord)
    ensures var m := Build(TestFields(t));
      && GetItems(m, "tags") == TextsToJson(t.tags)
      && GetItems(m, "failure_reasons") == OutputsToJson(t.failureReasons)
      && GetItems(m, "output") == OutputsToJson(t.outputs)
      && GetItems(m, "teardown_output") == OutputsToJson(t.teardownOutputs)
      && GetItems(m, "teardown_errors") == OutputsToJson(t.teardownErrors)
      && GetItems(m, "keywords") == KeywordsToJson(t.keywords)
  {
    TestFieldsDistinct(t);
    var f := TestFields(t);
    BuildReads(f);
    hide Build, Get, OutputsToJson, KeywordsToJson, TextsToJson;
    assert f[6].key == "tags" && f[7].key == "failure_reasons" && f[8].key == "output";
    assert f[9].key == "teardown_output" && f[10].key == "teardown_errors" && f[11].key == "keywords";
  }

  lemma TestRoundTrip(t: TestRecord)
    requires TestStored(t)
    ensures TestFromJson(TestToJson(t)) == Persisted(t)
  {
    TestReadsTexts(t);
    TestReadsLists(t);
    TextsRoundTrip(t.tags);
    OutputsRoundTrip(t.failureReasons);
    OutputsRoundTrip(t.outputs);
    OutputsRoundTrip(t.teardownOutputs);
    OutputsRoundTrip(t.teardownErrors);
    KeywordsRoundTrip(t.keywords);
  }

  // ----- variables -----

  function VarFields(vars: seq<Var>): seq<Field> {
    seq(|vars|, i requires 0 <= i < |vars| => Field(vars[i].name, Text(vars[i].finalValue)))
  }

  function VarsFromJson(members: seq<Member>): seq<Var> {
    seq(|members|, i requires 0 <= i < |members| =>
      Var(members[i].key, if members[i].value.JString? then Some(members[i].value.s) else None))
  }

  predicate DistinctNames(vars: seq<Var>) {
    forall i, j | 0 <= i < j < |vars| :: vars[i].name != vars[j].name
  }

  predicate AllResolved(vars: seq<Var>) {
    forall i | 0 <= i < |vars| :: vars[i].finalValue.Some?
  }

  lemma {:induction false} PutKeys(members: seq<Member>, key: string, value: Json)
    requires DistinctKeys(members)
    ensures DistinctKeys(Put(members, key, value))
  {
    if Get(members, key) == None {
      PutNew(members, key, value);
      GetAbsent(members, key);
    } else {
      PutSame(members, key, value);
    }
  }

  /** Adding a key that is there changes its value in place. */
  lemma {:induction false} PutSame(members: seq<Member>, key: string, value: Json)
    requires Get(members, key).Some?
    ensures |Put(members, key, value)| == |members|
    ensures forall i | 0 <= i < |members| :: Put(members, key, value)[i].key == members[i].key
  {
    if members[0].key != key {
      PutSame(members[1..], key, value);
    }
  }

  lemma {:induction false} BuildKeys(fields: seq<Field>)
    ensures DistinctKeys(Build(fields))
    decreases fields
  {
    if fields != [] {
      BuildKeys(fields[..|fields| - 1]);
      var last := fields[|fields| - 1];
      if last.value.Some? {
        PutKeys(Build(fields[..|fields| - 1]), last.key, last.value.value);
      }
    }
  }

  function VarMembers(vars: seq<Var>): seq<Member>
    requires AllResolved(vars)
  {
    seq(|vars|, i requires 0 <= i < |vars| => Member(vars[i].name, JString(vars[i].finalValue.value)))
  }

  lemma {:induction false} BuildVars(vars: seq<Var>)
    requires AllResolved(vars) && DistinctNames(vars)
    ensures Build(VarFields(vars)) == VarMembers(vars)
    decreases vars
  {
    if vars != [] {
      var front, last := vars[..|vars| - 1], vars[|vars| - 1];
      BuildVars(front);
      assert VarFields(vars)[..|vars| - 1] == VarFields(front);
      GetAbsent(VarMembers(front), last.name);
      PutNew(VarMembers(front), last.name, JString(last.finalValue.value));
      hide Build, Get, Put;
      assert VarMembers(vars) == VarMembers(front) + [Member(last.name, JString(last.finalValue.value))];
    }
  }

  /** The resolved variables come back, in order, exactly when their names are distinct. */
  lemma VarsRoundTrip(vars: seq<Var>)
    requires AllResolved(vars)
    ensures VarsFromJson(Build(VarFields(vars))) == vars <==> DistinctNames(vars)
  {
    var m := Build(VarFields(vars));
    BuildKeys(VarFields(vars));
    assert forall i | 0 <= i < |m| :: VarsFromJson(m)[i].name == m[i].key;
    if DistinctNames(vars) {
      BuildVars(vars);
      assert VarsFromJson(VarMembers(vars)) == vars;
    }
  }

  // ----- the whole log -----

  function LogFields(log: RunLog): seq<Field> {
    [Field("project_name", Text(log.projectName)), Field("ltf_version", Text(log.ltfVersion)),
     Field("os", Text(log.os)), Field("os_version", Text(log.osVersion)),
     Field("started", Text(log.started)), Field("finished", Text(log.finished)), Field("target", Text(log.target)),
     Field("variables", Some(JObject(Build(VarFields(log.vars))))),
     Field("tags", Some(JArray(TextsToJson(log.tags)))),
     Field("tests", Some(JArray(TestsToJson(log.tests)))),
     Field("total_amount", Some(JInt(CountToInt(log.totalAmount)))),
     Field("passed_amount", Some(JInt(CountToInt(log.passedAmount)))),
     Field("failed_amount", Some(JInt(CountToInt(log.failedAmount)))),
     Field("finished_amount", Some(JInt(CountToInt(log.finishedAmount))))]
  }

  function TestsToJson(tests: seq<TestRecord>): seq<Json> {
    seq(|tests|, i requires 0 <= i < |tests| => TestToJson(tests[i]))
  }

  function TestsFromJson(items: seq<Json>): seq<TestRecord> {
    seq(|items|, i requires 0 <= i < |items| => TestFromJson(items[i]))
  }

  function LogToJson(log: RunLog): Json {
    JObject(Build(LogFields(log)))
  }

  /** The total is the number of test entries; the written one is not read. */
  function LogFromJson(j: Json): RunLog {
    var m := MembersOf(j);
    var tests := GetItems(m, "tests");
    RunLog(GetText(m, "project_name"), GetText(m, "ltf_version"), GetText(m, "os"), GetText(m, "os_version"),
           GetText(m, "started"), GetText(m, "finished"), GetText(m, "target"),
           |tests|, IntToCount(GetInt(m, "passed_amount")), IntToCount(GetInt(m, "failed_amount")),
           IntToCount(GetInt(m, "finished_amount")),
           VarsFromJson(match Get(m, "variables") case Some(JObject(vars)) => vars case _ => []),
           TextsFromJson(GetItems(m, "tags")), TestsFromJson(tests))
  }

  lemma LogFieldsDistinct(log: RunLog)
    ensures DistinctFields(LogFields(log))
  {
    hide Build, VarFields, TextsToJson, TestsToJson, CountToInt, Text;
    var f := LogFields(log);
    var sizes := [12, 11, 2, 10, 7, 8, 6, 9, 4, 5, 12, 13, 13, 15];
    assert forall i | 0 <= i < 14 :: |f[i].key| == sizes[i];
    assert f[0].key[0] != f[10].key[0];
    assert f[11].key[0] != f[12].key[0];
  }

  lemma LogReadsTexts(log: RunLog)
    ensures var m := Build(LogFields(log));
      && GetText(m, "project_name") == log.projectName && GetText(m, "ltf_version") == log.ltfVersion
      && GetText(m, "os") == log.os && GetText(m, "os_version") == log.osVersion
      && GetText(m, "started") == log.started && GetText(m, "finished") == log.finished
      && GetText(m, "target") == log.target
  {
    LogFieldsDistinct(log);
    var f := LogFields(log);
    BuildReads(f);
    hide Build, Get, TextsToJson, TestsToJson, VarFields, CountToInt;
    assert f[0].key == "project_name" && f[1].key == "ltf_version" && f[2].key == "os" && f[3].key == "os_version";
    assert f[4].key == "started" && f[5].key == "finished" && f[6].key == "target";
  }

  lemma LogReadsRest(log: RunLog)
    ensures var m := Build(LogFields(log));
      && Get(m, "variables") == Some(JObject(Build(VarFields(log.vars))))
      && GetItems(m, "tags") == TextsToJson(log.tags) && GetItems(m, "tests") == TestsToJson(log.tests)
      && GetInt(m, "passed_amount") == CountToInt(log.passedAmount)
      && GetInt(m, "failed_amount") == CountToInt(log.failedAmount)
      && GetInt(m, "finished_amount") == CountToInt(log.finishedAmount)
  {
    LogFieldsDistinct(log);
    var f := LogFields(log);
    BuildReads(f);
    hide Build, Get, TextsToJson, TestsToJson, VarFields, CountToInt;
    assert f[7].key == "variables" && f[8].key == "tags" && f[9].key == "tests";
    assert f[11].key == "passed_amount" && f[12].key == "failed_amount" && f[13].key == "finished_amount";
  }

  lemma TestsRoundTrip(tests: seq<TestRecord>)
    requires forall i | 0 <= i < |tests| :: TestStored(tests[i])
    ensures var back := TestsFromJson(TestsToJson(tests));
      && |back| == |tests| && forall i | 0 <= i < |tests| :: back[i] == Persisted(tests[i])
  {
    forall i | 0 <= i < |tests| ensures TestFromJson(TestToJson(tests[i])) == Persisted(tests[i]) {
      TestRoundTrip(tests[i]);
    }
  }

  predicate CountStored(n: nat) {
    n < 0x8000_0000
  }

  /** What the recorder can have in a log: levels, C ints, counts that fit one, resolved variables. */
  predicate LogStored(log: RunLog) {
    && CountStored(log.passedAmount) && CountStored(log.failedAmount) && CountStored(log.finishedAmount)
    && AllResolved(log.vars)
    && forall i | 0 <= i < |log.tests| :: TestStored(log.tests[i])
  }

  /** Everything but the total and the variables always comes back. */
  lemma {:induction false} LogRoundTrip(log: RunLog)
    requires LogStored(log)
    ensures var back := LogFromJson(LogToJson(log));
      && back == log.(totalAmount := |log.tests|, vars := back.vars, tests := back.tests)
      && |back.tests| == |log.tests|
      && (forall i | 0 <= i < |log.tests| :: back.tests[i] == Persisted(log.tests[i]))
      && (back.vars == log.vars <==> DistinctNames(log.vars))
  {
    LogReadsTexts(log);
    LogReadsRest(log);
    TextsRoundTrip(log.tags);
    TestsRoundTrip(log.tests);
    VarsRoundTrip(log.vars);
    CountSurvives(log.passedAmount);
    CountSurvives(log.failedAmount);
    CountSurvives(log.finishedAmount);
    hide Build, LogFields, TestFromJson, TestToJson, VarsFromJson, Persisted;
  }
}
