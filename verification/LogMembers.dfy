/** What the raw log holds under which name. */
module LogMembers {
  import opened Options
  import opened Json
  import opened Keywords
  import opened RunState
  import opened StateJson
  import LogLevel

  // ----- reading the members by name -----

  /** The member is a text, or missing when there is none. */
  predicate HasText(m: seq<Member>, key: string, text: Option<string>) {
    Get(m, key) == if text.Some? then Some(JString(text.value)) else None
  }

  predicate HasInt(m: seq<Member>, key: string, i: int) {
    Get(m, key) == Some(JInt(i))
  }

  /** The member is an array of so many items. */
  predicate HasItems(m: seq<Member>, key: string, n: nat) {
    match Get(m, key)
    case Some(JArray(items)) => |items| == n
    case _ => false
  }

  function ItemAt(m: seq<Member>, key: string, i: nat): Json {
    match Get(m, key)
    case Some(JArray(items)) => if i < |items| then items[i] else JNull
    case _ => JNull
  }

  // ----- one log entry -----

  /** The six names of the levels. */
  function NameOf(level: int): string {
    if level == 0 then "CRITICAL" else if level == 1 then "ERROR" else if level == 2 then "WARNING"
    else if level == 3 then "INFO" else if level == 4 then "DEBUG" else "TRACE"
  }

  predicate SaysOutput(j: Json, o: Output) {
    && j.JObject?
    && HasText(j.members, "file", o.file) && HasInt(j.members, "line", o.line)
    && HasText(j.members, "date_time", o.dateTime) && HasText(j.members, "msg", o.msg)
    && HasText(j.members, "level", if 0 <= o.level <= 5 then Some(NameOf(o.level)) else None)
  }

  lemma OutputSays(o: Output)
    ensures SaysOutput(OutputToJson(o), o)
  {
    var f := OutputFields(o);
    assert |f[0].key| == 4 && |f[1].key| == 4 && |f[2].key| == 9 && |f[3].key| == 5 && |f[4].key| == 3;
    assert f[0].key[0] != f[1].key[0];
    BuildReads(f);
    assert f[0].key == "file" && f[1].key == "line" && f[2].key == "date_time" && f[3].key == "level"
        && f[4].key == "msg";
  }

  predicate SaysOutputs(m: seq<Member>, key: string, outputs: seq<Output>) {
    && HasItems(m, key, |outputs|)
    && forall i | 0 <= i < |outputs| :: SaysOutput(ItemAt(m, key, i), outputs[i])
  }

  lemma OutputsSay(m: seq<Member>, key: string, outputs: seq<Output>)
    requires Get(m, key) == Some(JArray(OutputsToJson(outputs)))
    ensures SaysOutputs(m, key, outputs)
  {
    forall i | 0 <= i < |outputs| ensures SaysOutput(ItemAt(m, key, i), outputs[i]) {
      OutputSays(outputs[i]);
    }
  }

  // ----- keywords, at any depth -----

  predicate SaysKeyword(j: Json, k: Keyword)
    decreases k
  {
    && j.JObject?
    && HasText(j.members, "name", k.name) && HasText(j.members, "file", k.file)
    && HasInt(j.members, "line", k.line)
    && HasText(j.members, "started", k.started) && HasText(j.members, "finished", k.finished)
    && HasItems(j.members, "children", |k.children|)
    && forall i | 0 <= i < |k.children| :: SaysKeyword(ItemAt(j.members, "children", i), k.children[i])
  }

  lemma KeywordHolds(k: Keyword)
    ensures var m := Build(KeywordFields(k));
      && HasText(m, "name", k.name) && HasText(m, "file", k.file) && HasInt(m, "line", k.line)
      && HasText(m, "started", k.started) && HasText(m, "finished", k.finished)
      && Get(m, "children") == Some(JArray(KeywordsToJson(k.children)))
  {
    var f := KeywordFields(k);
    assert |f[0].key| == 4 && |f[1].key| == 7 && |f[2].key| == 8 && |f[3].key| == 4
        && |f[4].key| == 4 && |f[5].key| == 8;
    assert f[0].key[0] == 'n' && f[3].key[0] == 'f' && f[4].key[0] == 'l' && f[2].key[0] == 'f' && f[5].key[0] == 'c';
    BuildReads(f);
    hide Build, Get, KeywordsToJson;
    assert f[0].key == "name" && f[1].key == "started" && f[2].key == "finished"
        && f[3].key == "file" && f[4].key == "line" && f[5].key == "children";
  }

  lemma {:induction false} KeywordItem(ks: seq<Keyword>, i: nat)
    requires i < |ks|
    ensures KeywordsToJson(ks)[i] == KeywordToJson(ks[i])
  {
    if i > 0 {
      KeywordItem(ks[1..], i - 1);
    }
  }

  lemma {:induction false} KeywordSays(k: Keyword)
    ensures SaysKeyword(KeywordToJson(k), k)
    decreases k
  {
    KeywordHolds(k);
    var m := Build(KeywordFields(k));
    hide Build, Get, KeywordFields, HasText, HasInt;
    forall i | 0 <= i < |k.children| ensures SaysKeyword(ItemAt(m, "children", i), k.children[i]) {
      KeywordItem(k.children, i);
      KeywordSays(k.children[i]);
    }
  }

  predicate SaysKeywords(m: seq<Member>, key: string, ks: seq<Keyword>) {
    && HasItems(m, key, |ks|)
    && forall i | 0 <= i < |ks| :: SaysKeyword(ItemAt(m, key, i), ks[i])
  }

  lemma KeywordsSay(m: seq<Member>, key: string, ks: seq<Keyword>)
    requires Get(m, key) == Some(JArray(KeywordsToJson(ks)))
    ensures SaysKeywords(m, key, ks)
  {
    forall i | 0 <= i < |ks| ensures SaysKeyword(ItemAt(m, key, i), ks[i]) {
      KeywordItem(ks, i);
      KeywordSays(ks[i]);
    }
  }

  predicate SaysTexts(m: seq<Member>, key: string, texts: seq<string>) {
    HasItems(m, key, |texts|) && forall i | 0 <= i < |texts| :: ItemAt(m, key, i) == JString(texts[i])
  }

  // ----- a test -----

  predicate SaysTest(j: Json, t: TestRecord) {
    && j.JObject?
    && HasText(j.members, "name", t.name) && HasText(j.members, "description", t.description)
    && HasText(j.members, "started", t.started) && HasText(j.members, "finished", t.finished)
    && HasText(j.members, "teardown_start", t.teardownStart) && HasText(j.members, "status", t.statusStr)
    && SaysTexts(j.members, "tags", t.tags)
    && SaysOutputs(j.members, "failure_reasons", t.failureReasons)
    && SaysOutputs(j.members, "output", t.outputs)
    && SaysOutputs(j.members, "teardown_output", t.teardownOutputs)
    && SaysOutputs(j.members, "teardown_errors", t.teardownErrors)
    && SaysKeywords(j.members, "keywords", t.keywords)
  }

  lemma TestHolds(t: TestRecord)
    ensures var m := Build(TestFields(t));
      && HasText(m, "name", t.name) && HasText(m, "description", t.description)
      && HasText(m, "started", t.started) && HasText(m, "finished", t.finished)
      && HasText(m, "teardown_start", t.teardownStart) && HasText(m, "status", t.statusStr)
      && Get(m, "tags") == Some(JArray(TextsToJson(t.tags)))
      && Get(m, "failure_reasons") == Some(JArray(OutputsToJson(t.failureReasons)))
      && Get(m, "output") == Some(JArray(OutputsToJson(t.outputs)))
      && Get(m, "teardown_output") == Some(JArray(OutputsToJson(t.teardownOutputs)))
      && Get(m, "teardown_errors") == Some(JArray(OutputsToJson(t.teardownErrors)))
      && Get(m, "keywords") == Some(JArray(KeywordsToJson(t.keywords)))
  {
    TestFieldsDistinct(t);
    var f := TestFields(t);
    BuildReads(f);
    hide Build, Get, OutputsToJson, KeywordsToJson, TextsToJson;
    assert f[0].key == "name" && f[1].key == "description" && f[2].key == "started" && f[3].key == "finished";
    assert f[4].key == "teardown_start" && f[5].key == "status" && f[6].key == "tags";
    assert f[7].key == "failure_reasons" && f[8].key == "output" && f[9].key == "teardown_output";
    assert f[10].key == "teardown_errors" && f[11].key == "keywords";
  }

  lemma TestSays(t: TestRecord)
    ensures SaysTest(TestToJson(t), t)
  {
    TestHolds(t);
    hide TestFields, HasText, SaysOutputs, SaysKeywords;
    var m := Build(TestFields(t));
    OutputsSay(m, "failure_reasons", t.failureReasons);
    OutputsSay(m, "output", t.outputs);
    OutputsSay(m, "teardown_output", t.teardownOutputs);
    OutputsSay(m, "teardown_errors", t.teardownErrors);
    KeywordsSay(m, "keywords", t.keywords);
  }

  // ----- the whole log -----

  /** The text of a size_t that fits an int is itself; a larger one wraps. */
  predicate SaysCount(m: seq<Member>, key: string, n: nat) {
    && Get(m, key).Some? && Get(m, key).value.JInt?
    && var i := Get(m, key).value.i;
       -0x8000_0000 <= i < 0x8000_0000 && (i - n) % 0x1_0000_0000 == 0
  }

  lemma CountSays(m: seq<Member>, key: string, n: nat)
    requires Get(m, key) == Some(JInt(CountToInt(n)))
    ensures SaysCount(m, key, n)
    ensures n < 0x8000_0000 ==> HasInt(m, key, n)
  {
  }

  predicate SaysVars(m: seq<Member>, vars: seq<Var>) {
    forall i | 0 <= i < |vars| :: HasText(m, vars[i].name, vars[i].finalValue)
  }

  predicate SaysLog(j: Json, log: RunLog) {
    && j.JObject?
    && HasText(j.members, "project_name", log.projectName) && HasText(j.members, "ltf_version", log.ltfVersion)
    && HasText(j.members, "os", log.os) && HasText(j.members, "os_version", log.osVersion)
    && HasText(j.members, "started", log.started) && HasText(j.members, "finished", log.finished)
    && HasText(j.members, "target", log.target)
    && SaysTexts(j.members, "tags", log.tags)
    && HasItems(j.members, "tests", |log.tests|)
    && (forall i | 0 <= i < |log.tests| :: SaysTest(ItemAt(j.members, "tests", i), log.tests[i]))
    && SaysCount(j.members, "total_amount", log.totalAmount)
    && SaysCount(j.members, "passed_amount", log.passedAmount)
    && SaysCount(j.members, "failed_amount", log.failedAmount)
    && SaysCount(j.members, "finished_amount", log.finishedAmount)
    && (DistinctNames(log.vars) ==>
          match Get(j.members, "variables")
          case Some(JObject(members)) => SaysVars(members, log.vars)
          case _ => false)
  }

  lemma LogHolds(log: RunLog)
    ensures var m := Build(LogFields(log));
      && HasText(m, "project_name", log.projectName) && HasText(m, "ltf_version", log.ltfVersion)
      && HasText(m, "os", log.os) && HasText(m, "os_version", log.osVersion)
      && HasText(m, "started", log.started) && HasText(m, "finished", log.finished)
      && HasText(m, "target", log.target)
      && Get(m, "variables") == Some(JObject(Build(VarFields(log.vars))))
      && Get(m, "tags") == Some(JArray(TextsToJson(log.tags)))
      && Get(m, "tests") == Some(JArray(TestsToJson(log.tests)))
      && Get(m, "total_amount") == Some(JInt(CountToInt(log.totalAmount)))
      && Get(m, "passed_amount") == Some(JInt(CountToInt(log.passedAmount)))
      && Get(m, "failed_amount") == Some(JInt(CountToInt(log.failedAmount)))
      && Get(m, "finished_amount") == Some(JInt(CountToInt(log.finishedAmount)))
  {
    LogFieldsDistinct(log);
    var f := LogFields(log);
    BuildReads(f);
    hide Build, Get, TextsToJson, TestsToJson, VarFields, CountToInt;
    assert f[0].key == "project_name" && f[1].key == "ltf_version" && f[2].key == "os" && f[3].key == "os_version";
    assert f[4].key == "started" && f[5].key == "finished" && f[6].key == "target" && f[7].key == "variables";
    assert f[8].key == "tags" && f[9].key == "tests" && f[10].key == "total_amount";
    assert f[11].key == "passed_amount" && f[12].key == "failed_amount" && f[13].key == "finished_amount";
  }

  lemma VarsSay(vars: seq<Var>)
    requires DistinctNames(vars)
    ensures SaysVars(Build(VarFields(vars)), vars)
  {
    var f := VarFields(vars);
    BuildReads(f);
    hide Build;
    forall i | 0 <= i < |vars| ensures HasText(Build(f), vars[i].name, vars[i].finalValue) {
      assert Get(Build(f), f[i].key) == f[i].value;
    }
  }

  /** Every member of the log, of its tests, their entries and their keywords, by its name. */
  lemma LogSays(log: RunLog)
    ensures SaysLog(LogToJson(log), log)
  {
    LogHolds(log);
    var m := Build(LogFields(log));
    hide LogFields, HasText, SaysTest, TestToJson, Build, VarFields, SaysVars, CountToInt, DistinctNames, SaysCount;
    forall i | 0 <= i < |log.tests| ensures SaysTest(ItemAt(m, "tests", i), log.tests[i]) {
      TestSays(log.tests[i]);
    }
    CountSays(m, "total_amount", log.totalAmount);
    CountSays(m, "passed_amount", log.passedAmount);
    CountSays(m, "failed_amount", log.failedAmount);
    CountSays(m, "finished_amount", log.finishedAmount);
    if DistinctNames(log.vars) {
      VarsSay(log.vars);
    }
  }

  lemma TotalSays(log: RunLog)
    requires log.totalAmount < 0x8000_0000
    ensures Get(MembersOf(LogToJson(log)), "total_amount") == Some(JInt(log.totalAmount))
  {
    LogHolds(log);
    CountSays(Build(LogFields(log)), "total_amount", log.totalAmount);
  }

  // ----- reading what the program does not write -----

  /** What is missing from an object is read as missing, empty or zero. */
  lemma NothingReads()
    ensures LogFromJson(JObject([])) == RunLog(None, None, None, None, None, None, None, 0, 0, 0, 0, [], [], [])
    ensures TestFromJson(JObject([]))
         == TestRecord(None, None, None, None, None, None, RUNNING, None, [], [], [], [], [], [])
    ensures OutputFromJson(JObject([])) == Output(None, 0, None, 0, None)
    ensures KeywordFromJson(JObject([])) == Keyword(None, None, 0, None, None, [])
  {
  }

  /** A line number that does not fit an int is cut to the nearest one that does. */
  lemma LineReads(i: int)
    ensures KeywordFromJson(JObject([Member("line", JInt(i))])).line
         == if i < -2147483648 then -2147483648 else if i > 2147483647 then 2147483647 else i
    ensures OutputFromJson(JObject([Member("line", JInt(i))])).line
         == if i < -2147483648 then -2147483648 else if i > 2147483647 then 2147483647 else i
  {
  }

  /** A negative counter becomes a huge one. */
  lemma CountReads(i: int)
    requires -0x8000_0000 <= i < 0x8000_0000
    ensures LogFromJson(JObject([Member("passed_amount", JInt(i))])).passedAmount
         == if i < 0 then 0x1_0000_0000_0000_0000 + i else i
  {
  }
}
