/** The converters of src/ltf_state.c as they run: each array is filled by a loop of appends, and the
    converters of keywords call each other for the children. */
module StateConverters {
  import opened Options
  import opened Json
  import opened Keywords
  import opened RunState
  import opened StateJson
  import opened LogMembers

  /** The calls that add one member after the other. */
  method BuildObject(fields: seq<Field>) returns (j: Json)
    ensures j == JObject(Build(fields))
  {
    var members: seq<Member> := [];
    for i := 0 to |fields|
      invariant members == Build(fields[..i])
    {
      assert fields[..i + 1][..i] == fields[..i];
      if fields[i].value.Some? {
        members := Put(members, fields[i].key, fields[i].value.value);
      }
    }
    assert fields[..|fields|] == fields;
    j := JObject(members);
  }

  method TextsToArray(texts: seq<string>) returns (items: seq<Json>)
    ensures items == TextsToJson(texts)
  {
    items := [];
    for i := 0 to |texts|
      invariant items == TextsToJson(texts[..i])
    {
      items := items + [JString(texts[i])];
    }
    assert texts[..|texts|] == texts;
  }

  method ArrayToTexts(items: seq<Json>) returns (texts: seq<string>)
    ensures texts == TextsFromJson(items)
  {
    texts := [];
    for i := 0 to |items|
      invariant texts == TextsFromJson(items[..i])
    {
      texts := texts + [if items[i].JString? then items[i].s else ""];
    }
    assert items[..|items|] == items;
  }

  method OutputsToArray(outputs: seq<Output>) returns (items: seq<Json>)
    ensures items == OutputsToJson(outputs)
  {
    items := [];
    for i := 0 to |outputs|
      invariant items == OutputsToJson(outputs[..i])
    {
      var item := BuildObject(OutputFields(outputs[i]));
      items := items + [item];
    }
    assert outputs[..|outputs|] == outputs;
  }

  method ArrayToOutputs(items: seq<Json>) returns (outputs: seq<Output>)
    ensures outputs == OutputsFromJson(items)
  {
    outputs := [];
    for i := 0 to |items|
      invariant outputs == OutputsFromJson(items[..i])
    {
      outputs := outputs + [OutputFromJson(items[i])];
    }
    assert items[..|items|] == items;
  }

  lemma {:induction false} KeywordsJsonPush(ks: seq<Keyword>, k: Keyword)
    ensures KeywordsToJson(ks + [k]) == KeywordsToJson(ks) + [KeywordToJson(k)]
  {
    if ks == [] {
      assert ks + [k] == [k];
    } else {
      assert (ks + [k])[1..] == ks[1..] + [k];
      KeywordsJsonPush(ks[1..], k);
    }
  }

  method KeywordToObject(k: Keyword) returns (j: Json)
    ensures j == KeywordToJson(k)
    decreases k
  {
    var children := KeywordsToArray(k.children);
    j := BuildObject([Field("name", Text(k.name)), Field("started", Text(k.started)),
                      Field("finished", Text(k.finished)), Field("file", Text(k.file)),
                      Field("line", Some(JInt(k.line))), Field("children", Some(JArray(children)))]);
  }

  method KeywordsToArray(ks: seq<Keyword>) returns (items: seq<Json>)
    ensures items == KeywordsToJson(ks)
    decreases ks
  {
    items := [];
    for i := 0 to |ks|
      invariant items == KeywordsToJson(ks[..i])
    {
      var item := KeywordToObject(ks[i]);
      KeywordsJsonPush(ks[..i], ks[i]);
      assert ks[..i + 1] == ks[..i] + [ks[i]];
      items := items + [item];
    }
    assert ks[..|ks|] == ks;
  }

  lemma {:induction false} KeywordsFromPush(items: seq<Json>, item: Json)
    ensures KeywordsFromJson(items + [item]) == KeywordsFromJson(items) + [KeywordFromJson(item)]
  {
    if items == [] {
      assert items + [item] == [item];
    } else {
      assert (items + [item])[1..] == items[1..] + [item];
      KeywordsFromPush(items[1..], item);
    }
  }

  method ObjectToKeyword(j: Json) returns (k: Keyword)
    ensures k == KeywordFromJson(j)
    decreases j
  {
    var m := MembersOf(j);
    var items, children := GetItems(m, "children"), [];
    if items != [] {
      GetSmaller(j, "children");
      children := ArrayToKeywords(items);
    }
    k := Keyword(GetText(m, "name"), GetText(m, "file"), GetInt(m, "line"), GetText(m, "started"),
                 GetText(m, "finished"), children);
  }

  method ArrayToKeywords(items: seq<Json>) returns (ks: seq<Keyword>)
    ensures ks == KeywordsFromJson(items)
    decreases items
  {
    ks := [];
    for i := 0 to |items|
      invariant ks == KeywordsFromJson(items[..i])
    {
      var k := ObjectToKeyword(items[i]);
      KeywordsFromPush(items[..i], items[i]);
      assert items[..i + 1] == items[..i] + [items[i]];
      ks := ks + [k];
    }
    assert items[..|items|] == items;
  }

  method TestToObject(t: TestRecord) returns (j: Json)
    ensures j == TestToJson(t)
  {
    var tags := TextsToArray(t.tags);
    var reasons := OutputsToArray(t.failureReasons);
    var outputs := OutputsToArray(t.outputs);
    var teardownOutputs := OutputsToArray(t.teardownOutputs);
    var teardownErrors := OutputsToArray(t.teardownErrors);
    var keywords := KeywordsToArray(t.keywords);
    j := BuildObject([Field("name", Text(t.name)), Field("description", Text(t.description)),
                      Field("started", Text(t.started)), Field("finished", Text(t.finished)),
                      Field("teardown_start", Text(t.teardownStart)), Field("status", Text(t.statusStr)),
                      Field("tags", Some(JArray(tags))), Field("failure_reasons", Some(JArray(reasons))),
                      Field("output", Some(JArray(outputs))), Field("teardown_output", Some(JArray(teardownOutputs))),
                      Field("teardown_errors", Some(JArray(teardownErrors))),
                      Field("keywords", Some(JArray(keywords)))]);
  }

  method ObjectToTest(j: Json) returns (t: TestRecord)
    ensures t == TestFromJson(j)
  {
    var m := MembersOf(j);
    var tags := ArrayToTexts(GetItems(m, "tags"));
    var reasons := ArrayToOutputs(GetItems(m, "failure_reasons"));
    var outputs := ArrayToOutputs(GetItems(m, "output"));
    var teardownOutputs := ArrayToOutputs(GetItems(m, "teardown_output"));
    var teardownErrors := ArrayToOutputs(GetItems(m, "teardown_errors"));
    var keywords := ArrayToKeywords(GetItems(m, "keywords"));
    t := TestRecord(GetText(m, "name"), GetText(m, "description"), GetText(m, "started"), GetText(m, "finished"),
                    GetText(m, "teardown_start"), None, RUNNING, GetText(m, "status"),
                    tags, reasons, outputs, teardownOutputs, teardownErrors, keywords);
  }

  /** ltf_state_to_json */
  method WriteLog(log: RunLog) returns (j: Json)
    ensures j == LogToJson(log) && SaysLog(j, log)
  {
    LogSays(log);
    hide SaysLog;
    var vars := BuildObject(VarFields(log.vars));
    var tags := TextsToArray(log.tags);
    var tests: seq<Json> := [];
    for i := 0 to |log.tests|
      invariant tests == TestsToJson(log.tests[..i])
    {
      var test := TestToObject(log.tests[i]);
      tests := tests + [test];
    }
    assert log.tests[..|log.tests|] == log.tests;
    j := BuildObject([Field("project_name", Text(log.projectName)), Field("ltf_version", Text(log.ltfVersion)),
                      Field("os", Text(log.os)), Field("os_version", Text(log.osVersion)),
                      Field("started", Text(log.started)), Field("finished", Text(log.finished)),
                      Field("target", Text(log.target)), Field("variables", Some(vars)),
                      Field("tags", Some(JArray(tags))), Field("tests", Some(JArray(tests))),
                      Field("total_amount", Some(JInt(CountToInt(log.totalAmount)))),
                      Field("passed_amount", Some(JInt(CountToInt(log.passedAmount)))),
                      Field("failed_amount", Some(JInt(CountToInt(log.failedAmount)))),
                      Field("finished_amount", Some(JInt(CountToInt(log.finishedAmount))))]);
  }

  /** ltf_state_from_json; only an object is a log. */
  method ReadLog(j: Json) returns (log: Option<RunLog>)
    ensures log == if j.JObject? then Some(LogFromJson(j)) else None
  {
    if !j.JObject? {
      return None;
    }
    var m := j.members;
    var tags := ArrayToTexts(GetItems(m, "tags"));
    var items := GetItems(m, "tests");
    var tests: seq<TestRecord> := [];
    for i := 0 to |items|
      invariant tests == TestsFromJson(items[..i])
    {
      var test := ObjectToTest(items[i]);
      tests := tests + [test];
    }
    assert items[..|items|] == items;
    var vars := match Get(m, "variables") case Some(JObject(vs)) => vs case _ => [];
    log := Some(RunLog(GetText(m, "project_name"), GetText(m, "ltf_version"), GetText(m, "os"),
                       GetText(m, "os_version"), GetText(m, "started"), GetText(m, "finished"), GetText(m, "target"),
                       |tests|, IntToCount(GetInt(m, "passed_amount")), IntToCount(GetInt(m, "failed_amount")),
                       IntToCount(GetInt(m, "finished_amount")), VarsFromJson(vars), tags, tests));
  }
}
