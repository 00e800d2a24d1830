/** json-c's object model: an object keeps its members in the order they were first added, and
    adding a key again replaces the value where it is. */
module Json {
  import opened Options

  datatype Json =
    | JNull
    | JBool(b: bool)
    | JInt(i: int)
    | JDouble(r: real)
    | JString(s: string)
    | JArray(items: seq<Json>)
    | JObject(members: seq<Member>)

  datatype Member = Member(key: string, value: Json)

  /** json_object_object_get_ex */
  function Get(members: seq<Member>, key: string): Option<Json> {
    if members == [] then None
    else if members[0].key == key then Some(members[0].value)
    else Get(members[1..], key)
  }

  /** json_object_object_add */
  function Put(members: seq<Member>, key: string, value: Json): (r: seq<Member>)
    ensures Get(r, key) == Some(value)
    ensures forall k | k != key :: Get(r, k) == Get(members, k)
  {
    if members == [] then [Member(key, value)]
    else if members[0].key == key then
      var r := [Member(key, value)] + members[1..];
      assert r[1..] == members[1..];
      r
    else
      var rest := Put(members[1..], key, value);
      var r := [members[0]] + rest;
      assert r[1..] == rest;
      r
  }

  /** json_object_array_put_idx: positions before a new last one hold null. */
  function PutIdx(items: seq<Json>, index: nat, value: Json): (r: seq<Json>)
    ensures |r| == if index < |items| then |items| else index + 1
    ensures forall i | 0 <= i < |r| ::
      r[i] == if i == index then value else if i < |items| then items[i] else JNull
  {
    if index < |items| then items[index := value]
    else items + seq(index - |items|, _ => JNull) + [value]
  }

  predicate DistinctKeys(members: seq<Member>) {
    forall i, j | 0 <= i < j < |members| :: members[i].key != members[j].key
  }

  lemma {:induction false} GetAbsent(members: seq<Member>, key: string)
    ensures Get(members, key) == None <==> forall i | 0 <= i < |members| :: members[i].key != key
  {
    if members != [] {
      GetAbsent(members[1..], key);
      assert forall i | 0 <= i < |members| - 1 :: members[1..][i] == members[i + 1];
      if members[0].key != key && (exists i | 0 <= i < |members| :: members[i].key == key) {
        var i :| 0 <= i < |members| && members[i].key == key;
        assert members[1..][i - 1].key == key;
      }
    }
  }

  /** Adding a new key puts it at the end. */
  lemma {:induction false} PutNew(members: seq<Member>, key: string, value: Json)
    requires Get(members, key) == None
    ensures Put(members, key, value) == members + [Member(key, value)]
  {
    if members != [] {
      PutNew(members[1..], key, value);
    }
  }

  /** The member a key reads. */
  lemma {:induction false} MemberOf(members: seq<Member>, key: string) returns (i: nat)
    requires Get(members, key).Some?
    ensures i < |members| && members[i].key == key && members[i].value == Get(members, key).value
  {
    if members[0].key == key {
      i := 0;
    } else {
      i := MemberOf(members[1..], key);
      i := i + 1;
    }
  }
}
