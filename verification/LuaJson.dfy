/** The conversion between Lua values and JSON of src/util/lua.c, on tables whose keys are either
    all strings or all positive integers. */
module LuaJson {
  import opened Options
  import opened Text
  import opened Json

  datatype Key = KInt(i: int) | KStr(s: string)

  /** `forced` is the metatable mark __json_type = "array"; LOther is a function, userdata, thread
      or the like.  Floats are finite. */
  datatype Lua =
    | LNil
    | LBool(b: bool)
    | LInt(i: int)
    | LFloat(r: real)
    | LStr(s: string)
    | LTable(forced: bool, entries: map<Key, Lua>)
    | LOther

  // ----- numbers: a JSON integer comes back as a double -----

  const TWO53 := 0x20_0000_0000_0000

  /** The distance of the doubles around n: the least power of two p with n <= 2^53 * p. */
  function Ulp(n: nat, p: nat): (u: nat)
    requires p > 0
    ensures u > 0 && n <= TWO53 * u
    ensures n <= TWO53 * p ==> u == p
    decreases n - TWO53 * p
  {
    if n <= TWO53 * p then p else Ulp(n, 2 * p)
  }

  function Magnitude(i: int): nat {
    if i < 0 then -i else i
  }

  /** Rounding a magnitude to the nearest double, to the even one when it lies in the middle. */
  function Rounded(n: nat): nat {
    var u := Ulp(n, 1);
    var q, rest := n / u, n % u;
    if 2 * rest < u || (2 * rest == u && q % 2 == 0) then q * u else (q + 1) * u
  }

  function ToDouble(i: int): real {
    if i < 0 then -(Rounded(-i) as real) else Rounded(i) as real
  }

  /** The integer is a double. */
  predicate Exact(i: int) {
    Magnitude(i) % Ulp(Magnitude(i), 1) == 0
  }

  lemma {:induction false} DoubleExactly(i: int)
    ensures ToDouble(i) == i as real <==> Exact(i)
    ensures -TWO53 <= i <= TWO53 ==> Exact(i)
  {
    var n := Magnitude(i);
    var u := Ulp(n, 1);
    assert n == n / u * u + n % u;
    assert (n / u + 1) * u == n / u * u + u;
  }

  // ----- equality -----

  /** Lua's ==, on tables by their contents. */
  predicate Same(v: Lua, w: Lua)
    decreases v
  {
    match (v, w)
    case (LNil, LNil) => true
    case (LBool(a), LBool(b)) => a == b
    case (LInt(a), LInt(b)) => a == b
    case (LInt(a), LFloat(b)) => a as real == b
    case (LFloat(a), LInt(b)) => a == b as real
    case (LFloat(a), LFloat(b)) => a == b
    case (LStr(a), LStr(b)) => a == b
    case (LTable(_, m), LTable(_, n)) => m.Keys == n.Keys && forall k | k in m.Keys :: Same(m[k], n[k])
    case _ => false
  }

  // ----- Lua to JSON -----

  /** Array indices fit a C int. */
  const MAX_KEY := 0x8000_0000

  predicate PositiveKeys(m: map<Key, Lua>) {
    forall k | k in m.Keys :: k.KInt? && 1 <= k.i <= MAX_KEY
  }

  predicate TextKeys(m: map<Key, Lua>) {
    forall k | k in m.Keys :: k.KStr? && '\0' !in k.s
  }

  /** Tables hold no nil, and have only positive integer keys or only text keys. */
  predicate Convertible(v: Lua) {
    match v
    case LTable(forced, m) =>
      && (PositiveKeys(m) || (TextKeys(m) && !forced))
      && forall k | k in m.Keys :: Convertible(m[k]) && m[k] != LNil
    case _ => true
  }

  /** Whether lua_to_json makes an array of the table. */
  predicate AsArray(forced: bool, m: map<Key, Lua>) {
    forced || (m != map[] && PositiveKeys(m))
  }

  /** The JSON a value is converted to.  Object members may come in any order, because lua_next
      visits the keys in any order; arrays do not depend on it. */
  ghost predicate Encodes(j: Json, v: Lua)
    decreases v, 1
  {
    match v
    case LNil => j == JNull
    case LBool(b) => j == JBool(b)
    case LInt(i) => j == JInt(i)
    case LFloat(r) => j == JDouble(r)
    case LStr(s) => j == JString(CString(s))
    case LOther => j == JNull
    case LTable(forced, m) =>
      if AsArray(forced, m) then j.JArray? && EncodesItems(j.items, v, m.Keys)
      else j.JObject? && EncodesMembers(j.members, v, m.Keys)
  }

  /** The items for some of the table's keys: as many as the largest of them, null where a key is
      missing. */
  ghost predicate EncodesItems(items: seq<Json>, v: Lua, keys: set<Key>)
    requires v.LTable? && keys <= v.entries.Keys
    decreases v, 0
  {
    && (forall k | k in keys && k.KInt? :: k.i <= |items|)
    && (items != [] ==> KInt(|items|) in keys)
    && forall i {:trigger items[i]} | 0 <= i < |items| ::
         if KInt(i + 1) in keys then Encodes(items[i], v.entries[KInt(i + 1)]) else items[i] == JNull
  }

  ghost predicate EncodesMembers(members: seq<Member>, v: Lua, keys: set<Key>)
    requires v.LTable? && keys <= v.entries.Keys
    decreases v, 0
  {
    && DistinctKeys(members)
    && (forall i | 0 <= i < |members| ::
          KStr(members[i].key) in keys && Encodes(members[i].value, v.entries[KStr(members[i].key)]))
    && forall k | k in keys && k.KStr? :: Get(members, k.s).Some?
  }

  /** lua_table_is_array, whatever the order in which lua_next visits the keys. */
  method TableIsArray(m: map<Key, Lua>) returns (arrayLike: bool, max: int)
    ensures arrayLike <==> (forall k | k in m.Keys :: k.KInt?) && exists k :: k in m.Keys && k.KInt? && k.i > 0
    ensures max >= 0 && (max > 0 ==> KInt(max) in m.Keys)
    ensures forall k | k in m.Keys && k.KInt? :: k.i <= max
  {
    max := 0;
    arrayLike := true;
    var rest := m.Keys;
    while rest != {}
      invariant rest <= m.Keys && max >= 0
      invariant arrayLike <==> forall k | k in m.Keys - rest :: k.KInt?
      invariant forall k | k in m.Keys - rest && k.KInt? :: k.i <= max
      invariant max > 0 ==> KInt(max) in m.Keys - rest
      decreases rest
    {
      var k :| k in rest;
      rest := rest - {k};
      if k.KInt? {
        if k.i > max {
          max := k.i;
        }
      } else {
        arrayLike := false;
      }
    }
    assert m.Keys - rest == m.Keys;
    arrayLike := arrayLike && max > 0;
  }

  /** Converting one more member. */
  lemma MembersPut(members: seq<Member>, v: Lua, keys: set<Key>, k: string, j: Json)
    requires v.LTable? && keys <= v.entries.Keys && EncodesMembers(members, v, keys)
    requires KStr(k) in v.entries.Keys && KStr(k) !in keys && Encodes(j, v.entries[KStr(k)])
    ensures EncodesMembers(Put(members, k, j), v, keys + {KStr(k)})
  {
    GetAbsent(members, k);
    PutNew(members, k, j);
  }

  /** Converting one more item, wherever it goes. */
  lemma ItemsPut(items: seq<Json>, v: Lua, keys: set<Key>, k: int, j: Json)
    requires v.LTable? && keys <= v.entries.Keys && EncodesItems(items, v, keys)
    requires k >= 1 && KInt(k) in v.entries.Keys && KInt(k) !in keys && Encodes(j, v.entries[KInt(k)])
    ensures EncodesItems(PutIdx(items, k - 1, j), v, keys + {KInt(k)})
  {
    hide Encodes;
    assert |items| != k;
  }

  lemma ArrayLike(forced: bool, m: map<Key, Lua>)
    requires Convertible(LTable(forced, m)) && !forced
    ensures AsArray(forced, m) <==> (forall k | k in m.Keys :: k.KInt?) && exists k :: k in m.Keys && k.KInt? && k.i > 0
  {
    if m != map[] {
      var k :| k in m.Keys;
      assert k.KInt? ==> k.i > 0;
    }
  }

  method LuaToJson(v: Lua) returns (j: Json)
    requires Convertible(v)
    ensures Encodes(j, v)
    decreases v, 1
  {
    match v {
      case LNil => j := JNull;
      case LBool(b) => j := JBool(b);
      case LInt(i) => j := JInt(i);
      case LFloat(r) => j := JDouble(r);
      case LStr(s) => j := JString(CString(s));
      case LOther => j := JNull;
      case LTable(forced, m) =>
        var isArray := forced;
        if !isArray {
          var arrayLike, max := TableIsArray(m);
          ArrayLike(forced, m);
          isArray := arrayLike;
        }
        if isArray {
          var items := TableToItems(v);
          j := JArray(items);
        } else {
          var members := TableToMembers(v);
          j := JObject(members);
        }
    }
  }

  method TableToItems(v: Lua) returns (items: seq<Json>)
    requires v.LTable? && Convertible(v) && AsArray(v.forced, v.entries)
    ensures EncodesItems(items, v, v.entries.Keys)
    decreases v, 0
  {
    items := [];
    var rest := v.entries.Keys;
    while rest != {}
      invariant rest <= v.entries.Keys
      invariant EncodesItems(items, v, v.entries.Keys - rest)
      decreases rest
    {
      var k :| k in rest;
      ghost var done := v.entries.Keys - rest;
      var child := LuaToJson(v.entries[k]);
      ItemsPut(items, v, done, k.i, child);
      rest := rest - {k};
      assert v.entries.Keys - rest == done + {k};
      items := PutIdx(items, k.i - 1, child);
    }
    assert v.entries.Keys - rest == v.entries.Keys;
  }

  method TableToMembers(v: Lua) returns (members: seq<Member>)
    requires v.LTable? && Convertible(v) && !AsArray(v.forced, v.entries)
    ensures EncodesMembers(members, v, v.entries.Keys)
    decreases v, 0
  {
    members := [];
    var rest := v.entries.Keys;
    while rest != {}
      invariant rest <= v.entries.Keys
      invariant EncodesMembers(members, v, v.entries.Keys - rest)
      decreases rest
    {
      var k :| k in rest;
      ghost var done := v.entries.Keys - rest;
      var child := LuaToJson(v.entries[k]);
      MembersPut(members, v, done, k.s, child);
      rest := rest - {k};
      assert v.entries.Keys - rest == done + {k};
      members := Put(members, k.s, child);
    }
    assert v.entries.Keys - rest == v.entries.Keys;
  }

  // ----- JSON to Lua -----

  function Decode(j: Json): Lua
    decreases j
  {
    match j
    case JNull => LNil
    case JBool(b) => LBool(b)
    case JInt(i) => LFloat(ToDouble(i))
    case JDouble(r) => LFloat(r)
    case JString(s) => LStr(CString(s))
    case JArray(items) => LTable(false, DecodeItems(items))
    case JObject(members) => LTable(false, DecodeMembers(members))
  }

  /** Setting a table field to nil takes it out. */
  function SetField(m: map<Key, Lua>, k: Key, v: Lua): map<Key, Lua> {
    if v == LNil then m - {k} else m[k := v]
  }

  function DecodeItems(items: seq<Json>): map<Key, Lua>
    decreases items
  {
    if items == [] then map[]
    else SetField(DecodeItems(items[..|items| - 1]), KInt(|items|), Decode(items[|items| - 1]))
  }

  function DecodeMembers(members: seq<Member>): map<Key, Lua>
    decreases members
  {
    if members == [] then map[]
    else
      var last := members[|members| - 1];
      SetField(DecodeMembers(members[..|members| - 1]), KStr(last.key), Decode(last.value))
  }

  method JsonToLua(j: Json) returns (v: Lua)
    ensures v == Decode(j)
    decreases j
  {
    match j {
      case JNull => v := LNil;
      case JBool(b) => v := LBool(b);
      case JInt(i) => v := LFloat(ToDouble(i));
      case JDouble(r) => v := LFloat(r);
      case JString(s) => v := LStr(CString(s));
      case JArray(items) =>
        var m: map<Key, Lua> := map[];
        for i := 0 to |items|
          invariant m == DecodeItems(items[..i])
        {
          var child := JsonToLua(items[i]);
          assert items[..i + 1][..i] == items[..i];
          m := SetField(m, KInt(i + 1), child);
        }
        assert items[..|items|] == items;
        v := LTable(false, m);
      case JObject(members) =>
        var m: map<Key, Lua> := map[];
        for i := 0 to |members|
          invariant m == DecodeMembers(members[..i])
        {
          var child := JsonToLua(members[i].value);
          assert members[..i + 1][..i] == members[..i];
          m := SetField(m, KStr(members[i].key), child);
        }
        assert members[..|members|] == members;
        v := LTable(false, m);
    }
  }

  // ----- the round trip -----

  /** What survives: text without NUL, integers that are doubles, and nothing that is not data. */
  predicate Survives(v: Lua) {
    match v
    case LStr(s) => '\0' !in s
    case LInt(i) => Exact(i)
    case LOther => false
    case LTable(_, m) => forall k | k in m.Keys :: Survives(m[k])
    case _ => true
  }

  lemma {:induction false} DecodedItems(items: seq<Json>, k: Key)
    ensures k in DecodeItems(items) <==> k.KInt? && 1 <= k.i <= |items| && Decode(items[k.i - 1]) != LNil
    ensures k in DecodeItems(items) ==> DecodeItems(items)[k] == Decode(items[k.i - 1])
    decreases items
  {
    if items != [] {
      DecodedItems(items[..|items| - 1], k);
    }
  }

  lemma {:induction false} DecodedMembers(members: seq<Member>, k: Key)
    requires DistinctKeys(members)
    ensures k in DecodeMembers(members)
        <==> k.KStr? && Get(members, k.s).Some? && Decode(Get(members, k.s).value) != LNil
    ensures k in DecodeMembers(members) ==> DecodeMembers(members)[k] == Decode(Get(members, k.s).value)
    decreases members
  {
    if members != [] {
      var front, last := members[..|members| - 1], members[|members| - 1];
      LastMember(members);
      assert DecodeMembers(members) == SetField(DecodeMembers(front), KStr(last.key), Decode(last.value));
      hide DecodeMembers, Decode, Get, DistinctKeys;
      DecodedMembers(front, k);
    }
  }

  /** The last member is new to those before it, and the others are where they were. */
  lemma LastMember(members: seq<Member>)
    requires members != [] && DistinctKeys(members)
    ensures var front, last := members[..|members| - 1], members[|members| - 1];
      && DistinctKeys(front)
      && Get(front, last.key) == None
      && Get(members, last.key) == Some(last.value)
      && forall key | key != last.key :: Get(members, key) == Get(front, key)
  {
    var front, last := members[..|members| - 1], members[|members| - 1];
    GetAbsent(front, last.key);
    PutNew(front, last.key, last.value);
    assert members == Put(front, last.key, last.value);
  }

  /** Only nil and what is not data come back as nil. */
  lemma DecodesToNil(j: Json, v: Lua)
    requires Encodes(j, v)
    ensures Decode(j) == LNil <==> v == LNil || v == LOther
  {
  }

  /** Tables with the same fields, each of which survives or not. */
  lemma SameTables(v: Lua, n: map<Key, Lua>)
    requires v.LTable? && n.Keys <= v.entries.Keys
    requires forall k | k in v.entries.Keys :: (k in n && Same(v.entries[k], n[k])) <==> Survives(v.entries[k])
    ensures Same(v, LTable(false, n)) <==> Survives(v)
  {
    var m := v.entries;
    if Survives(v) {
      assert forall k | k in m.Keys :: k in n && Same(m[k], n[k]);
      assert m.Keys == n.Keys;
    }
    if Same(v, LTable(false, n)) {
      assert forall k | k in m.Keys :: k in n && Same(m[k], n[k]);
    }
  }

  /** Converting a value to JSON and back gives an equal value exactly when everything in it
      survives, for whatever JSON the conversion has produced. */
  lemma {:induction false} RoundTrip(j: Json, v: Lua)
    requires Convertible(v) && Encodes(j, v)
    ensures Same(v, Decode(j)) <==> Survives(v)
    decreases v, 1
  {
    match v {
      case LInt(i) => DoubleExactly(i);
      case LTable(forced, m) =>
        if AsArray(forced, m) {
          RoundTripItems(j.items, v);
        } else {
          RoundTripMembers(j.members, v);
        }
      case LStr(s) =>
        assert '\0' !in s ==> CString(s) == s;
        assert CString(CString(s)) == CString(s);
      case _ =>
    }
  }

  lemma HoleStaysHole(items: seq<Json>, v: Lua, k: Key)
    requires v.LTable? && EncodesItems(items, v, v.entries.Keys) && k !in v.entries.Keys
    ensures k !in DecodeItems(items)
  {
    DecodedItems(items, k);
    if k.KInt? && 1 <= k.i <= |items| {
      assert KInt(k.i - 1 + 1) == k;
      assert items[k.i - 1] == JNull;
    }
  }

  lemma {:induction false} RoundTripItems(items: seq<Json>, v: Lua)
    requires v.LTable? && Convertible(v) && AsArray(v.forced, v.entries) && EncodesItems(items, v, v.entries.Keys)
    ensures Same(v, LTable(false, DecodeItems(items))) <==> Survives(v)
    decreases v, 0
  {
    var m, n := v.entries, DecodeItems(items);
    forall k | k !in m.Keys ensures k !in n.Keys {
      HoleStaysHole(items, v, k);
    }
    assert n.Keys <= m.Keys;
    forall k | k in m.Keys ensures (k in n && Same(m[k], n[k])) <==> Survives(m[k]) {
      DecodedItems(items, k);
      assert KInt(k.i - 1 + 1) == k;
      DecodesToNil(items[k.i - 1], m[k]);
      RoundTrip(items[k.i - 1], m[k]);
    }
    SameTables(v, n);
  }

  lemma {:induction false} RoundTripMembers(members: seq<Member>, v: Lua)
    requires v.LTable? && Convertible(v) && !AsArray(v.forced, v.entries)
    requires EncodesMembers(members, v, v.entries.Keys)
    ensures Same(v, LTable(false, DecodeMembers(members))) <==> Survives(v)
    decreases v, 0
  {
    var m, n := v.entries, DecodeMembers(members);
    forall k | k in n.Keys ensures k in m.Keys {
      DecodedMembers(members, k);
      var i := MemberOf(members, k.s);
      assert KStr(members[i].key) == k;
    }
    forall k | k in m.Keys ensures (k in n && Same(m[k], n[k])) <==> Survives(m[k]) {
      DecodedMembers(members, k);
      var i := MemberOf(members, k.s);
      assert KStr(members[i].key) == k;
      DecodesToNil(members[i].value, m[k]);
      RoundTrip(members[i].value, m[k]);
    }
    SameTables(v, n);
  }

  /** The first positive integer that does not survive, 2^53 + 1, comes back as 2^53. */
  lemma InexactInteger()
    ensures Decode(JInt(TWO53 + 1)) == LFloat(TWO53 as real)
    ensures !Same(LInt(TWO53 + 1), Decode(JInt(TWO53 + 1)))
  {
    assert Ulp(TWO53 + 1, 1) == Ulp(TWO53 + 1, 2) == 2;
    assert (TWO53 + 1) / 2 == 0x10_0000_0000_0000 && (TWO53 + 1) % 2 == 1;
    assert Rounded(TWO53 + 1) == TWO53;
  }

  // ----- independence of the order in which lua_next visits the keys -----

  /** Equal up to the order of object members. */
  predicate SameJson(a: Json, b: Json)
    decreases a
  {
    match (a, b)
    case (JArray(x), JArray(y)) => |x| == |y| && forall i | 0 <= i < |x| :: SameJson(x[i], y[i])
    case (JObject(x), JObject(y)) =>
      && (forall i | 0 <= i < |x| :: Get(y, x[i].key).Some? && SameJson(x[i].value, Get(y, x[i].key).value))
      && (forall i | 0 <= i < |y| :: Get(x, y[i].key).Some?)
    case (_, _) => a == b
  }

  /** Whatever order the keys are visited in, the JSON is the same up to the order of members; the
      order of array items does not depend on it. */
  lemma {:induction false} OrderDoesNotMatter(a: Json, b: Json, v: Lua)
    requires Encodes(a, v) && Encodes(b, v)
    ensures SameJson(a, b)
    decreases v
  {
    if v.LTable? {
      if AsArray(v.forced, v.entries) {
        var n := |a.items|;
        assert n == |b.items| by {
          assert n > 0 ==> KInt(n) in v.entries.Keys;
          assert |b.items| > 0 ==> KInt(|b.items|) in v.entries.Keys;
        }
        forall i | 0 <= i < n ensures SameJson(a.items[i], b.items[i]) {
          if KInt(i + 1) in v.entries.Keys {
            OrderDoesNotMatter(a.items[i], b.items[i], v.entries[KInt(i + 1)]);
          }
        }
      } else {
        var x, y := a.members, b.members;
        forall i | 0 <= i < |x|
          ensures Get(y, x[i].key).Some? && SameJson(x[i].value, Get(y, x[i].key).value)
        {
          var k := KStr(x[i].key);
          assert k in v.entries.Keys;
          var j := MemberOf(y, k.s);
          assert KStr(y[j].key) == k;
          OrderDoesNotMatter(x[i].value, y[j].value, v.entries[k]);
        }
        forall i | 0 <= i < |y| ensures Get(x, y[i].key).Some? {
          assert KStr(y[i].key) in v.entries.Keys;
        }
      }
    }
  }

  // ----- what both directions make of each kind of value -----

  /** The JSON of what is no table. */
  lemma ScalarJson(j: Json, b: bool, i: int, r: real, s: string)
    ensures Encodes(j, LNil) <==> j == JNull
    ensures Encodes(j, LBool(b)) <==> j == JBool(b)
    ensures Encodes(j, LInt(i)) <==> j == JInt(i)
    ensures Encodes(j, LFloat(r)) <==> j == JDouble(r)
    ensures '\0' !in s ==> (Encodes(j, LStr(s)) <==> j == JString(s))
    ensures Encodes(j, LOther) <==> j == JNull
  {
    SpanIs(s, '\0', if '\0' in s then Span(s, '\0') else |s|);
  }

  /** A table with positive integer keys, or one that is marked, becomes an array up to its largest key: the value
      of key i at place i - 1, null where there is none. */
  lemma ArrayJson(j: Json, forced: bool, m: map<Key, Lua>)
    requires (forall k | k in m.Keys :: k.KInt? && 1 <= k.i <= MAX_KEY) && (forced || m != map[])
    requires Encodes(j, LTable(forced, m))
    ensures j.JArray? && (m == map[] ==> j.items == [])
    ensures m != map[] ==> KInt(|j.items|) in m
    ensures forall k | k in m.Keys :: 0 <= k.i - 1 < |j.items| && Encodes(j.items[k.i - 1], m[k])
    ensures forall i | 0 <= i < |j.items| :: KInt(i + 1) in m || j.items[i] == JNull
  {
    var v := LTable(forced, m);
    assert EncodesItems(j.items, v, m.Keys);
    forall k | k in m.Keys ensures 0 <= k.i - 1 < |j.items| && Encodes(j.items[k.i - 1], m[k]) {
      assert k.i <= |j.items|;
      assert k == KInt(k.i - 1 + 1);
    }
  }

  /** Any other table becomes an object with a member for every key. */
  lemma ObjectJson(j: Json, m: map<Key, Lua>, key: string)
    requires forall k | k in m.Keys :: k.KStr? && '\0' !in k.s
    requires Encodes(j, LTable(false, m))
    ensures j.JObject? && DistinctKeys(j.members)
    ensures Get(j.members, key).Some? <==> KStr(key) in m
    ensures KStr(key) in m ==> Encodes(Get(j.members, key).value, m[KStr(key)])
  {
    var v := LTable(false, m);
    if m != map[] {
      var k :| k in m.Keys;
      assert !PositiveKeys(m);
    }
    assert EncodesMembers(j.members, v, m.Keys);
    if Get(j.members, key).Some? {
      var i := MemberOf(j.members, key);
      assert KStr(j.members[i].key) in m.Keys;
    }
  }

  /** The value of each kind of JSON. */
  lemma ScalarValue(b: bool, i: int, r: real, s: string)
    ensures Decode(JNull) == LNil && Decode(JBool(b)) == LBool(b) && Decode(JDouble(r)) == LFloat(r)
    ensures '\0' !in s ==> Decode(JString(s)) == LStr(s)
    ensures -TWO53 <= i <= TWO53 ==> Decode(JInt(i)) == LFloat(i as real)
  {
    DoubleExactly(i);
    SpanIs(s, '\0', if '\0' in s then Span(s, '\0') else |s|);
  }

  /** An array becomes a table with the item at place i under the key i + 1, unless it is null. */
  lemma ArrayValue(items: seq<Json>, i: nat)
    requires i < |items|
    ensures var v := Decode(JArray(items));
      && v.LTable? && !v.forced
      && (KInt(i + 1) in v.entries <==> Decode(items[i]) != LNil)
      && (KInt(i + 1) in v.entries ==> v.entries[KInt(i + 1)] == Decode(items[i]))
      && forall k | k in v.entries.Keys :: k.KInt? && 1 <= k.i <= |items|
  {
    DecodedItems(items, KInt(i + 1));
    forall k | k in DecodeItems(items).Keys ensures k.KInt? && 1 <= k.i <= |items| {
      DecodedItems(items, k);
    }
  }

  /** An object becomes a table with its members under their names. */
  lemma ObjectValue(members: seq<Member>, key: string)
    requires DistinctKeys(members)
    ensures var v := Decode(JObject(members));
      && v.LTable? && !v.forced
      && (KStr(key) in v.entries <==> Get(members, key).Some? && Decode(Get(members, key).value) != LNil)
      && (KStr(key) in v.entries ==> v.entries[KStr(key)] == Decode(Get(members, key).value))
      && forall k | k in v.entries.Keys :: k.KStr?
  {
    DecodedMembers(members, KStr(key));
    forall k | k in DecodeMembers(members).Keys ensures k.KStr? {
      DecodedMembers(members, k);
    }
  }

  /** What can be converted: everything that is no table, and tables of what can be converted. */
  lemma ConvertibleIs(v: Lua, forced: bool, m: map<Key, Lua>)
    ensures !v.LTable? ==> Convertible(v)
    ensures (forall k | k in m.Keys :: Convertible(m[k]) && m[k] != LNil) ==>
      && ((forall k | k in m.Keys :: k.KInt? && 1 <= k.i <= 0x8000_0000) ==> Convertible(LTable(forced, m)))
      && ((forall k | k in m.Keys :: k.KStr? && '\0' !in k.s) ==> Convertible(LTable(false, m)))
  {
  }

  /** Equality of numbers does not depend on how they are kept. */
  lemma SameNumbers(a: int, b: int, r: real)
    ensures Same(LInt(a), LInt(b)) <==> a == b
    ensures Same(LInt(a), LFloat(r)) <==> Same(LFloat(r), LInt(a))
    ensures Same(LInt(a), LFloat(b as real)) <==> a == b
    ensures Same(LFloat(a as real), LFloat(b as real)) <==> a == b
  {
  }

  /** Equal arrays are equal item by item, and equal objects name by name. */
  lemma SameParts(x: seq<Json>, y: seq<Json>, i: nat, p: seq<Member>, q: seq<Member>, key: string)
    requires DistinctKeys(p) && DistinctKeys(q)
    ensures SameJson(JArray(x), JArray(y)) ==> |x| == |y| && (i < |x| ==> SameJson(x[i], y[i]))
    ensures SameJson(JObject(p), JObject(q)) ==>
      && (Get(p, key).Some? <==> Get(q, key).Some?)
      && (Get(p, key).Some? ==> SameJson(Get(p, key).value, Get(q, key).value))
  {
    if Get(p, key).Some? {
      var j := MemberOf(p, key);
    }
    if Get(q, key).Some? {
      var j := MemberOf(q, key);
    }
  }

  // ----- which double an integer becomes -----

  /** The spacing is the least power of two with which the integer has no more than 53 bits. */
  lemma {:induction false} UlpIs(n: nat, p: nat)
    requires p > 0
    ensures Ulp(n, p) == p || TWO53 * Ulp(n, p) < 2 * n
    decreases n - TWO53 * p
  {
    if n > TWO53 * p {
      UlpIs(n, 2 * p);
    }
  }

  lemma {:induction false} UlpDoubles(n: nat, p: nat)
    requires p > 0 && n > TWO53 * p
    ensures Ulp(n, p) == Ulp(n, 2 * p)
  {
  }

  lemma {:induction false} LessByOne(a: nat, b: nat, u: nat)
    requires a < b
    ensures a * u + u <= b * u
    decreases b
  {
    assert b * u == (b - 1) * u + u;
    if a < b - 1 {
      LessByOne(a, b - 1, u);
    }
  }

  lemma Multiple(q: nat, u: nat)
    requires u > 0
    ensures q * u % u == 0 && q * u / u == q
  {
    var n := q * u;
    var d := n / u;
    assert n == d * u + n % u;
    if q > d {
      LessByOne(d, q, u);
    } else if q < d {
      LessByOne(q, d, u);
    }
  }

  lemma RoundedUp(n: nat) returns (k: nat)
    ensures var u := Ulp(n, 1);
      && Rounded(n) == k * u
      && 0 <= u + 2 * (k * u - n) <= 2 * u
      && (u == 2 * (k * u - n) || u == 2 * (n - k * u) ==> k % 2 == 0)
  {
    var u := Ulp(n, 1);
    var q, rest := n / u, n % u;
    assert n == q * u + rest;
    assert (q + 1) * u == q * u + u;
    k := if 2 * rest < u || (2 * rest == u && q % 2 == 0) then q else q + 1;
  }

  /** It is the nearest multiple of the spacing, and of two that are equally near the even one. */
  lemma RoundsToNearest(n: nat)
    ensures var u := Ulp(n, 1);
      && Rounded(n) % u == 0
      && 0 <= u + 2 * (Rounded(n) - n) <= 2 * u
      && (u == 2 * (Rounded(n) - n) || u == 2 * (n - Rounded(n)) ==> Rounded(n) / u % 2 == 0)
    ensures ToDouble(n) == Rounded(n) as real && ToDouble(-(n as int)) == -(Rounded(n) as real)
  {
    var k := RoundedUp(n);
    Multiple(k, Ulp(n, 1));
    NoneToRound();
    hide Rounded, Ulp;
  }

  lemma NoneToRound()
    ensures Rounded(0) == 0
  {
  }
}
