/** Key/value pairs in a growable list, as the program keeps variables, secrets and tests: looked up
    by a scan from the front, updated in place or appended. */
module Pairs {
  import opened Options

  datatype Pair<V> = Pair(key: string, value: V)

  function KeysOf<V>(pairs: seq<Pair<V>>): (keys: seq<string>)
    ensures |keys| == |pairs|
  {
    seq(|pairs|, i requires 0 <= i < |pairs| => pairs[i].key)
  }

  lemma KeysOfEnds<V>(pairs: seq<Pair<V>>, p: Pair<V>)
    ensures KeysOf(pairs + [p]) == KeysOf(pairs) + [p.key]
    ensures pairs != [] ==> KeysOf(pairs) == [pairs[0].key] + KeysOf(pairs[1..])
  {
  }

  predicate Distinct(keys: seq<string>) {
    forall i, j | 0 <= i < j < |keys| :: keys[i] != keys[j]
  }

  /** The value of the first pair with the key. */
  function Lookup<V>(pairs: seq<Pair<V>>, key: string): Option<V> {
    if pairs == [] then None
    else if pairs[0].key == key then Some(pairs[0].value)
    else Lookup(pairs[1..], key)
  }

  /** The first pair with the key gets the value, or a new pair is appended. */
  function Upsert<V>(pairs: seq<Pair<V>>, p: Pair<V>): seq<Pair<V>> {
    if pairs == [] then [p]
    else if pairs[0].key == p.key then [p] + pairs[1..]
    else [pairs[0]] + Upsert(pairs[1..], p)
  }

  /** The scan for the key: so far it has not come, so the update is further on. */
  lemma UpsertStep<V>(pairs: seq<Pair<V>>, p: Pair<V>, i: nat)
    requires i < |pairs| && Upsert(pairs, p) == pairs[..i] + Upsert(pairs[i..], p)
    ensures if pairs[i].key == p.key then Upsert(pairs, p) == pairs[i := p]
            else Upsert(pairs, p) == pairs[..i + 1] + Upsert(pairs[i + 1..], p)
  {
    UpsertFirst(pairs[i..], p);
    hide Upsert;
    var rest := pairs[i + 1..];
    assert pairs[i..][1..] == rest;
    Around(pairs, i, p, Upsert(rest, p));
  }

  lemma UpsertFirst<V>(pairs: seq<Pair<V>>, p: Pair<V>)
    requires pairs != []
    ensures Upsert(pairs, p) == if pairs[0].key == p.key then [p] + pairs[1..] else [pairs[0]] + Upsert(pairs[1..], p)
  {
  }

  lemma Around<T>(s: seq<T>, i: nat, x: T, rest: seq<T>)
    requires i < |s|
    ensures s[..i] + ([x] + s[i + 1..]) == s[i := x]
    ensures s[..i] + ([s[i]] + rest) == s[..i + 1] + rest
  {
  }

  function UpsertAll<V>(pairs: seq<Pair<V>>, more: seq<Pair<V>>): seq<Pair<V>>
    decreases more
  {
    if more == [] then pairs else UpsertAll(Upsert(pairs, more[0]), more[1..])
  }

  /** The pair is appended unless its key is there already. */
  function AddMissing<V>(pairs: seq<Pair<V>>, p: Pair<V>): seq<Pair<V>> {
    if p.key in KeysOf(pairs) then pairs else pairs + [p]
  }

  function AddAllMissing<V>(pairs: seq<Pair<V>>, more: seq<Pair<V>>): seq<Pair<V>>
    decreases more
  {
    if more == [] then pairs else AddAllMissing(AddMissing(pairs, more[0]), more[1..])
  }

  /** The keys in the order of their first occurrence. */
  function Firsts(keys: seq<string>): seq<string> {
    if keys == [] then []
    else
      var before, last := Firsts(keys[..|keys| - 1]), keys[|keys| - 1];
      if last in before then before else before + [last]
  }

  /** The value of the last pair with the key. */
  function LastOf<V>(pairs: seq<Pair<V>>, key: string): Option<V> {
    if pairs == [] then None
    else
      var last := pairs[|pairs| - 1];
      if last.key == key then Some(last.value) else LastOf(pairs[..|pairs| - 1], key)
  }

  lemma {:induction false} LookupKnown<V>(pairs: seq<Pair<V>>, key: string)
    ensures Lookup(pairs, key).Some? <==> key in KeysOf(pairs)
  {
    if pairs != [] {
      LookupKnown(pairs[1..], key);
      assert KeysOf(pairs) == [pairs[0].key] + KeysOf(pairs[1..]);
    }
  }

  lemma {:induction false} LookupPush<V>(pairs: seq<Pair<V>>, p: Pair<V>, key: string)
    ensures Lookup(pairs + [p], key)
         == if Lookup(pairs, key).Some? then Lookup(pairs, key) else if p.key == key then Some(p.value) else None
  {
    if pairs == [] {
      assert pairs + [p] == [p];
    } else {
      assert (pairs + [p])[1..] == pairs[1..] + [p];
      LookupPush(pairs[1..], p, key);
    }
  }

  lemma KeysOfCons<V>(x: Pair<V>, rest: seq<Pair<V>>)
    ensures KeysOf([x] + rest) == [x.key] + KeysOf(rest)
  {
  }

  lemma {:induction false} UpsertKeys<V>(pairs: seq<Pair<V>>, p: Pair<V>)
    ensures KeysOf(Upsert(pairs, p)) == if p.key in KeysOf(pairs) then KeysOf(pairs) else KeysOf(pairs) + [p.key]
  {
    if pairs == [] {
      assert KeysOf([p]) == [p.key];
    } else {
      var first, rest := pairs[0], pairs[1..];
      UpsertFirst(pairs, p);
      UpsertKeys(rest, p);
      hide Upsert, KeysOf;
      assert pairs == [first] + rest;
      KeysOfCons(first, rest);
      KeysOfCons(p, rest);
      KeysOfCons(first, Upsert(rest, p));
    }
  }

  /** An update changes what its own key maps to and nothing else, and keeps the keys, a new one
      coming last. */
  lemma {:induction false} UpsertIs<V>(pairs: seq<Pair<V>>, p: Pair<V>, key: string)
    ensures Lookup(Upsert(pairs, p), key) == if key == p.key then Some(p.value) else Lookup(pairs, key)
    ensures KeysOf(Upsert(pairs, p)) == if p.key in KeysOf(pairs) then KeysOf(pairs) else KeysOf(pairs) + [p.key]
  {
    UpsertKeys(pairs, p);
    hide KeysOf;
    if pairs != [] {
      var first, rest := pairs[0], pairs[1..];
      if first.key == p.key {
        assert ([p] + rest)[1..] == rest;
      } else {
        UpsertIs(rest, p, key);
        assert ([first] + Upsert(rest, p))[1..] == Upsert(rest, p);
      }
    }
  }

  lemma FirstsPush(keys: seq<string>, key: string)
    ensures Firsts(keys + [key]) == if key in Firsts(keys) then Firsts(keys) else Firsts(keys) + [key]
  {
    assert (keys + [key])[..|keys|] == keys;
  }

  lemma {:induction false} FirstsDistinct(keys: seq<string>)
    ensures Distinct(Firsts(keys))
    ensures forall k :: k in Firsts(keys) <==> k in keys
    decreases keys
  {
    if keys != [] {
      FirstsDistinct(keys[..|keys| - 1]);
      assert keys == keys[..|keys| - 1] + [keys[|keys| - 1]];
    }
  }

  lemma {:induction false} UpsertAllPush<V>(pairs: seq<Pair<V>>, more: seq<Pair<V>>, p: Pair<V>)
    ensures UpsertAll(pairs, more + [p]) == Upsert(UpsertAll(pairs, more), p)
    decreases more
  {
    if more == [] {
      assert more + [p] == [p];
    } else {
      assert (more + [p])[1..] == more[1..] + [p];
      UpsertAllPush(Upsert(pairs, more[0]), more[1..], p);
    }
  }

  lemma {:induction false} FirstsConcat(keys: seq<string>, more: seq<string>, rest: seq<string>)
    requires Firsts(keys) == Firsts(more)
    ensures Firsts(keys + rest) == Firsts(more + rest)
    decreases rest
  {
    if rest == [] {
      assert keys + rest == keys && more + rest == more;
    } else {
      var front, last := rest[..|rest| - 1], rest[|rest| - 1];
      FirstsConcat(keys, more, front);
      assert keys + rest == keys + front + [last] && more + rest == more + front + [last];
      FirstsPush(keys + front, last);
      FirstsPush(more + front, last);
    }
  }

  lemma {:induction false} FirstsOfDistinct(keys: seq<string>)
    requires Distinct(keys)
    ensures Firsts(keys) == keys
    decreases keys
  {
    if keys != [] {
      FirstsOfDistinct(keys[..|keys| - 1]);
    }
  }

  lemma {:induction false} UpsertAllKeys<V>(pairs: seq<Pair<V>>, more: seq<Pair<V>>)
    requires Distinct(KeysOf(pairs))
    ensures KeysOf(UpsertAll(pairs, more)) == Firsts(KeysOf(pairs) + KeysOf(more))
    decreases more
  {
    if more == [] {
      FirstsOfDistinct(KeysOf(pairs));
      assert KeysOf(pairs) + KeysOf(more) == KeysOf(pairs);
    } else {
      hide *;
      var front, last := more[..|more| - 1], more[|more| - 1];
      UpsertAllKeys(pairs, front);
      assert more == front + [last];
      UpsertAllPush(pairs, front, last);
      UpsertIs(UpsertAll(pairs, front), last, last.key);
      KeysOfEnds(front, last);
      assert KeysOf(pairs) + KeysOf(more) == KeysOf(pairs) + KeysOf(front) + [last.key];
      FirstsPush(KeysOf(pairs) + KeysOf(front), last.key);
    }
  }

  lemma {:induction false} UpsertAllLookup<V>(pairs: seq<Pair<V>>, more: seq<Pair<V>>, key: string)
    ensures Lookup(UpsertAll(pairs, more), key)
         == if LastOf(more, key).Some? then LastOf(more, key) else Lookup(pairs, key)
    decreases more
  {
    if more != [] {
      hide Upsert, UpsertAll, Lookup;
      var front, last := more[..|more| - 1], more[|more| - 1];
      UpsertAllLookup(pairs, front, key);
      assert more == front + [last];
      UpsertAllPush(pairs, front, last);
      UpsertIs(UpsertAll(pairs, front), last, key);
    }
  }

  /** Updates: each key is where it first came and has the value it had last. */
  lemma UpsertAllIs<V>(pairs: seq<Pair<V>>, more: seq<Pair<V>>, key: string)
    requires Distinct(KeysOf(pairs))
    ensures KeysOf(UpsertAll(pairs, more)) == Firsts(KeysOf(pairs) + KeysOf(more))
    ensures Lookup(UpsertAll(pairs, more), key)
         == if LastOf(more, key).Some? then LastOf(more, key) else Lookup(pairs, key)
  {
    UpsertAllKeys(pairs, more);
    UpsertAllLookup(pairs, more, key);
  }

  lemma AddMissingKeys<V>(pairs: seq<Pair<V>>, p: Pair<V>)
    requires Distinct(KeysOf(pairs))
    ensures Distinct(KeysOf(AddMissing(pairs, p)))
    ensures Firsts(KeysOf(AddMissing(pairs, p))) == KeysOf(AddMissing(pairs, p)) == Firsts(KeysOf(pairs) + [p.key])
  {
    var keys := KeysOf(pairs);
    FirstsOfDistinct(keys);
    FirstsPush(keys, p.key);
    KeysOfEnds(pairs, p);
    FirstsDistinct(keys + [p.key]);
    FirstsOfDistinct(Firsts(keys + [p.key]));
  }

  lemma KeysSplit<V>(keys: seq<string>, more: seq<Pair<V>>)
    requires more != []
    ensures keys + KeysOf(more) == keys + [more[0].key] + KeysOf(more[1..])
  {
    KeysOfEnds(more, more[0]);
  }

  lemma {:induction false} AddAllMissingKeys<V>(pairs: seq<Pair<V>>, more: seq<Pair<V>>)
    requires Distinct(KeysOf(pairs))
    ensures KeysOf(AddAllMissing(pairs, more)) == Firsts(KeysOf(pairs) + KeysOf(more))
    decreases more
  {
    if more == [] {
      FirstsOfDistinct(KeysOf(pairs));
      assert KeysOf(pairs) + KeysOf(more) == KeysOf(pairs);
    } else {
      hide KeysOf, Distinct, Firsts, AddMissing;
      var added := AddMissing(pairs, more[0]);
      AddMissingKeys(pairs, more[0]);
      AddAllMissingKeys(added, more[1..]);
      FirstsConcat(KeysOf(added), KeysOf(pairs) + [more[0].key], KeysOf(more[1..]));
      KeysSplit(KeysOf(pairs), more);
    }
  }

  lemma {:induction false} AddAllMissingLookup<V>(pairs: seq<Pair<V>>, more: seq<Pair<V>>, key: string)
    ensures Lookup(AddAllMissing(pairs, more), key)
         == if Lookup(pairs, key).Some? then Lookup(pairs, key) else Lookup(more, key)
    decreases more
  {
    if more != [] {
      LookupPush(pairs, more[0], key);
      LookupKnown(pairs, more[0].key);
      AddAllMissingLookup(AddMissing(pairs, more[0]), more[1..], key);
    }
  }

  /** Additions: what is there stays, and each new key has the value it had first. */
  lemma AddAllMissingIs<V>(pairs: seq<Pair<V>>, more: seq<Pair<V>>, key: string)
    requires Distinct(KeysOf(pairs))
    ensures KeysOf(AddAllMissing(pairs, more)) == Firsts(KeysOf(pairs) + KeysOf(more))
    ensures Lookup(AddAllMissing(pairs, more), key)
         == if Lookup(pairs, key).Some? then Lookup(pairs, key) else Lookup(more, key)
  {
    AddAllMissingKeys(pairs, more);
    AddAllMissingLookup(pairs, more, key);
  }

  // ----- the same by position -----

  /** An update replaces the first pair with the key where it is, or goes to the end. */
  lemma {:induction false} UpsertAt<V>(pairs: seq<Pair<V>>, p: Pair<V>, i: nat)
    requires i <= |pairs| && forall j | 0 <= j < i :: pairs[j].key != p.key
    requires i < |pairs| ==> pairs[i].key == p.key
    ensures Upsert(pairs, p) == if i < |pairs| then pairs[i := p] else pairs + [p]
  {
    if i > 0 {
      UpsertAt(pairs[1..], p, i - 1);
    }
  }

  lemma {:induction false} LookupAt<V>(pairs: seq<Pair<V>>, key: string, i: nat)
    requires i <= |pairs| && forall j | 0 <= j < i :: pairs[j].key != key
    requires i < |pairs| ==> pairs[i].key == key
    ensures Lookup(pairs, key) == if i < |pairs| then Some(pairs[i].value) else None
  {
    if i > 0 {
      LookupAt(pairs[1..], key, i - 1);
    }
  }

  lemma {:induction false} LastOfAt<V>(pairs: seq<Pair<V>>, key: string, n: nat)
    requires n <= |pairs| && forall j | n <= j < |pairs| :: pairs[j].key != key
    requires n > 0 ==> pairs[n - 1].key == key
    ensures LastOf(pairs, key) == if n > 0 then Some(pairs[n - 1].value) else None
    decreases |pairs|
  {
    if n < |pairs| {
      LastOfAt(pairs[..|pairs| - 1], key, n);
    }
  }
}
