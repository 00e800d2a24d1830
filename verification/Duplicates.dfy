/** The scan for keys given twice, which src/ltf_vars.c and src/ltf_secrets.c write out in the same
    way: every pair of positions, skipping the positions already recorded. */
module Duplicates {
  import opened Pairs

  /** Where the key at j occurs first. */
  function First(keys: seq<string>, j: nat): (i: nat)
    requires j < |keys|
    ensures i <= j && keys[i] == keys[j]
    ensures forall l | 0 <= l < i :: keys[l] != keys[j]
  {
    FirstFrom(keys, j, 0)
  }

  function FirstFrom(keys: seq<string>, j: nat, from: nat): (i: nat)
    requires from <= j < |keys|
    requires forall l | 0 <= l < from :: keys[l] != keys[j]
    ensures i <= j && keys[i] == keys[j]
    ensures forall l | 0 <= l < i :: keys[l] != keys[j]
    decreases j - from
  {
    if keys[from] == keys[j] then from else FirstFrom(keys, j, from + 1)
  }

  /** The position repeats an earlier key. */
  predicate Repeats(keys: seq<string>, j: nat)
    requires j < |keys|
  {
    First(keys, j) < j
  }

  lemma RepeatsEarlier(keys: seq<string>, j: nat)
    requires j < |keys|
    ensures Repeats(keys, j) <==> exists i :: 0 <= i < j && keys[i] == keys[j]
  {
  }

  lemma SameFirst(keys: seq<string>, i: nat, j: nat)
    requires i < |keys| && j < |keys| && keys[i] == keys[j]
    ensures First(keys, i) == First(keys, j)
  {
    var a, b := First(keys, i), First(keys, j);
    assert a >= b;
    assert b >= a;
  }

  predicate NoneTwice(found: seq<nat>) {
    forall a, b | 0 <= a < b < |found| :: found[a] != found[b]
  }

  /** Position j is recorded when position i has been compared with everything below `below`. */
  predicate DueBy(keys: seq<string>, i: nat, below: nat, j: nat)
    requires j < |keys|
  {
    Repeats(keys, j) && (First(keys, j) < i || (First(keys, j) == i && j < below))
  }

  predicate Recorded(keys: seq<string>, found: seq<nat>, i: nat, below: nat) {
    && NoneTwice(found)
    && (forall a | 0 <= a < |found| :: found[a] < |keys|)
    && forall j | 0 <= j < |keys| :: j in found <==> DueBy(keys, i, below, j)
  }

  method Among(found: seq<nat>, i: nat, j: nat) returns (already: bool)
    ensures already <==> i in found || j in found
  {
    already := false;
    for k := 0 to |found|
      invariant already <==> i in found[..k] || j in found[..k]
    {
      if found[k] == j || found[k] == i {
        already := true;
        assert found[k] in found[..k + 1];
        assert forall x :: x in found[..k + 1] ==> x in found;
        return;
      }
      assert found[..k + 1] == found[..k] + [found[k]];
    }
    assert found[..|found|] == found;
  }

  /** Exactly the positions that repeat an earlier key are recorded, each once. */
  method FindDuplicates(keys: seq<string>) returns (found: seq<nat>)
    ensures NoneTwice(found)
    ensures forall j: nat :: j in found <==> j < |keys| && Repeats(keys, j)
    ensures found == [] <==> Distinct(keys)
  {
    found := [];
    for i := 0 to |keys|
      invariant Recorded(keys, found, i, 0)
    {
      for j := 0 to |keys|
        invariant Recorded(keys, found, i, j)
      {
        if i == j {
          continue;
        }
        var already := Among(found, i, j);
        if already {
          AlreadyRecorded(keys, found, i, j);
          continue;
        }
        if keys[i] == keys[j] {
          Record(keys, found, i, j);
          found := found + [j];
        }
      }
      NextPosition(keys, found, i);
    }
    EmptyWhenDistinct(keys, found);
  }

  lemma AlreadyRecorded(keys: seq<string>, found: seq<nat>, i: nat, j: nat)
    requires i < |keys| && j < |keys| && i != j && Recorded(keys, found, i, j)
    requires i in found || j in found
    ensures Recorded(keys, found, i, j + 1)
  {
    assert First(keys, j) == i ==> First(keys, i) == i by {
      if First(keys, j) == i {
        SameFirst(keys, i, j);
      }
    }
    assert DueBy(keys, i, j + 1, j) <==> DueBy(keys, i, j, j) || (Repeats(keys, j) && First(keys, j) == i);
  }

  lemma Record(keys: seq<string>, found: seq<nat>, i: nat, j: nat)
    requires i < |keys| && j < |keys| && i != j && Recorded(keys, found, i, j)
    requires i !in found && j !in found && keys[i] == keys[j]
    ensures Recorded(keys, found + [j], i, j + 1)
  {
    SameFirst(keys, i, j);
    assert First(keys, i) == i;
  }

  lemma NextPosition(keys: seq<string>, found: seq<nat>, i: nat)
    requires i < |keys| && Recorded(keys, found, i, |keys|)
    ensures Recorded(keys, found, i + 1, 0)
  {
    assert forall j | 0 <= j < |keys| :: DueBy(keys, i + 1, 0, j) <==> DueBy(keys, i, |keys|, j);
  }

  lemma EmptyWhenDistinct(keys: seq<string>, found: seq<nat>)
    requires Recorded(keys, found, |keys|, 0)
    ensures forall j: nat :: j in found <==> j < |keys| && Repeats(keys, j)
    ensures found == [] <==> Distinct(keys)
  {
    if found != [] {
      var j := found[0];
      assert j in found;
      assert Repeats(keys, j) && keys[First(keys, j)] == keys[j];
    }
    if i, j :| 0 <= i < j < |keys| && keys[i] == keys[j] {
      SameFirst(keys, i, j);
      assert Repeats(keys, j) && j in found;
    }
  }

  // ----- how many there are -----

  function Names(keys: seq<string>): set<string> {
    set k | k in keys
  }

  function RepeatCount(keys: seq<string>): nat {
    if keys == [] then 0
    else RepeatCount(keys[..|keys| - 1]) + if keys[|keys| - 1] in keys[..|keys| - 1] then 1 else 0
  }

  lemma {:induction false} RepeatCountIs(keys: seq<string>)
    ensures RepeatCount(keys) + |Names(keys)| == |keys|
    decreases keys
  {
    if keys == [] {
      assert Names(keys) == {};
    } else {
      var front, last := keys[..|keys| - 1], keys[|keys| - 1];
      RepeatCountIs(front);
      assert keys == front + [last];
      if last in front {
        assert Names(keys) == Names(front);
      } else {
        assert Names(keys) == Names(front) + {last};
        assert last !in Names(front);
      }
    }
  }

  lemma {:induction false} FoundCount(keys: seq<string>, found: set<nat>)
    requires forall j: nat :: j in found <==> j < |keys| && Repeats(keys, j)
    ensures |found| == RepeatCount(keys)
    decreases keys
  {
    if keys == [] {
      assert found == {};
    } else {
      var n := |keys| - 1;
      var front := keys[..n];
      forall j: nat | j < n ensures Repeats(front, j) <==> Repeats(keys, j) {
        RepeatsEarlier(front, j);
        RepeatsEarlier(keys, j);
      }
      FoundCount(front, found - {n});
      RepeatsEarlier(keys, n);
      assert n in found <==> keys[n] in front;
    }
  }

  function Members(found: seq<nat>): (s: set<nat>)
    ensures forall j: nat :: j in s <==> j in found
  {
    if found == [] then {} else Members(found[..|found| - 1]) + {found[|found| - 1]}
  }

  lemma {:induction false} MemberCount(found: seq<nat>)
    requires NoneTwice(found)
    ensures |Members(found)| == |found|
    decreases found
  {
    if found != [] {
      var front, last := found[..|found| - 1], found[|found| - 1];
      MemberCount(front);
      assert last !in front;
    }
  }

  /** There are as many reports as there are keys beyond the first of each name. */
  lemma ReportCount(keys: seq<string>, found: seq<nat>)
    requires NoneTwice(found)
    requires forall j: nat :: j in found <==> j < |keys| && Repeats(keys, j)
    ensures |found| == |keys| - |Names(keys)|
  {
    MemberCount(found);
    FoundCount(keys, Members(found));
    RepeatCountIs(keys);
  }
}
