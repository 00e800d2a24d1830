/** The growable array of src/util/da.c: a buffer of `capacity` slots of which the first `size`
    are live.  Growth moves the live elements to a new buffer, so every pointer into the old one
    dangles; `moved` counts the elements moved that way. */
module DynArray {
  import opened Options

  /** The next capacity da_grow_for_one asks for. */
  function Doubled(capacity: nat): nat {
    if capacity == 0 then 1 else 2 * capacity
  }

  /** The capacity of an append-only array that was created with room for `initial` elements and
      has received `n` of them. */
  function Grown(initial: nat, n: nat): (c: nat)
    ensures initial <= c && n <= c
    decreases n - initial
  {
    if n <= initial then initial else Grown(Doubled(initial), n)
  }

  /** The elements moved while an empty array created with room for `initial` receives `n`. */
  function Moved(initial: nat, n: nat): nat
    decreases n - initial
  {
    if n <= initial then 0 else initial + Moved(Doubled(initial), n)
  }

  /** One more append grows the buffer exactly when it is full. */
  lemma {:induction false} GrownStep(initial: nat, n: nat)
    ensures Grown(initial, n + 1) == if Grown(initial, n) == n then Doubled(n) else Grown(initial, n)
    ensures Moved(initial, n + 1) == Moved(initial, n) + if Grown(initial, n) == n then n else 0
    decreases n - initial
  {
    if n > initial {
      GrownStep(Doubled(initial), n);
    } else if n == initial {
      assert Grown(Doubled(n), n + 1) == Doubled(n);
      assert Moved(Doubled(n), n + 1) == 0;
    }
  }

  /** Twice the capacity holds twice as many. */
  lemma {:induction false} GrownTwice(initial: nat, n: nat)
    requires initial > 0
    ensures Grown(2 * initial, n) == 2 * Grown(initial, (n + 1) / 2)
    decreases n - initial
  {
    if n > 2 * initial {
      GrownTwice(2 * initial, n);
    }
  }

  /** Without a recursion over the capacity: an array that is too small is twice one that holds half. */
  lemma GrownIs(initial: nat, n: nat)
    ensures n <= initial ==> Grown(initial, n) == initial
    ensures n > initial > 0 ==> Grown(initial, n) == 2 * Grown(initial, (n + 1) / 2)
    ensures n > initial == 0 ==> Grown(initial, n) == Grown(1, n)
  {
    if n > initial > 0 {
      GrownTwice(initial, n);
    }
  }

  /** Capacity never shrinks while elements are added, and two sizes share a buffer exactly when
      they share a capacity. */
  lemma {:induction false} GrownMonotone(initial: nat, m: nat, n: nat)
    requires m <= n
    ensures Grown(initial, m) <= Grown(initial, n)
    ensures Grown(initial, m) == Grown(initial, n) <==> n <= Grown(initial, m)
    decreases n - m
  {
    if m < n {
      GrownMonotone(initial, m, n - 1);
      GrownStep(initial, n - 1);
    }
  }

  /** Growth is amortised: `n` appends to a fresh array move at most `2 * n` elements. */
  lemma {:induction false} AmortisedGrowth(initial: nat, n: nat)
    ensures Moved(initial, n) <= 2 * n
    ensures 0 < initial < n ==> Moved(initial, n) + initial <= 2 * n
    decreases n - initial
  {
    if n > initial {
      AmortisedGrowth(Doubled(initial), n);
    }
  }

  class DynArray<T(0)> {
    var data: array<T>
    var size: nat
    ghost var moved: nat

    ghost predicate Valid()
      reads this
    {
      size <= data.Length
    }

    function Capacity(): nat
      reads this
    {
      data.Length
    }

    function Contents(): (s: seq<T>)
      requires Valid()
      reads this, data
      ensures |s| == size
    {
      data[..size]
    }

    constructor (capacity: nat)
      ensures Valid() && fresh(data)
      ensures Capacity() == capacity && Contents() == [] && moved == 0
    {
      data := new T[capacity];
      size := 0;
      moved := 0;
    }

    method Reserve(minCapacity: nat)
      requires Valid()
      modifies this
      ensures Valid() && Contents() == old(Contents())
      ensures Capacity() == if old(Capacity()) < minCapacity then minCapacity else old(Capacity())
      ensures if old(Capacity()) < minCapacity then fresh(data) else data == old(data)
      ensures moved == old(moved) + if old(Capacity()) < minCapacity then size else 0
    {
      if minCapacity <= data.Length {
        return;
      }
      var bigger := new T[minCapacity];
      for i := 0 to size
        invariant size <= data.Length && data == old(data) && size == old(size) && moved == old(moved)
        invariant bigger.Length == minCapacity && fresh(bigger) && bigger != data
        invariant data[..] == old(data[..])
        invariant bigger[..i] == data[..i]
      {
        bigger[i] := data[i];
      }
      data := bigger;
      moved := moved + size;
    }

    method Append(x: T)
      requires Valid()
      modifies this, data
      ensures Valid() && Contents() == old(Contents()) + [x]
      ensures Capacity() == if old(size) < old(Capacity()) then old(Capacity())
                            else if old(size) == 0 then 1 else 2 * old(size)
      ensures if old(size) == old(Capacity()) then fresh(data) else data == old(data)
      ensures moved == old(moved) + if old(size) == old(Capacity()) then old(size) else 0
    {
      if size == data.Length {
        Reserve(Doubled(data.Length));
      }
      data[size] := x;
      size := size + 1;
    }

    method Get(index: nat) returns (r: Option<T>)
      requires Valid()
      ensures r == if index < size then Some(Contents()[index]) else None
    {
      r := if index < size then Some(data[index]) else None;
    }

    method Set(index: nat, x: T) returns (ok: bool)
      requires Valid()
      modifies data
      ensures Valid()
      ensures ok == (index < size)
      ensures Contents() == if ok then old(Contents())[index := x] else old(Contents())
    {
      ok := index < size;
      if ok {
        data[index] := x;
      }
    }

    /** Only grows: the new slots hold whatever the buffer held, and shrinking is refused. */
    method Resize(newSize: nat) returns (ok: bool)
      requires Valid()
      modifies this
      ensures Valid() && ok == (old(size) < newSize)
      ensures data == old(data) || fresh(data)
      ensures size == if ok then newSize else old(size)
      ensures Contents()[..old(size)] == old(Contents())
    {
      ok := size < newSize;
      if ok {
        Reserve(newSize);
        size := newSize;
      }
    }

    /** Takes out the element at `index` and closes the gap, keeping the order of the rest. */
    method Pop(index: nat) returns (r: Option<T>)
      requires Valid()
      modifies this`size, data
      ensures Valid() && Capacity() == old(Capacity())
      ensures r == if index < old(size) then Some(old(Contents())[index]) else None
      ensures Contents() == if index < old(size)
                            then old(Contents())[..index] + old(Contents())[index + 1..]
                            else old(Contents())
    {
      if index >= size {
        return None;
      }
      r := Some(data[index]);
      for i := index to size - 1
        invariant Valid() && data == old(data) && size == old(size)
        invariant data[..index] == old(data[..index])
        invariant data[index..i] == old(data[index + 1..i + 1])
        invariant data[i..size] == old(data[i..size])
      {
        assert data[i + 1] == data[i..size][1];
        data[i] := data[i + 1];
      }
      size := size - 1;
      assert data[..size] == data[..index] + data[index..size];
    }

    method Remove(index: nat) returns (ok: bool)
      requires Valid()
      modifies this`size, data
      ensures Valid() && ok == (index < old(size))
      ensures Contents() == if ok
                            then old(Contents())[..index] + old(Contents())[index + 1..]
                            else old(Contents())
    {
      var taken := Pop(index);
      ok := taken.Some?;
    }

    method Clear()
      modifies this`size
      ensures Valid() && Contents() == [] && Capacity() == old(Capacity())
    {
      size := 0;
    }

    /** The append loops of the program (append_to_string_da and the JSON converters): what they
        hold, how far the buffer grew and how many elements moved on the way. */
    method AppendAll(xs: seq<T>)
      requires Valid() && size == 0 && moved == 0
      modifies this, data
      ensures Valid() && Contents() == xs
      ensures Capacity() == Grown(old(Capacity()), |xs|)
      ensures moved == Moved(old(Capacity()), |xs|) <= 2 * |xs|
      ensures data == old(data) || fresh(data)
    {
      for i := 0 to |xs|
        invariant Valid() && Contents() == xs[..i]
        invariant data == old(data) || fresh(data)
        invariant Capacity() == Grown(old(Capacity()), i)
        invariant moved == Moved(old(Capacity()), i)
      {
        GrownStep(old(Capacity()), i);
        Append(xs[i]);
      }
      AmortisedGrowth(old(Capacity()), |xs|);
    }
  }
}
