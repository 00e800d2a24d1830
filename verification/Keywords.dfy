/** A recorded keyword (keyword_status_t of include/keyword_status.h): one function call, with the
    calls it made as children.  A missing text is a NULL pointer.  The C struct's `ignored` flag is
    false for every keyword that is stored, so it is not kept here. */
module Keywords {
  import opened Options

  datatype Keyword = Keyword(
    name: Option<string>,
    file: Option<string>,
    line: int,
    started: Option<string>,
    finished: Option<string>,
    children: seq<Keyword>)

  /** Every keyword of the forest, at any depth, has been closed. */
  predicate AllFinished(ks: seq<Keyword>)
    decreases ks
  {
    ks == [] || (ks[0].finished.Some? && AllFinished(ks[0].children) && AllFinished(ks[1..]))
  }

  lemma {:induction false} AllFinishedConcat(a: seq<Keyword>, b: seq<Keyword>)
    ensures AllFinished(a + b) <==> AllFinished(a) && AllFinished(b)
  {
    if a == [] {
      assert a + b == b;
    } else {
      assert (a + b)[1..] == a[1..] + b;
      AllFinishedConcat(a[1..], b);
    }
  }
}
