/** The optional value used wherever Python has `None` or a caught exception,
    and what several modules share about plain sequences. */
module Options {

  datatype Option<+T> = None | Some(value: T)

  /** No element occurs twice (the keys of a dict, the names of a listing). */
  predicate Distinct<T(==)>(xs: seq<T>) {
    forall i, j | 0 <= i < j < |xs| :: xs[i] != xs[j]
  }

  /** `xs` in front of a result that may have raised. */
  function Prepend<T>(xs: seq<T>, o: Option<seq<T>>): (r: Option<seq<T>>)
    ensures r.None? <==> o.None?
  {
    match o
    case None => None
    case Some(more) => Some(xs + more)
  }

  lemma PrependTwice<T>(a: seq<T>, b: seq<T>, o: Option<seq<T>>)
    ensures Prepend(a, Prepend(b, o)) == Prepend(a + b, o)
  {
    if o.Some? {
      assert a + (b + o.value) == (a + b) + o.value;
    }
  }
}
