/** Optional values and their views as sequences and counts. */
module Options {

  datatype Option<+T> = None | Some(value: T)

  function AsSeq<T>(o: Option<T>): seq<T> {
    match o
    case None => []
    case Some(x) => [x]
  }

  /** How often `x` occurs in `o`: 0 or 1. */
  function In<T(==)>(o: Option<T>, x: T): nat {
    if o == Some(x) then 1 else 0
  }

  /** How often `x` occurs in `q`. */
  function Occurrences<T(==)>(q: seq<T>, x: T): nat {
    multiset(q)[x]
  }

  lemma OccurrencesOfParts<T>(q: seq<T>, r: seq<T>, x: T)
    ensures Occurrences(q + r, x) == Occurrences(q, x) + Occurrences(r, x)
    ensures q != [] ==> Occurrences(q, x) == In(Some(q[0]), x) + Occurrences(q[1..], x)
  {
    if q != [] { assert q == [q[0]] + q[1..]; }
  }

  lemma OccurrencesOfOption<T>(q: seq<T>, o: Option<T>, x: T)
    ensures Occurrences(q + AsSeq(o), x) == Occurrences(q, x) + In(o, x)
  {
  }
}
