/** Small generic helpers shared by the rest of the model. */
module Results {

  /** A Go `(value, error)` pair: either a value or an error. */
  datatype Result<+T, +E> = Success(value: T) | Failure(error: E)
}

module Seqs {

  /** Index of the first element of `s` for which `stop` holds, or `|s|` when
      there is none: the shape of every early-returning `for ... range` loop
      of the configuration code. */
  function FirstWhere<T>(s: seq<T>, stop: T -> bool): (k: nat)
    ensures k <= |s|
    ensures forall j :: 0 <= j < k ==> !stop(s[j])
    ensures k < |s| ==> stop(s[k])
  {
    if s == [] then 0
    else if stop(s[0]) then 0
    else 1 + FirstWhere(s[1..], stop)
  }

  /** FirstWhere is the only index that is preceded by non-stopping elements
      and is either the end or a stopping element. */
  lemma FirstWhereUnique<T>(s: seq<T>, stop: T -> bool, m: nat)
    requires m <= |s|
    requires forall j :: 0 <= j < m ==> !stop(s[j])
    requires m < |s| ==> stop(s[m])
    ensures m == FirstWhere(s, stop)
  {
  }
}
