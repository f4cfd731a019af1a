/** Two notions several models share. */
module Basics {
  function Min(a: int, b: int): (m: int)
    ensures m <= a && m <= b && (m == a || m == b)
  {
    if a < b then a else b
  }

  ghost predicate Increasing(q: seq<nat>) {
    forall i, j :: 0 <= i < j < |q| ==> q[i] < q[j]
  }

  /** q is what stands in p at the places idx, in order. */
  ghost predicate Selects<T>(p: seq<T>, q: seq<T>, idx: seq<nat>) {
    && |idx| == |q| && Increasing(idx)
    && forall j :: 0 <= j < |idx| ==> idx[j] < |p| && q[j] == p[idx[j]]
  }

  lemma SelectsMore<T>(p: seq<T>, q: seq<T>, idx: seq<nat>, x: T)
    requires Selects(p, q, idx)
    ensures Selects(p + [x], q, idx) && Selects(p + [x], q + [x], idx + [|p|])
    ensures |p| !in idx && forall i :: 0 <= i < |p| ==> (i in idx + [|p|] <==> i in idx)
  {
  }
}
