/** Reading a circular array as a sequence, and what one store or one index step does to it. */
module Rings {
  /** All entries, starting from index h. */
  function Rotate<T>(a: seq<T>, h: nat): (r: seq<T>)
    requires h <= |a|
    ensures |r| == |a|
  {
    a[h..] + a[..h]
  }

  /** The entries from index t up to but not including index h, going round the end. */
  function Live<T>(a: seq<T>, t: nat, h: nat): (r: seq<T>)
    requires t < |a| && h < |a|
  {
    if t <= h then a[t..h] else a[t..] + a[..h]
  }

  function Next(i: nat, size: nat): nat {
    if i + 1 < size then i + 1 else 0
  }

  /** The index k places after h, for k less than one turn. */
  function Place(h: nat, k: nat, size: nat): nat
    requires h < size && k < size
  {
    if h + k < size then h + k else h + k - size
  }

  lemma RotateStore<T>(a: seq<T>, h: nat, k: nat, x: T)
    requires h < |a| && k < |a|
    ensures Place(h, k, |a|) < |a|
    ensures Rotate(a, h)[k] == a[Place(h, k, |a|)]
    ensures Rotate(a[Place(h, k, |a|) := x], h) == Rotate(a, h)[k := x]
  {
  }

  /** Overwriting the head entry and stepping the head: the first entry leaves, x joins the end. */
  lemma RotateStep<T>(a: seq<T>, h: nat, x: T)
    requires h < |a|
    ensures Rotate(a[h := x], Next(h, |a|)) == Rotate(a, h)[1..] + [x]
  {
  }

  lemma LivePush<T>(a: seq<T>, t: nat, h: nat, x: T)
    requires t < |a| && h < |a|
    ensures |Live(a, t, h)| < |a|
    ensures Next(h, |a|) == t <==> |Live(a, t, h)| == |a| - 1
    ensures Live(a[h := x], t, h) == Live(a, t, h)
    ensures Next(h, |a|) != t ==> Live(a[h := x], t, Next(h, |a|)) == Live(a, t, h) + [x]
  {
  }

  lemma LivePop<T>(a: seq<T>, t: nat, h: nat, x: T)
    requires t < |a| && h < |a|
    ensures t == h <==> |Live(a, t, h)| == 0
    ensures t != h ==> a[t] == Live(a, t, h)[0]
                       && Live(a[t := x], Next(t, |a|), h) == Live(a, t, h)[1..]
  {
  }
}
