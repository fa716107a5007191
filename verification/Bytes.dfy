/** Bytes and the few sequence notions every layer shares. */
module Bytes {

  type byte = x: int | 0 <= x < 256

  /** The concatenation of a list of byte strings. */
  function Concat<T>(parts: seq<seq<T>>): seq<T> {
    if parts == [] then [] else parts[0] + Concat(parts[1..])
  }

  lemma {:induction false} ConcatSplit<T>(xs: seq<seq<T>>, ys: seq<seq<T>>)
    ensures Concat(xs + ys) == Concat(xs) + Concat(ys)
  {
    if xs == [] {
      assert xs + ys == ys;
    } else {
      ConcatSplit(xs[1..], ys);
      HeadOfBoth(xs, ys);
      Regrouped(xs[0], Concat(xs[1..]), Concat(ys));
    }
  }

  /** The head and the rest of a concatenation. */
  lemma HeadOfBoth<T>(xs: seq<T>, ys: seq<T>)
    requires xs != []
    ensures xs + ys != [] && (xs + ys)[0] == xs[0] && (xs + ys)[1..] == xs[1..] + ys
  {
  }

  lemma Regrouped<T>(xs: seq<T>, ys: seq<T>, zs: seq<T>)
    ensures xs + (ys + zs) == xs + ys + zs
  {
  }
}
