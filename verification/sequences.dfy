/** Lists without repetition, and lists of strings put together. */
module Sequences {

  ghost predicate Distinct<T>(xs: seq<T>) {
    forall j, k :: 0 <= j < k < |xs| ==> xs[j] != xs[k]
  }

  lemma DistinctSnoc<T>(xs: seq<T>, x: T)
    ensures Distinct(xs + [x]) <==> Distinct(xs) && x !in xs
  {
    var ys := xs + [x];
    assert forall k :: 0 <= k < |xs| ==> ys[k] == xs[k];
    if Distinct(ys) {
      assert forall k :: 0 <= k < |xs| ==> ys[k] != ys[|xs|];
    }
  }

  lemma DistinctCons<T>(x: T, xs: seq<T>)
    ensures Distinct([x] + xs) <==> Distinct(xs) && x !in xs
  {
    var ys := [x] + xs;
    assert forall k :: 0 <= k < |xs| ==> ys[k + 1] == xs[k];
    if Distinct(ys) {
      assert forall k :: 1 <= k < |ys| ==> ys[0] != ys[k];
    }
  }

  function Concat(parts: seq<string>): string {
    if parts == [] then "" else Concat(parts[..|parts| - 1]) + parts[|parts| - 1]
  }
}
