/** The delivery adapters' bounded memory of message ids: a first-in first-out window in the two
    PTY sidecars, a least-recently-used one in the Codex app-server adapter. */
module Dedupe {
  import opened Sequences

  const DEDUPE_SIZE: nat := 256

  /** The last `n` members. */
  function Last(xs: seq<string>, n: nat): seq<string> {
    if |xs| <= n then xs else xs[|xs| - n..]
  }

  function Elements(xs: seq<string>): set<string> { set x | x in xs }

  lemma {:induction false} DistinctCount(xs: seq<string>)
    ensures |Elements(xs)| <= |xs|
    ensures Distinct(xs) ==> |Elements(xs)| == |xs|
  {
    if xs != [] {
      var init, last := xs[..|xs| - 1], xs[|xs| - 1];
      DistinctCount(init);
      assert xs == init + [last];
      assert Elements(xs) == Elements(init) + {last};
      if Distinct(xs) {
        assert last !in init;
      }
    }
  }

  // ---- the first-in first-out window ---------------------------------------------------------

  /** The ids answered `false` over a list of calls, in order, for a window of `n`. */
  function Misses(calls: seq<string>, n: nat): seq<string> {
    if calls == [] then []
    else
      var before := Misses(calls[..|calls| - 1], n);
      var id := calls[|calls| - 1];
      if id in Last(before, n) then before else before + [id]
  }

  lemma MissesStep(calls: seq<string>, id: string, n: nat)
    ensures Misses(calls + [id], n)
            == Misses(calls, n) + (if id in Last(Misses(calls, n), n) then [] else [id])
  {
    assert (calls + [id])[..|calls|] == calls;
    assert Misses(calls, n) + [] == Misses(calls, n);
  }

  /** One more member pushes the first out of a full window. */
  lemma LastPush(xs: seq<string>, x: string, n: nat)
    ensures Last(xs + [x], n)
            == if |Last(xs, n) + [x]| > n then (Last(xs, n) + [x])[1..] else Last(xs, n) + [x]
    ensures |Last(xs, n)| <= n && Last(xs + [], n) == Last(xs, n)
  {
    assert xs + [] == xs;
  }

  /** `recentIds` and `seenBefore` of adapters/claude-pty/sidecar.js and codex-pty/sidecar.js. The
      Map is its keys in insertion order. */
  class FifoWindow {
    var ids: seq<string>
    ghost var calls: seq<string>

    ghost predicate Valid()
      reads this
    {
      ids == Last(Misses(calls, DEDUPE_SIZE), DEDUPE_SIZE)
    }

    constructor ()
      ensures Valid() && calls == [] && ids == []
    {
      ids, calls := [], [];
    }

    /** True exactly for the last 256 ids it answered `false` for. A hit changes nothing. */
    method SeenBefore(id: string) returns (hit: bool)
      requires Valid()
      modifies this
      ensures Valid() && calls == old(calls) + [id]
      ensures hit == (id in Last(Misses(old(calls), 256), 256))
      ensures Misses(calls, 256) == Misses(old(calls), 256) + (if hit then [] else [id])
      ensures hit ==> ids == old(ids)
      ensures |ids| <= 256
    {
      hide Misses, Last;
      MissesStep(calls, id, DEDUPE_SIZE);
      LastPush(Misses(calls, DEDUPE_SIZE), id, DEDUPE_SIZE);
      hit := id in ids;
      if !hit {
        ids := ids + [id];
        if |ids| > DEDUPE_SIZE {
          ids := ids[1..];
        }
      }
      calls := calls + [id];
    }
  }

  /** The `n` members before the end are in the window. */
  lemma InLast(xs: seq<string>, n: nat, j: nat)
    requires j < |xs| <= j + n
    ensures xs[j] in Last(xs, n)
  {
    if |xs| > n {
      assert Last(xs, n)[j - (|xs| - n)] == xs[j];
    }
  }

  /** An id answered `false` differs from each of the `n` ids answered `false` before it. */
  lemma {:induction false} MissesFarApart(calls: seq<string>, n: nat, j: nat, k: nat)
    requires j < k < |Misses(calls, n)| && k - j <= n
    ensures Misses(calls, n)[j] != Misses(calls, n)[k]
  {
    hide Misses, Last;
    MissesNone(n);
    var init := calls[..|calls| - 1];
    var before := Misses(init, n);
    assert calls == init + [calls[|calls| - 1]];
    MissesStep(init, calls[|calls| - 1], n);
    if k < |before| {
      MissesFarApart(init, n, j, k);
    } else {
      InLast(before, n, j);
    }
  }

  lemma MissesNone(n: nat)
    ensures Misses([], n) == []
  {
  }

  lemma {:induction false} MissesAreCalls(calls: seq<string>, n: nat)
    ensures forall id :: id in Misses(calls, n) ==> id in calls
  {
    if calls != [] {
      MissesAreCalls(calls[..|calls| - 1], n);
      assert calls == calls[..|calls| - 1] + [calls[|calls| - 1]];
    }
  }

  /** Any `n + 1` consecutive misses are pairwise distinct. */
  lemma ConsecutiveMissesDistinct(calls: seq<string>, n: nat, last: nat)
    requires n <= last < |Misses(calls, n)|
    ensures Distinct(Misses(calls, n)[last - n..last + 1])
  {
    var m := Misses(calls, n);
    forall j, k | 0 <= j < k < |m| && k - j <= n
      ensures m[j] != m[k]
    {
      MissesFarApart(calls, n, j, k);
    }
    SliceDistinct(m, last - n, n + 1);
  }

  lemma SliceDistinct(m: seq<string>, from: nat, len: nat)
    requires from + len <= |m|
    requires forall j, k :: 0 <= j < k < |m| && k - j < len ==> m[j] != m[k]
    ensures Distinct(m[from..from + len])
  {
  }

  /** Two misses of one id lie so far apart that `n` misses of `n` other, pairwise distinct ids
      fall between them. */
  lemma RepeatsAreSeparated(calls: seq<string>, n: nat, j: nat, k: nat)
    requires j < k < |Misses(calls, n)| && Misses(calls, n)[j] == Misses(calls, n)[k]
    ensures k - j > n
    ensures Distinct(Misses(calls, n)[k - n..k + 1])
  {
    if k - j <= n {
      MissesFarApart(calls, n, j, k);
    } else {
      ConsecutiveMissesDistinct(calls, n, k);
    }
  }

  /** So a repeated miss takes more than `n` different ids. */
  lemma RepeatNeedsManyIds(calls: seq<string>, n: nat, j: nat, k: nat)
    requires j < k < |Misses(calls, n)| && Misses(calls, n)[j] == Misses(calls, n)[k]
    ensures |Elements(calls)| > n
  {
    RepeatsAreSeparated(calls, n, j, k);
    var run := Misses(calls, n)[k - n..k + 1];
    DistinctCount(run);
    MissesAreCalls(calls, n);
    forall x | x in run
      ensures x in Misses(calls, n)
    {
    }
    SubsetCount(Elements(run), Elements(calls));
  }

  /** With at most `n` different ids in play each is a miss at most once. */
  lemma FewIdsMissOnce(calls: seq<string>, n: nat)
    requires |Elements(calls)| <= n
    ensures Distinct(Misses(calls, n))
  {
    var m := Misses(calls, n);
    forall j, k | 0 <= j < k < |m|
      ensures m[j] != m[k]
    {
      if m[j] == m[k] {
        RepeatNeedsManyIds(calls, n, j, k);
      }
    }
  }

  lemma {:induction false} SubsetCount(a: set<string>, b: set<string>)
    requires a <= b
    ensures |a| <= |b|
  {
    if a != {} {
      var x :| x in a;
      SubsetCount(a - {x}, b - {x});
    }
  }

  // ---- the least-recently-used window ----------------------------------------------------------

  function Without(xs: seq<string>, x: string): seq<string> {
    if xs == [] then []
    else Without(xs[..|xs| - 1], x) + (if xs[|xs| - 1] == x then [] else [xs[|xs| - 1]])
  }

  /** The distinct values of a list of calls, least recent first. */
  function Recency(calls: seq<string>): seq<string> {
    if calls == [] then []
    else Without(Recency(calls[..|calls| - 1]), calls[|calls| - 1]) + [calls[|calls| - 1]]
  }

  /** The values after the last `x`; all of them when there is no `x`. */
  function After(xs: seq<string>, x: string): set<string> {
    if xs == [] || xs[|xs| - 1] == x then {} else After(xs[..|xs| - 1], x) + {xs[|xs| - 1]}
  }

  /** `_DedupeLRU` of adapters/codex-app-server/adapter.py; the OrderedDict is its keys in order. */
  class LruWindow {
    const size: nat
    var items: seq<string>
    ghost var calls: seq<string>

    ghost predicate Valid()
      reads this
    {
      items == Last(Recency(calls), size)
    }

    constructor (size: nat)
      ensures Valid() && this.size == size && calls == []
    {
      this.size := size;
      items, calls := [], [];
    }

    /** True exactly when the value was seen before and fewer than `size` different other values
        have been seen since; the dictionary stays the most recent `size` values in order. */
    method SeenBefore(value: string) returns (hit: bool)
      requires Valid()
      modifies this
      ensures Valid() && calls == old(calls) + [value]
      ensures hit <==> value in old(calls) && |After(old(calls), value)| < size
    {
      HitIffRecent(calls, value, size);
      RecencyStep(calls, value, size);
      hit := value in items;
      if hit {
        items := Without(items, value) + [value];
      } else {
        items := items + [value];
        if |items| > size {
          items := items[1..];
        }
      }
      assert (calls + [value])[..|calls|] == calls;
      calls := calls + [value];
    }
  }

  lemma {:induction false} WithoutFacts(xs: seq<string>, x: string)
    ensures forall y :: y in Without(xs, x) <==> y in xs && y != x
    ensures Distinct(xs) ==> Distinct(Without(xs, x))
    ensures x !in xs ==> Without(xs, x) == xs
  {
    if xs != [] {
      var init, last := xs[..|xs| - 1], xs[|xs| - 1];
      WithoutFacts(init, x);
      assert xs == init + [last];
      if Distinct(xs) {
        assert last !in init;
      }
    }
  }

  lemma {:induction false} WithoutAppend(a: seq<string>, b: seq<string>, x: string)
    ensures Without(a + b, x) == Without(a, x) + Without(b, x)
  {
    if b == [] {
      assert a + b == a;
    } else {
      assert (a + b)[..|a + b| - 1] == a + b[..|b| - 1];
      WithoutAppend(a, b[..|b| - 1], x);
    }
  }

  lemma {:induction false} RecencyFacts(calls: seq<string>)
    ensures Distinct(Recency(calls))
    ensures forall x :: x in Recency(calls) <==> x in calls
  {
    if calls != [] {
      var init, last := calls[..|calls| - 1], calls[|calls| - 1];
      RecencyFacts(init);
      WithoutFacts(Recency(init), last);
      assert calls == init + [last];
    }
  }

  /** Dropping one value from a list of distinct values leaves all but one of them. */
  lemma {:induction false} WithoutCount(xs: seq<string>, x: string)
    requires Distinct(xs) && x in xs
    ensures |Without(xs, x)| == |xs| - 1
  {
    var init, last := xs[..|xs| - 1], xs[|xs| - 1];
    assert xs == init + [last];
    if last == x {
      assert x !in init;
      WithoutFacts(init, x);
    } else {
      WithoutCount(init, x);
    }
  }

  lemma LastOfAppend(a: seq<string>, b: seq<string>, n: nat)
    requires (|b| == n) || (|b| <= n && a == [])
    ensures Last(a + b, n) == b
  {
    assert (a + b)[|a|..] == b;
  }

  /** What one call makes of the most recent `n` values. */
  lemma RecencyStep(calls: seq<string>, v: string, n: nat)
    ensures var w := Last(Recency(calls), n);
            Last(Recency(calls + [v]), n) ==
              if v in w then Without(w, v) + [v]
              else if |w + [v]| > n then (w + [v])[1..] else w + [v]
  {
    assert (calls + [v])[..|calls|] == calls;
    RecencyFacts(calls);
    var r := Recency(calls);
    var w := Last(r, n);
    var older := r[..|r| - |w|];
    assert r == older + w;
    WithoutAppend(older, w, v);
    assert Recency(calls + [v]) == Without(older, v) + Without(w, v) + [v];
    if v in w {
      RecencyHit(older, w, v, n);
    } else {
      RecencyMiss(older, w, v, n);
    }
  }

  lemma RecencyHit(older: seq<string>, w: seq<string>, v: string, n: nat)
    requires Distinct(older + w) && v in w && (|w| == n || (|w| <= n && older == []))
    ensures Last(Without(older, v) + Without(w, v) + [v], n) == Without(w, v) + [v]
  {
    var i :| 0 <= i < |w| && w[i] == v;
    assert (older + w)[|older| + i] == v;
    assert forall k :: 0 <= k < |older| ==> older[k] == (older + w)[k];
    assert v !in older;
    assert Distinct(w) by {
      assert forall k :: 0 <= k < |w| ==> w[k] == (older + w)[|older| + k];
    }
    WithoutFacts(older, v);
    WithoutCount(w, v);
    assert Without(older, v) + Without(w, v) + [v] == older + (Without(w, v) + [v]);
    LastOfAppend(older, Without(w, v) + [v], n);
  }

  lemma RecencyMiss(older: seq<string>, w: seq<string>, v: string, n: nat)
    requires v !in w && (|w| == n || (|w| <= n && older == []))
    ensures Last(Without(older, v) + Without(w, v) + [v], n) == if |w| + 1 > n then (w + [v])[1..] else w + [v]
  {
    WithoutFacts(w, v);
    if |w| == n {
      LastOfFull(Without(older, v), w + [v], n);
      assert Without(older, v) + (w + [v]) == Without(older, v) + w + [v];
    } else {
      LastOfShort(w + [v], n);
      assert [] + w + [v] == w + [v];
    }
  }

  lemma LastOfFull(a: seq<string>, b: seq<string>, n: nat)
    requires |b| == n + 1
    ensures Last(a + b, n) == b[1..]
  {
    assert a + b == (a + b[..1]) + b[1..];
    LastOfAppend(a + b[..1], b[1..], n);
  }

  lemma LastOfShort(b: seq<string>, n: nat)
    requires |b| <= n
    ensures Last(b, n) == b
  {
  }

  lemma {:induction false} AfterWithout(xs: seq<string>, u: string, v: string)
    requires u != v
    ensures After(Without(xs, u), v) == After(xs, v) - {u}
  {
    if xs != [] {
      var init, last := xs[..|xs| - 1], xs[|xs| - 1];
      AfterWithout(init, u, v);
      var w := Without(init, u);
      if last == u {
        assert w + [] == w;
      } else {
        assert (w + [last])[..|w|] == w;
      }
    }
  }

  /** The recency list agrees with the calls on what came after a value. */
  lemma {:induction false} AfterRecency(calls: seq<string>, v: string)
    ensures After(Recency(calls), v) == After(calls, v)
  {
    if calls != [] {
      var init, last := calls[..|calls| - 1], calls[|calls| - 1];
      AfterRecency(init, v);
      var r := Without(Recency(init), last);
      assert (r + [last])[..|r|] == r;
      if last != v {
        AfterWithout(Recency(init), last, v);
      }
    }
  }

  lemma {:induction false} AfterIsSubset(xs: seq<string>, v: string)
    ensures After(xs, v) <= Elements(xs)
  {
    if xs != [] {
      AfterIsSubset(xs[..|xs| - 1], v);
      assert xs == xs[..|xs| - 1] + [xs[|xs| - 1]];
    }
  }

  lemma LastStep(init: seq<string>, last: string, n: nat)
    ensures Last(init + [last], n) == if n == 0 then [] else Last(init, n - 1) + [last]
  {
  }

  /** Among distinct values each one adds to what comes after an earlier one. */
  lemma AfterStep(init: seq<string>, last: string, v: string)
    requires Distinct(init + [last])
    ensures last == v ==> After(init + [last], v) == {}
    ensures last != v ==> |After(init + [last], v)| == |After(init, v)| + 1
  {
    assert (init + [last])[..|init|] == init;
    DistinctSnoc(init, last);
    AfterIsSubset(init, v);
    assert last !in After(init, v);
  }

  /** In a list of distinct values, being among the last `n` is having fewer than `n` after it. */
  lemma {:induction false} AmongLast(xs: seq<string>, v: string, n: nat)
    requires Distinct(xs) && v in xs
    ensures v in Last(xs, n) <==> |After(xs, v)| < n
  {
    hide Last, After, Distinct;
    var init, last := xs[..|xs| - 1], xs[|xs| - 1];
    assert xs == init + [last];
    DistinctSnoc(init, last);
    LastStep(init, last, n);
    AfterStep(init, last, v);
    if last != v && n > 0 {
      AmongLast(init, v, n - 1);
    }
  }

  /** The window answers by the reference definition: seen before, and fewer than `n` different
      other values since. */
  lemma HitIffRecent(calls: seq<string>, v: string, n: nat)
    ensures v in Last(Recency(calls), n) <==> v in calls && |After(calls, v)| < n
    ensures v !in After(calls, v)
  {
    RecencyFacts(calls);
    AfterRecency(calls, v);
    NotAfterItself(calls, v);
    var r := Recency(calls);
    if v in calls {
      AmongLast(r, v, n);
    } else {
      assert forall x :: x in Last(r, n) ==> x in r;
    }
  }

  lemma {:induction false} NotAfterItself(xs: seq<string>, v: string)
    ensures v !in After(xs, v)
  {
    if xs != [] {
      NotAfterItself(xs[..|xs| - 1], v);
    }
  }

  /** The values answered `false` over a list of calls, in order, for a window of `n`. */
  function LruMisses(calls: seq<string>, n: nat): seq<string> {
    if calls == [] then []
    else
      var init, value := calls[..|calls| - 1], calls[|calls| - 1];
      LruMisses(init, n) + (if value in Last(Recency(init), n) then [] else [value])
  }

  lemma {:induction false} LruMissesAreCalls(calls: seq<string>, n: nat)
    ensures forall v :: v in LruMisses(calls, n) ==> v in calls
  {
    if calls != [] {
      LruMissesAreCalls(calls[..|calls| - 1], n);
      assert calls == calls[..|calls| - 1] + [calls[|calls| - 1]];
    }
  }

  /** A value answered `false` though it had been seen has at least `n` different others after its
      last call; so with at most `n` different values in play each is answered `false` only once. */
  lemma {:induction false} FewValuesMissOnce(calls: seq<string>, n: nat)
    requires |Elements(calls)| <= n
    ensures Distinct(LruMisses(calls, n))
  {
    if calls != [] {
      var init, v := calls[..|calls| - 1], calls[|calls| - 1];
      assert calls == init + [v];
      SubsetCount(Elements(init), Elements(calls));
      FewValuesMissOnce(init, n);
      LruMissesAreCalls(init, n);
      HitIffRecent(init, v, n);
      AfterIsSubset(init, v);
      if v in init {
        assert v in Elements(calls);
        SubsetCount(After(init, v), Elements(calls) - {v});
      }
    }
  }
}
