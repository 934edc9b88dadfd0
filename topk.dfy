/** `jax.lax.top_k` on one row of scores: the `k` largest values in
    non-increasing order together with their positions, where equal values
    are ordered by position (the lower index first). */
module TopK {

  /** Position `i` ranks ahead of position `j`: a larger value, or the same
      value at a lower position. On distinct positions this is a strict
      total order. */
  predicate Ahead(v: seq<real>, i: nat, j: nat)
    requires i < |v| && j < |v|
  {
    v[i] > v[j] || (v[i] == v[j] && i < j)
  }

  predicate InBounds(v: seq<real>, s: seq<nat>)
  {
    forall a | 0 <= a < |s| :: s[a] < |v|
  }

  predicate Distinct(s: seq<nat>)
  {
    forall a, b | 0 <= a < b < |s| :: s[a] != s[b]
  }

  /** `idx` lists the `k` best positions of `v`, best first: each chosen
      position ranks ahead of every later chosen one and of every position
      that was not chosen. */
  predicate IsTopK(v: seq<real>, k: nat, idx: seq<nat>)
  {
    && |idx| == k
    && InBounds(v, idx)
    && (forall a, b | 0 <= a < b < k :: Ahead(v, idx[a], idx[b]))
    && (forall a, i | 0 <= a < k && 0 <= i < |v| && i !in idx :: Ahead(v, idx[a], i))
  }

  /** The position, within `rem`, of the entry of `rem` that ranks ahead of
      all the others. */
  function ArgBest(v: seq<real>, rem: seq<nat>): (p: nat)
    requires |rem| > 0 && InBounds(v, rem)
    ensures p < |rem|
    ensures forall q | 0 <= q < |rem| && rem[q] != rem[p] :: Ahead(v, rem[p], rem[q])
  {
    if |rem| == 1 then 0
    else
      var p' := ArgBest(v, rem[1..]);
      if Ahead(v, rem[p' + 1], rem[0]) then p' + 1 else 0
  }

  /** Repeatedly takes the best remaining position: the first `k` positions
      of `rem` in ranking order. */
  function SelectBest(v: seq<real>, rem: seq<nat>, k: nat): (r: seq<nat>)
    requires k <= |rem| && InBounds(v, rem) && Distinct(rem)
    ensures |r| == k
    ensures forall a | 0 <= a < k :: r[a] in rem
    ensures forall a, b | 0 <= a < b < k :: Ahead(v, r[a], r[b])
    ensures forall a, q | 0 <= a < k && 0 <= q < |rem| && rem[q] !in r :: Ahead(v, r[a], rem[q])
    decreases k
  {
    if k == 0 then []
    else
      var p := ArgBest(v, rem);
      var rest := Without(rem, p);
      var tail := SelectBest(v, rest, k - 1);
      var r := [rem[p]] + tail;
      SelectBestStep(v, rem, p, tail, r);
      r
  }

  /** `rem` with the entry at position `p` removed. */
  function Without(rem: seq<nat>, p: nat): (r: seq<nat>)
    requires p < |rem|
    ensures |r| == |rem| - 1
    ensures forall q | 0 <= q < |r| :: r[q] == if q < p then rem[q] else rem[q + 1]
  {
    rem[..p] + rem[p + 1..]
  }

  /** Putting the best entry in front of the best of the others keeps the
      three ranking properties of SelectBest. */
  lemma SelectBestStep(v: seq<real>, rem: seq<nat>, p: nat, tail: seq<nat>, r: seq<nat>)
    requires InBounds(v, rem) && Distinct(rem) && p < |rem|
    requires forall q | 0 <= q < |rem| && rem[q] != rem[p] :: Ahead(v, rem[p], rem[q])
    requires forall a | 0 <= a < |tail| :: tail[a] in Without(rem, p)
    requires InBounds(v, tail)
    requires forall a, b | 0 <= a < b < |tail| :: Ahead(v, tail[a], tail[b])
    requires forall a, q | 0 <= a < |tail| && 0 <= q < |rem| - 1 && Without(rem, p)[q] !in tail ::
               Ahead(v, tail[a], Without(rem, p)[q])
    requires r == [rem[p]] + tail
    ensures forall a | 0 <= a < |r| :: r[a] in rem
    ensures forall a, b | 0 <= a < b < |r| :: Ahead(v, r[a], r[b])
    ensures forall a, q | 0 <= a < |r| && 0 <= q < |rem| && rem[q] !in r :: Ahead(v, r[a], rem[q])
  {
    TailOfRest(rem, p, tail);
    StepOrdered(v, rem, p, tail, r);
    StepAhead(v, rem, p, tail, r);
  }

  /** Entries taken from `rem` without position `p` are entries of `rem`
      other than `rem[p]`. */
  lemma TailOfRest(rem: seq<nat>, p: nat, tail: seq<nat>)
    requires Distinct(rem) && p < |rem|
    requires forall a | 0 <= a < |tail| :: tail[a] in Without(rem, p)
    ensures forall a | 0 <= a < |tail| :: tail[a] in rem && tail[a] != rem[p]
  {
    var rest := Without(rem, p);
    forall a | 0 <= a < |tail| ensures tail[a] in rem && tail[a] != rem[p] {
      assert tail[a] in rest;
      var q :| 0 <= q < |rest| && rest[q] == tail[a];
      assert rest[q] == if q < p then rem[q] else rem[q + 1];
    }
  }

  lemma StepOrdered(v: seq<real>, rem: seq<nat>, p: nat, tail: seq<nat>, r: seq<nat>)
    requires InBounds(v, rem) && p < |rem| && InBounds(v, tail)
    requires forall q | 0 <= q < |rem| && rem[q] != rem[p] :: Ahead(v, rem[p], rem[q])
    requires forall a | 0 <= a < |tail| :: tail[a] in rem && tail[a] != rem[p]
    requires forall a, b | 0 <= a < b < |tail| :: Ahead(v, tail[a], tail[b])
    requires r == [rem[p]] + tail
    ensures forall a | 0 <= a < |r| :: r[a] in rem
    ensures forall a, b | 0 <= a < b < |r| :: Ahead(v, r[a], r[b])
  {
    forall a | 0 <= a < |r| ensures r[a] in rem {
      if a > 0 {
        assert r[a] == tail[a - 1];
      }
    }
    forall a, b | 0 <= a < b < |r| ensures Ahead(v, r[a], r[b]) {
      assert r[b] == tail[b - 1];
      if a == 0 {
        var q :| 0 <= q < |rem| && rem[q] == tail[b - 1];
      } else {
        assert r[a] == tail[a - 1];
      }
    }
  }

  lemma StepAhead(v: seq<real>, rem: seq<nat>, p: nat, tail: seq<nat>, r: seq<nat>)
    requires InBounds(v, rem) && p < |rem| && InBounds(v, tail)
    requires forall q | 0 <= q < |rem| && rem[q] != rem[p] :: Ahead(v, rem[p], rem[q])
    requires forall a, q | 0 <= a < |tail| && 0 <= q < |rem| - 1 && Without(rem, p)[q] !in tail ::
               Ahead(v, tail[a], Without(rem, p)[q])
    requires r == [rem[p]] + tail
    ensures forall a, q | 0 <= a < |r| && 0 <= q < |rem| && rem[q] !in r :: Ahead(v, r[a], rem[q])
  {
    var rest := Without(rem, p);
    forall a, q | 0 <= a < |r| && 0 <= q < |rem| && rem[q] !in r
      ensures Ahead(v, r[a], rem[q])
    {
      assert q != p;
      var q' := if q < p then q else q - 1;
      assert rest[q'] == rem[q];
      if a > 0 {
        assert r[a] == tail[a - 1];
      }
    }
  }

  function Range(n: nat): (r: seq<nat>)
    ensures |r| == n && forall i | 0 <= i < n :: r[i] == i
  {
    seq(n, i => i)
  }

  /** The indices `jax.lax.top_k(v, k)` returns. */
  function TopKIndices(v: seq<real>, k: nat): (idx: seq<nat>)
    requires k <= |v|
    ensures IsTopK(v, k, idx)
  {
    var all := Range(|v|);
    var r := SelectBest(v, all, k);
    forall a, i | 0 <= a < k && 0 <= i < |v| && i !in r ensures Ahead(v, r[a], i) {
      assert all[i] == i;
    }
    r
  }

  /** The values `jax.lax.top_k(v, k)` returns: the scores at the chosen
      positions, best first. */
  function TopKValues(v: seq<real>, k: nat): (r: seq<real>)
    requires k <= |v|
    ensures |r| == k
    ensures forall a, b | 0 <= a < b < k :: r[a] >= r[b]
    ensures forall a, i | 0 <= a < k && 0 <= i < |v| && i !in TopKIndices(v, k) :: v[i] <= r[a]
  {
    var idx := TopKIndices(v, k);
    seq(k, a requires 0 <= a < k => v[idx[a]])
  }

  /** Only one index sequence meets IsTopK: the ranking order fixes the
      result completely, ties included. */
  lemma {:induction false} TopKUnique(v: seq<real>, k: nat, x: seq<nat>, y: seq<nat>)
    requires IsTopK(v, k, x) && IsTopK(v, k, y)
    ensures x == y
  {
    if x != y {
      var a := FirstDifference(x, y);
      RanksAhead(v, k, x, y, a);
      RanksAhead(v, k, y, x, a);
      assert false;
    }
  }

  /** The first position at which two sequences of the same length differ. */
  lemma FirstDifference(x: seq<nat>, y: seq<nat>) returns (a: nat)
    requires |x| == |y| && x != y
    ensures a < |x| && x[a] != y[a] && forall c | 0 <= c < a :: x[c] == y[c]
  {
    var e :| 0 <= e < |x| && x[e] != y[e];
    a := 0;
    while a < e && x[a] == y[a]
      invariant 0 <= a <= e
      invariant forall c | 0 <= c < a :: x[c] == y[c]
    {
      a := a + 1;
    }
  }

  /** At the first position where two top-k lists differ, the second list's
      entry ranks ahead of the first list's. */
  lemma RanksAhead(v: seq<real>, k: nat, x: seq<nat>, y: seq<nat>, a: nat)
    requires IsTopK(v, k, x) && IsTopK(v, k, y)
    requires a < k && x[a] != y[a] && forall c | 0 <= c < a :: x[c] == y[c]
    ensures Ahead(v, y[a], x[a])
  {
    if x[a] in y {
      var b :| 0 <= b < k && y[b] == x[a];
      assert b > a;
    }
  }

  /** The `a`-th best value of `v` is at least entry `a` of `v` when the
      first `k` entries are already in non-increasing order: choosing the
      `k` best never ranks worse than keeping the first `k`. */
  lemma TopKNeverWorse(v: seq<real>, k: nat, idx: seq<nat>, a: nat)
    requires IsTopK(v, k, idx) && a < k <= |v|
    requires forall i, j | 0 <= i < j < k :: v[i] >= v[j]
    ensures v[idx[a]] >= v[a]
  {
    var p := Missing(idx[..a], a + 1);
    if p in idx {
      var c :| 0 <= c < k && idx[c] == p;
      assert c >= a;
    }
  }

  /** A sequence shorter than `m` misses some number below `m`. */
  lemma {:induction false} Missing(s: seq<nat>, m: nat) returns (p: nat)
    requires |s| < m
    ensures p < m && p !in s
    decreases m
  {
    if m - 1 !in s {
      p := m - 1;
    } else {
      var i :| 0 <= i < |s| && s[i] == m - 1;
      var rest := Without(s, i);
      p := Missing(rest, m - 1);
      assert forall q | 0 <= q < |s| && q != i :: s[q] == rest[if q < i then q else q - 1];
    }
  }
}
