/** Small value types and sequence helpers shared by the beam-search and
    stacking models: the tensor operations they use (repeat, concatenate,
    reshape) stated on nested sequences. */
module Common {

  datatype Option<T> = None | Some(value: T)

  datatype Result<T, E> = Success(value: T) | Failure(error: E)

  /** `n` copies of `x` (what `jnp.repeat` does to a single element). */
  function Replicate<T>(x: T, n: nat): (r: seq<T>)
    ensures |r| == n
    ensures forall i | 0 <= i < n :: r[i] == x
  {
    seq(n, _ => x)
  }

  /** Concatenation of a sequence of sequences (a reshape that merges the
      two leading axes). */
  function Flatten<T>(s: seq<seq<T>>): seq<T>
  {
    if s == [] then [] else s[0] + Flatten(s[1..])
  }

  /** All rows of `s` have length `d`. */
  predicate Uniform<T>(s: seq<seq<T>>, d: nat)
  {
    forall i | 0 <= i < |s| :: |s[i]| == d
  }

  lemma {:induction false} FlattenLength<T>(s: seq<seq<T>>, d: nat)
    requires Uniform(s, d)
    ensures |Flatten(s)| == |s| * d
  {
    if s != [] {
      FlattenLength(s[1..], d);
    }
  }

  /** Element `k` of row `i` sits at position `i * d + k` of the flattened
      sequence. */
  lemma {:induction false} FlattenAt<T>(s: seq<seq<T>>, d: nat, i: nat, k: nat)
    requires Uniform(s, d)
    requires i < |s| && k < d
    ensures |Flatten(s)| == |s| * d
    ensures i * d + k < |Flatten(s)|
    ensures Flatten(s)[i * d + k] == s[i][k]
  {
    FlattenLength(s, d);
    if i > 0 {
      FlattenAt(s[1..], d, i - 1, k);
      assert (i - 1) * d + k + d == i * d + k;
    }
  }

  /** FlattenAt for every row and column at once. */
  lemma FlattenGrid<T>(s: seq<seq<T>>, d: nat)
    requires Uniform(s, d)
    ensures |Flatten(s)| == |s| * d
    ensures forall i, k | 0 <= i < |s| && 0 <= k < d ::
              i * d + k < |Flatten(s)| && Flatten(s)[i * d + k] == s[i][k]
  {
    FlattenLength(s, d);
    forall i, k | 0 <= i < |s| && 0 <= k < d
      ensures i * d + k < |Flatten(s)| && Flatten(s)[i * d + k] == s[i][k]
    {
      FlattenAt(s, d, i, k);
    }
  }

  /** Row `i` of `s` is the slice `[i * d, (i + 1) * d)` of the flattened
      sequence. */
  lemma FlattenSlice<T>(s: seq<seq<T>>, d: nat, i: nat)
    requires Uniform(s, d)
    requires i < |s|
    ensures |Flatten(s)| == |s| * d
    ensures (i + 1) * d <= |Flatten(s)|
    ensures Flatten(s)[i * d .. (i + 1) * d] == s[i]
  {
    FlattenLength(s, d);
    assert (i + 1) * d <= |s| * d by {
      assert i + 1 <= |s|;
      MulMono(i + 1, |s|, d);
    }
    forall k | 0 <= k < d
      ensures Flatten(s)[i * d .. (i + 1) * d][k] == s[i][k]
    {
      FlattenAt(s, d, i, k);
    }
  }

  lemma MulMono(a: nat, b: nat, d: nat)
    requires a <= b
    ensures a * d <= b * d
  {
  }

  /** `jnp.reshape` of a flat sequence into `rows` rows of `cols` elements. */
  function Reshape<T>(s: seq<T>, rows: nat, cols: nat): (r: seq<seq<T>>)
    requires |s| == rows * cols
    ensures |r| == rows && Uniform(r, cols)
    decreases rows
  {
    if rows == 0 then []
    else
      assert rows * cols == (rows - 1) * cols + cols;
      [s[..cols]] + Reshape(s[cols..], rows - 1, cols)
  }

  /** Reshaping a flattened uniform sequence gives the rows back. */
  lemma {:induction false} ReshapeFlatten<T>(s: seq<seq<T>>, d: nat)
    requires Uniform(s, d)
    ensures |Flatten(s)| == |s| * d
    ensures Reshape(Flatten(s), |s|, d) == s
  {
    FlattenLength(s, d);
    if s != [] {
      ReshapeFlatten(s[1..], d);
      assert Flatten(s)[..d] == s[0];
      assert Flatten(s)[d..] == Flatten(s[1..]);
    }
  }

  /** Element `j` of row `i` of a reshape is element `i * cols + j` of the
      flat sequence. */
  lemma {:induction false} ReshapeAt<T>(s: seq<T>, rows: nat, cols: nat, i: nat, j: nat)
    requires |s| == rows * cols && i < rows && j < cols
    ensures i * cols + j < |s| && Reshape(s, rows, cols)[i][j] == s[i * cols + j]
    decreases i
  {
    var r := Reshape(s, rows, cols);
    assert rows * cols == (rows - 1) * cols + cols;
    var tail := s[cols..];
    assert r == [s[..cols]] + Reshape(tail, rows - 1, cols);
    if i == 0 {
      assert r[0] == s[..cols];
    } else {
      ReshapeAt(tail, rows - 1, cols, i - 1, j);
      var k := (i - 1) * cols + j;
      assert i * cols + j == k + cols;
      assert r[i] == Reshape(tail, rows - 1, cols)[i - 1];
      assert tail[k] == s[k + cols];
    }
  }

  /** `jnp.repeat(s, n, axis=0)`: every element of `s` repeated `n` times in
      place. */
  function RepeatEach<T>(s: seq<T>, n: nat): (r: seq<T>)
  {
    Flatten(seq(|s|, i requires 0 <= i < |s| => Replicate(s[i], n)))
  }

  lemma RepeatEachAt<T>(s: seq<T>, n: nat, i: nat, j: nat)
    requires i < |s| && j < n
    ensures |RepeatEach(s, n)| == |s| * n
    ensures i * n + j < |RepeatEach(s, n)|
    ensures RepeatEach(s, n)[i * n + j] == s[i]
  {
    var rows := seq(|s|, i requires 0 <= i < |s| => Replicate(s[i], n));
    assert Uniform(rows, n);
    FlattenAt(rows, n, i, j);
  }

  /** A position below `m * n` splits into a quotient below `m` and a
      remainder below `n`. */
  lemma DivSplit(p: nat, n: nat, m: nat)
    requires p < m * n
    ensures n >= 1 && p / n < m && p % n < n && p / n * n + p % n == p
  {
    if p / n >= m {
      MulMono(m, p / n, n);
    }
  }

  /** Position `p` of the repeat is element `p / n`. */
  lemma RepeatEachPos<T>(s: seq<T>, n: nat, p: nat)
    requires p < |s| * n
    ensures n >= 1 && p / n < |s| && p < |RepeatEach(s, n)| && RepeatEach(s, n)[p] == s[p / n]
  {
    DivSplit(p, n, |s|);
    RepeatEachAt(s, n, p / n, p % n);
  }

  lemma RepeatEachLength<T>(s: seq<T>, n: nat)
    ensures |RepeatEach(s, n)| == |s| * n
  {
    var rows := seq(|s|, i requires 0 <= i < |s| => Replicate(s[i], n));
    assert Uniform(rows, n);
    FlattenLength(rows, n);
  }

  /** RepeatEachPos for every position at once. */
  lemma RepeatEachGrid<T>(s: seq<T>, n: nat)
    ensures |RepeatEach(s, n)| == |s| * n
    ensures forall p | 0 <= p < |s| * n :: n >= 1 && p / n < |s| && RepeatEach(s, n)[p] == s[p / n]
  {
    RepeatEachLength(s, n);
    forall p | 0 <= p < |s| * n ensures n >= 1 && p / n < |s| && RepeatEach(s, n)[p] == s[p / n] {
      RepeatEachPos(s, n, p);
    }
  }

  /** Python's index normalisation: a negative index counts from the end. */
  function PyIndex(i: int, n: nat): int
  {
    if i < 0 then i + n else i
  }
}
