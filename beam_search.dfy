/** Vanilla beam search: the bookkeeping around the model. Finished
    hypotheses are merged into the k best by normalised score, the decode
    state and the output buffer are shuffled along the beam axis, and a loop
    over an explicit loop-state record writes one output column per step.
    The model and the numeric helpers the loop calls are parameters. */
module BeamSearch {
  import opened Common
  import opened TopK

  /** The `1e9` that beam search subtracts to keep a hypothesis from winning. */
  const Penalty: real := 1000000000.0

  predicate IsGrid<T>(g: seq<seq<T>>, rows: nat, cols: nat)
  {
    |g| == rows && Uniform(g, cols)
  }

  predicate IsGrid3<T>(g: seq<seq<seq<T>>>, a: nat, b: nat, c: nat)
  {
    |g| == a && forall i | 0 <= i < a :: IsGrid(g[i], b, c)
  }

  // ---------------------------------------------------------------------
  // update_topk_scores_with_eos
  // ---------------------------------------------------------------------

  /** One batch row of a DecodeInfo tuple: per hypothesis its ids, its
      decode length, its raw score and its length-normalised score (the
      order the code unpacks them in). */
  datatype Hyps = Hyps(ids: seq<seq<int>>, lengths: seq<int>, scores: seq<real>, norms: seq<real>)

  predicate HypsShaped(h: Hyps, n: nat)
  {
    |h.ids| == n && |h.lengths| == n && |h.scores| == n && |h.norms| == n
  }

  /** `jnp.concatenate` of every field along the beam axis. */
  function Append(a: Hyps, b: Hyps): (r: Hyps)
    ensures HypsShaped(a, |a.norms|) && HypsShaped(b, |b.norms|) ==>
              HypsShaped(r, |a.norms| + |b.norms|)
  {
    Hyps(a.ids + b.ids, a.lengths + b.lengths, a.scores + b.scores, a.norms + b.norms)
  }

  /** Entry `j` of `r` is entry `idx[j]` of `all`, all four fields together. */
  predicate TakesRows(r: Hyps, all: Hyps, idx: seq<nat>)
    requires HypsShaped(all, |all.norms|) && HypsShaped(r, |idx|) && InBounds(all.norms, idx)
  {
    forall j | 0 <= j < |idx| ::
      && r.ids[j] == all.ids[idx[j]]
      && r.lengths[j] == all.lengths[idx[j]]
      && r.scores[j] == all.scores[idx[j]]
      && r.norms[j] == all.norms[idx[j]]
  }

  /** `r` holds the `k` entries of `all` that rank best by normalised score,
      best first, each with its own ids, length and raw score. */
  ghost predicate SelectedFrom(r: Hyps, all: Hyps, k: nat)
    requires HypsShaped(all, |all.norms|)
  {
    HypsShaped(r, k) && exists idx :: IsTopK(all.norms, k, idx) && TakesRows(r, all, idx)
  }

  /** `update_topk_scores_with_eos` on one batch row: top-k of the
      concatenated normalised scores, the other fields gathered at the same
      positions by the one-hot contraction. */
  function MergeRow(e: Hyps, c: Hyps): (r: Hyps)
    requires HypsShaped(e, |e.norms|) && HypsShaped(c, |c.norms|)
    ensures SelectedFrom(r, Append(e, c), |e.norms|)
    ensures forall a, b | 0 <= a < b < |e.norms| :: r.norms[a] >= r.norms[b]
  {
    var all := Append(e, c);
    var k := |e.norms|;
    var idx := TopKIndices(all.norms, k);
    var r := Hyps(seq(k, j requires 0 <= j < k => all.ids[idx[j]]),
                  seq(k, j requires 0 <= j < k => all.lengths[idx[j]]),
                  seq(k, j requires 0 <= j < k => all.scores[idx[j]]),
                  TopKValues(all.norms, k));
    assert TakesRows(r, all, idx);
    r
  }

  /** A row's finished scores already sorted best first (as the loop keeps
      them) never get worse in the merge: entry `a` of the result is at
      least entry `a` of the finished row. */
  lemma MergeNeverWorse(e: Hyps, c: Hyps)
    requires HypsShaped(e, |e.norms|) && HypsShaped(c, |c.norms|)
    requires forall a, b | 0 <= a < b < |e.norms| :: e.norms[a] >= e.norms[b]
    ensures forall a | 0 <= a < |e.norms| :: MergeRow(e, c).norms[a] >= e.norms[a]
  {
    var all := Append(e, c);
    var k := |e.norms|;
    var r := MergeRow(e, c);
    var idx :| IsTopK(all.norms, k, idx) && TakesRows(r, all, idx);
    assert forall i | 0 <= i < k :: all.norms[i] == e.norms[i];
    forall a | 0 <= a < k
      ensures r.norms[a] >= e.norms[a]
    {
      TopKNeverWorse(all.norms, k, idx, a);
    }
  }

  /** Only one row meets SelectedFrom: the merge result is determined by the
      scores, ties included. */
  lemma MergeUnique(r1: Hyps, r2: Hyps, all: Hyps, k: nat)
    requires HypsShaped(all, |all.norms|)
    requires SelectedFrom(r1, all, k) && SelectedFrom(r2, all, k)
    ensures r1 == r2
  {
    var x :| IsTopK(all.norms, k, x) && TakesRows(r1, all, x);
    var y :| IsTopK(all.norms, k, y) && TakesRows(r2, all, y);
    TopKUnique(all.norms, k, x, y);
    assert r1.ids == r2.ids;
    assert r1.lengths == r2.lengths;
    assert r1.scores == r2.scores;
    assert r1.norms == r2.norms;
  }

  /** A whole DecodeInfo tuple: each field a batch of rows. */
  datatype DecodeInfo = DecodeInfo(ids: seq<seq<seq<int>>>, lengths: seq<seq<int>>,
                                   scores: seq<seq<real>>, norms: seq<seq<real>>)

  predicate InfoShaped(h: DecodeInfo, batch: nat, n: nat)
  {
    && |h.ids| == batch && |h.lengths| == batch && |h.scores| == batch && |h.norms| == batch
    && forall b | 0 <= b < batch ::
         |h.ids[b]| == n && |h.lengths[b]| == n && |h.scores[b]| == n && |h.norms[b]| == n
  }

  function Row(h: DecodeInfo, b: nat): (r: Hyps)
    requires b < |h.ids| && b < |h.lengths| && b < |h.scores| && b < |h.norms|
  {
    Hyps(h.ids[b], h.lengths[b], h.scores[b], h.norms[b])
  }

  /** The size of the beam axis of a tuple (`shape[1]`). */
  function Beams(h: DecodeInfo): nat
  {
    if h.norms == [] then 0 else |h.norms[0]|
  }

  /** `update_topk_scores_with_eos(end_hyps, cur_hyps)`: every batch row
      keeps the `k` best of its `k` finished and `m` new hypotheses, where
      `k` is the beam size of `end_hyps`. */
  function UpdateTopkScoresWithEos(end: DecodeInfo, cur: DecodeInfo): (r: DecodeInfo)
    requires InfoShaped(end, |end.norms|, Beams(end))
    requires InfoShaped(cur, |end.norms|, Beams(cur))
    ensures InfoShaped(r, |end.norms|, Beams(end))
    ensures forall b | 0 <= b < |end.norms| ::
              SelectedFrom(Row(r, b), Append(Row(end, b), Row(cur, b)), Beams(end))
    ensures forall b, a, c | 0 <= b < |end.norms| && 0 <= a < c < Beams(end) ::
              r.norms[b][a] >= r.norms[b][c]
  {
    var batch := |end.norms|;
    var rows := seq(batch, b requires 0 <= b < batch => MergeRow(Row(end, b), Row(cur, b)));
    Columns(rows)
  }

  /** The batch of rows `rows` as one tuple of batched fields. */
  function Columns(rows: seq<Hyps>): (r: DecodeInfo)
    ensures |r.ids| == |rows| && |r.lengths| == |rows| && |r.scores| == |rows| && |r.norms| == |rows|
    ensures forall b | 0 <= b < |rows| :: Row(r, b) == rows[b]
  {
    DecodeInfo(seq(|rows|, b requires 0 <= b < |rows| => rows[b].ids),
               seq(|rows|, b requires 0 <= b < |rows| => rows[b].lengths),
               seq(|rows|, b requires 0 <= b < |rows| => rows[b].scores),
               seq(|rows|, b requires 0 <= b < |rows| => rows[b].norms))
  }

  /** Every merged hypothesis is one of the inputs, whole: a property that
      holds of every finished and every new hypothesis holds of the merge. */
  lemma MergeKeeps(r: Hyps, all: Hyps, k: nat, q: (seq<int>, int) -> bool)
    requires HypsShaped(all, |all.norms|) && SelectedFrom(r, all, k)
    requires forall i | 0 <= i < |all.norms| :: q(all.ids[i], all.lengths[i])
    ensures forall j | 0 <= j < k :: q(r.ids[j], r.lengths[j])
  {
    var idx :| IsTopK(all.norms, k, idx) && TakesRows(r, all, idx);
    forall j | 0 <= j < k ensures q(r.ids[j], r.lengths[j]) {
      assert r.ids[j] == all.ids[idx[j]] && r.lengths[j] == all.lengths[idx[j]];
    }
  }

  /** A two-beam row: finished norms [5, 3] merged with new norms [9, 1]
      keeps the new 9 and then the finished 5, each with its own ids. */
  lemma MergeExample()
    ensures MergeRow(Hyps([[1], [2]], [4, 4], [-1.0, -2.0], [5.0, 3.0]),
                     Hyps([[3], [4]], [5, 5], [-3.0, -4.0], [9.0, 1.0]))
            == Hyps([[3], [1]], [5, 4], [-3.0, -1.0], [9.0, 5.0])
  {
    var e := Hyps([[1], [2]], [4, 4], [-1.0, -2.0], [5.0, 3.0]);
    var c := Hyps([[3], [4]], [5, 5], [-3.0, -4.0], [9.0, 1.0]);
    var all := Append(e, c);
    var want := Hyps([[3], [1]], [5, 4], [-3.0, -1.0], [9.0, 5.0]);
    var idx: seq<nat> := [2, 0];
    assert all.norms == [5.0, 3.0, 9.0, 1.0];
    assert forall a, i | 0 <= a < 2 && 0 <= i < 4 && i !in idx :: Ahead(all.norms, idx[a], i) by {
      forall a, i | 0 <= a < 2 && 0 <= i < 4 && i !in idx ensures Ahead(all.norms, idx[a], i) {
        assert i == 1 || i == 3;
      }
    }
    assert IsTopK(all.norms, 2, idx);
    assert TakesRows(want, all, idx);
    MergeUnique(MergeRow(e, c), want, all, 2);
  }

  // ---------------------------------------------------------------------
  // shuffle_state and broadcast_beam_dim
  // ---------------------------------------------------------------------

  /** A decode-state value as `shuffle_state` sees it: not a tensor, a
      tensor of rank 0 or 1, or a tensor of rank at least two whose leading
      axes are batch and beam (`E` stands for the rest of its shape). */
  datatype StateLeaf<E> = NotTensor(value: E) | Scalar(value: E) | Vector(items: seq<E>)
                        | Tensor(rows: seq<seq<E>>)

  /** `hypId` has one row per batch row and points inside that row. */
  predicate BeamIndices<E>(rows: seq<seq<E>>, hypId: seq<seq<int>>)
  {
    |hypId| == |rows| &&
    forall b, j | 0 <= b < |rows| && 0 <= j < |hypId[b]| :: 0 <= hypId[b][j] < |rows[b]|
  }

  /** `shuffle_state(x, hyp_id)`: a `jnp.take` along the beam axis for each
      batch row; values of rank below two pass through. */
  function ShuffleState<E>(x: StateLeaf<E>, hypId: seq<seq<int>>): (r: StateLeaf<E>)
    requires x.Tensor? ==> BeamIndices(x.rows, hypId)
    ensures r.Tensor? == x.Tensor?
    ensures r.Tensor? ==>
              |r.rows| == |x.rows| && forall b | 0 <= b < |r.rows| :: |r.rows[b]| == |hypId[b]|
  {
    match x
    case Tensor(rows) =>
      Tensor(seq(|rows|, b requires 0 <= b < |rows| =>
        seq(|hypId[b]|, j requires 0 <= j < |hypId[b]| => rows[b][hypId[b][j]])))
    case _ => x
  }

  /** Values of rank below two come back unchanged; a tensor's row `b`, beam
      `j` is its row `b`, beam `hypId[b][j]`, so nothing from another batch
      row and nothing new appears. */
  lemma ShuffleGathers<E>(x: StateLeaf<E>, hypId: seq<seq<int>>)
    requires x.Tensor? ==> BeamIndices(x.rows, hypId)
    ensures !x.Tensor? ==> ShuffleState(x, hypId) == x
    ensures x.Tensor? ==>
              forall b, j | 0 <= b < |x.rows| && 0 <= j < |hypId[b]| ::
                && ShuffleState(x, hypId).rows[b][j] == x.rows[b][hypId[b][j]]
                && ShuffleState(x, hypId).rows[b][j] in x.rows[b]
  {
  }

  /** `hypId` followed by `next`: beam `j` of row `b` ends up holding beam
      `hypId[b][next[b][j]]`. */
  function ComposeIds(hypId: seq<seq<int>>, next: seq<seq<int>>): (r: seq<seq<int>>)
    requires |next| == |hypId|
    requires forall b, j | 0 <= b < |next| && 0 <= j < |next[b]| :: 0 <= next[b][j] < |hypId[b]|
  {
    seq(|next|, b requires 0 <= b < |next| =>
      seq(|next[b]|, j requires 0 <= j < |next[b]| => hypId[b][next[b][j]]))
  }

  /** Two shuffles are one shuffle by the composed ids. */
  lemma ShuffleCompose<E>(x: StateLeaf<E>, hypId: seq<seq<int>>, next: seq<seq<int>>)
    requires x.Tensor? && BeamIndices(x.rows, hypId)
    requires BeamIndices(ShuffleState(x, hypId).rows, next)
    ensures BeamIndices(x.rows, ComposeIds(hypId, next))
    ensures ShuffleState(ShuffleState(x, hypId), next) == ShuffleState(x, ComposeIds(hypId, next))
  {
    var y := ShuffleState(x, hypId);
    var h := ComposeIds(hypId, next);
    var lhs := ShuffleState(y, next);
    var rhs := ShuffleState(x, h);
    forall b | 0 <= b < |x.rows| ensures lhs.rows[b] == rhs.rows[b] {
      forall j | 0 <= j < |next[b]| ensures lhs.rows[b][j] == rhs.rows[b][j] {
        assert lhs.rows[b][j] == y.rows[b][next[b][j]];
      }
    }
    assert lhs.rows == rhs.rows;
  }

  /** The identity ids `0 .. beam-1` in every row. */
  function IdentityIds<E>(rows: seq<seq<E>>): (r: seq<seq<int>>)
    ensures BeamIndices(rows, r)
  {
    seq(|rows|, b requires 0 <= b < |rows| => seq(|rows[b]|, j => j))
  }

  lemma ShuffleIdentity<E>(x: StateLeaf<E>)
    requires x.Tensor?
    ensures ShuffleState(x, IdentityIds(x.rows)) == x
  {
    var r := ShuffleState(x, IdentityIds(x.rows));
    forall b | 0 <= b < |x.rows| ensures r.rows[b] == x.rows[b] {
    }
  }

  /** `broadcast_beam_dim(x, 1, beam_size)`: each batch row repeated
      `beam_size` times along a new beam axis. */
  function BroadcastBeamDim<E>(x: seq<E>, beam: nat): (r: seq<seq<E>>)
    ensures IsGrid(r, |x|, beam)
    ensures forall b, j | 0 <= b < |x| && 0 <= j < beam :: r[b][j] == x[b]
  {
    seq(|x|, b requires 0 <= b < |x| => Replicate(x[b], beam))
  }

  /** Shuffling a broadcast value leaves it a broadcast: every beam of a
      batch row already holds the same thing. */
  lemma ShuffleBroadcast<E>(x: seq<E>, beam: nat, hypId: seq<seq<int>>, k: nat)
    requires BeamIndices(BroadcastBeamDim(x, beam), hypId)
    requires forall b | 0 <= b < |hypId| :: |hypId[b]| == k
    ensures ShuffleState(Tensor(BroadcastBeamDim(x, beam)), hypId) == Tensor(BroadcastBeamDim(x, k))
  {
    var r := ShuffleState(Tensor(BroadcastBeamDim(x, beam)), hypId);
    forall b | 0 <= b < |x| ensures r.rows[b] == BroadcastBeamDim(x, k)[b] {
      forall j | 0 <= j < k ensures r.rows[b][j] == x[b] {
        assert r.rows[b][j] == BroadcastBeamDim(x, beam)[b][hypId[b][j]];
      }
    }
  }

  // ---------------------------------------------------------------------
  // The state transforms on a cache leaf whose batch axis is the first
  // ---------------------------------------------------------------------

  /** `_broadcast_state_fn`: `jnp.repeat(x, beam_size, axis=batch_dim)`. */
  function BroadcastStateFn<E>(x: seq<E>, beam: nat): (r: seq<E>)
    ensures |r| == |x| * beam
    ensures forall p | 0 <= p < |r| :: beam >= 1 && p / beam < |x| && r[p] == x[p / beam]
  {
    RepeatEachGrid(x, beam);
    RepeatEach(x, beam)
  }

  /** Repeating along the batch axis is the beam broadcast with batch and
      beam axes merged. */
  lemma BroadcastStateFnIsBroadcast<E>(x: seq<E>, beam: nat)
    ensures |BroadcastStateFn(x, beam)| == |x| * beam
    ensures Reshape(BroadcastStateFn(x, beam), |x|, beam) == BroadcastBeamDim(x, beam)
  {
    var rows := seq(|x|, i requires 0 <= i < |x| => Replicate(x[i], beam));
    assert rows == BroadcastBeamDim(x, beam);
    ReshapeFlatten(rows, beam);
  }

  /** `_shuffle_state_fn`: the batch axis split into batch and beam,
      `shuffle_state`, and the two axes merged again. */
  function ShuffleStateFn<E>(x: seq<E>, beam: nat, hypId: seq<seq<int>>): (r: seq<E>)
    requires |x| == |hypId| * beam
    requires forall b, j | 0 <= b < |hypId| && 0 <= j < |hypId[b]| :: 0 <= hypId[b][j] < beam
    requires forall b | 0 <= b < |hypId| :: |hypId[b]| == beam
    ensures |r| == |x|
  {
    var split := Reshape(x, |hypId|, beam);
    var shuffled := ShuffleState(Tensor(split), hypId).rows;
    assert Uniform(shuffled, beam);
    FlattenLength(shuffled, beam);
    Flatten(shuffled)
  }

  /** On the merged axis, position `b * beam + j` receives position
      `b * beam + hypId[b][j]`. */
  lemma ShuffleStateFnAt<E>(x: seq<E>, beam: nat, hypId: seq<seq<int>>, b: nat, j: nat)
    requires |x| == |hypId| * beam
    requires forall b, j | 0 <= b < |hypId| && 0 <= j < |hypId[b]| :: 0 <= hypId[b][j] < beam
    requires forall b | 0 <= b < |hypId| :: |hypId[b]| == beam
    requires b < |hypId| && j < beam
    ensures b * beam + j < |x| && b * beam + hypId[b][j] < |x|
    ensures ShuffleStateFn(x, beam, hypId)[b * beam + j] == x[b * beam + hypId[b][j]]
  {
    var split := Reshape(x, |hypId|, beam);
    var shuffled := ShuffleState(Tensor(split), hypId).rows;
    assert Uniform(shuffled, beam);
    FlattenAt(shuffled, beam, b, j);
    ReshapeAt(x, |hypId|, beam, b, hypId[b][j]);
  }

  // ---------------------------------------------------------------------
  // The model and the helpers beam_search calls
  // ---------------------------------------------------------------------

  /** The transforms beam search hands to `transform_state_fn`. */
  datatype StateTransform =
    | PadState(maxDecodeSteps: nat)                        // decoder_utils.pad_state_fn
    | BroadcastState(beamSize: nat)                        // _broadcast_state_fn
    | ShuffleBeams(beamSize: nat, hypId: seq<seq<int>>)    // _shuffle_state_fn

  /** One call into the model. */
  datatype ModelCall =
    | FPropCall(prefixIds: seq<seq<int>>, prefixPaddings: seq<seq<int>>)
    | TransformCall(transform: StateTransform)
    | ExtendStepCall(ids: seq<int>, segmentPos: seq<int>)

  /** The parts of `two_stage_topk`'s result that beam search uses. */
  datatype TopkChoice = TopkChoice(topkIndices: seq<seq<seq<int>>>, finalValues: seq<seq<real>>,
                                   finalIndices: seq<seq<int>>)

  /** The model's entry points over a decode cache of type `C`, and the
      helpers from other modules, as plain functions. */
  datatype Ops<!C> = Ops(
    fprop: (C, seq<seq<int>>, seq<seq<int>>) -> C,
    transformState: (C, StateTransform) -> C,
    extendStep: (C, seq<int>, seq<int>) -> (C, seq<seq<real>>),
    logSoftmax: seq<real> -> seq<real>,
    lengthNorm: (int, real) -> real,
    twoStageTopk: (seq<seq<seq<real>>>, seq<seq<real>>, int) -> TopkChoice,
    gatherOutputId: (seq<seq<seq<int>>>, seq<seq<int>>) -> seq<seq<int>>,
    leftAlign: (seq<seq<int>>, seq<int>, int) -> seq<seq<int>>)

  predicate SameShape<T, U>(x: seq<seq<T>>, y: seq<seq<U>>)
  {
    |x| == |y| && forall i | 0 <= i < |x| :: |x[i]| == |y[i]|
  }

  predicate TopkShaped(t: TopkChoice, batch: nat, beam: nat)
  {
    && IsGrid(t.finalValues, batch, beam)
    && IsGrid(t.finalIndices, batch, beam)
    && forall b, j | 0 <= b < batch && 0 <= j < beam :: 0 <= t.finalIndices[b][j] < beam * beam
  }

  /** The shapes beam search relies on: one row of `vocab` logits per id,
      log-softmax keeps its length, the length norm of a positive length is
      not zero, the top-k indices address the `beam * beam` candidates, and
      gathering and left-aligning keep shapes. */
  ghost predicate Conforms<C(!new)>(ops: Ops<C>, beam: nat, vocab: nat)
  {
    && (forall cache: C, ids: seq<int>, pos: seq<int> ::
          IsGrid(ops.extendStep(cache, ids, pos).1, |ids|, vocab))
    && (forall row: seq<real> :: |ops.logSoftmax(row)| == |row|)
    && (forall n: int, alpha: real | n >= 1 :: ops.lengthNorm(n, alpha) != 0.0)
    && (forall lp: seq<seq<seq<real>>>, hs: seq<seq<real>>, eos: int ::
          TopkShaped(ops.twoStageTopk(lp, hs, eos), |hs|, beam))
    && (forall ti: seq<seq<seq<int>>>, fi: seq<seq<int>> :: SameShape(ops.gatherOutputId(ti, fi), fi))
    && (forall ids: seq<seq<int>>, lens: seq<int>, p: int :: SameShape(ops.leftAlign(ids, lens, p), ids))
  }

  /** The model object: its decode cache, changed in place by every call,
      and the calls made so far. */
  class DecodeModel<C> {
    var cache: C
    ghost var calls: seq<ModelCall>

    constructor (initial: C)
      ensures cache == initial && calls == []
    {
      cache := initial;
      calls := [];
    }

    /** `fprop_fn(model, prefix_ids, prefix_paddings)`. */
    method FProp(ops: Ops<C>, ids: seq<seq<int>>, paddings: seq<seq<int>>)
      modifies this
      ensures cache == ops.fprop(old(cache), ids, paddings)
      ensures calls == old(calls) + [FPropCall(ids, paddings)]
    {
      cache := ops.fprop(cache, ids, paddings);
      calls := calls + [FPropCall(ids, paddings)];
    }

    /** `transform_state_fn(model, fn)`. */
    method TransformState(ops: Ops<C>, t: StateTransform)
      modifies this
      ensures cache == ops.transformState(old(cache), t)
      ensures calls == old(calls) + [TransformCall(t)]
    {
      cache := ops.transformState(cache, t);
      calls := calls + [TransformCall(t)];
    }

    /** `extend_step_fn(model, ids, segment_pos)`: next-step logits. */
    method ExtendStep(ops: Ops<C>, ids: seq<int>, pos: seq<int>) returns (logits: seq<seq<real>>)
      modifies this
      ensures (cache, logits) == ops.extendStep(old(cache), ids, pos)
      ensures calls == old(calls) + [ExtendStepCall(ids, pos)]
    {
      var next := ops.extendStep(cache, ids, pos);
      cache := next.0;
      logits := next.1;
      calls := calls + [ExtendStepCall(ids, pos)];
    }
  }

  // ---------------------------------------------------------------------
  // Loop-state setup
  // ---------------------------------------------------------------------

  /** What one decode call fixes: batch and beam size, the prefix width
      `max_prefix_len`, `seq_len`, the vocabulary size, `eos_id`, the
      length-norm exponent, the prefix ids and the per-row prefix lengths. */
  datatype Setup = Setup(batch: nat, beam: nat, prefixLen: nat, seqLen: nat, vocab: nat,
                         eosId: int, alpha: real, prefixIds: seq<seq<int>>,
                         prefixLengths: seq<int>)

  predicate SetupOK(s: Setup)
  {
    && IsGrid(s.prefixIds, s.batch, s.prefixLen) && |s.prefixLengths| == s.batch
    && s.prefixLen <= s.seqLen && s.beam >= 1 && 0 <= s.eosId < s.vocab
  }

  /** `jnp.sum(1 - paddings)` over one row. */
  function PrefixLength(paddings: seq<int>): (r: int)
    ensures (forall t | 0 <= t < |paddings| :: paddings[t] == 0 || paddings[t] == 1) ==> 0 <= r <= |paddings|
  {
    if paddings == [] then 0 else (1 - paddings[0]) + PrefixLength(paddings[1..])
  }

  /** With 0/1 paddings the prefix length counts the unpadded positions. */
  lemma {:induction false} PrefixLengthCountsZeros(paddings: seq<int>)
    requires forall t | 0 <= t < |paddings| :: paddings[t] == 0 || paddings[t] == 1
    ensures PrefixLength(paddings) == multiset(paddings)[0]
  {
    if paddings != [] {
      PrefixLengthCountsZeros(paddings[1..]);
      assert paddings == [paddings[0]] + paddings[1..];
      assert multiset(paddings) == multiset([paddings[0]]) + multiset(paddings[1..]);
    }
  }

  function Grid<T>(rows: nat, cols: nat, v: T): (r: seq<seq<T>>)
    ensures IsGrid(r, rows, cols)
    ensures forall b, j | 0 <= b < rows && 0 <= j < cols :: r[b][j] == v
  {
    Replicate(Replicate(v, cols), rows)
  }

  /** `jax.lax.dynamic_update_slice` at the origin: the leading part of
      every innermost row replaced by `update`. */
  function DynamicUpdateSlice(base: seq<seq<seq<int>>>, update: seq<seq<seq<int>>>): (r: seq<seq<seq<int>>>)
    requires SameShape(update, base)
    requires forall b, j | 0 <= b < |base| && 0 <= j < |base[b]| :: |update[b][j]| <= |base[b][j]|
    ensures SameShape(r, base)
    ensures forall b, j | 0 <= b < |base| && 0 <= j < |base[b]| ::
              |r[b][j]| == |base[b][j]| &&
              forall t | 0 <= t < |base[b][j]| ::
                r[b][j][t] == if t < |update[b][j]| then update[b][j][t] else base[b][j][t]
  {
    seq(|base|, b requires 0 <= b < |base| =>
      seq(|base[b]|, j requires 0 <= j < |base[b]| =>
        update[b][j] + base[b][j][|update[b][j]|..]))
  }

  function AddAll(v: seq<int>, c: int): (r: seq<int>)
  {
    seq(|v|, i requires 0 <= i < |v| => v[i] + c)
  }

  /** The prefix lengths with the beam axis broadcast in and batch and beam
      merged, as `segment_pos` lays them out. */
  function FlatPrefixLengths(s: Setup): seq<int>
  {
    Flatten(BroadcastBeamDim(s.prefixLengths, s.beam))
  }

  /** A row of the output buffer `step` steps in: the prefix, then decoded
      ids up to column `step`, zeros after it. */
  predicate BufferRowOK(s: Setup, prefix: seq<int>, row: seq<int>, step: int)
  {
    && |row| == s.seqLen
    && prefix <= row
    && forall t | 0 <= t < |row| && step < t :: row[t] == 0
  }

  /** A finished hypothesis of decode length `len`: the prefix, zeros from
      column `len` on, and, when it stopped before `seq_len`, `eos_id` at
      column `len - 1` after the prefix. */
  predicate EndRowOK(s: Setup, prefix: seq<int>, row: seq<int>, len: int)
  {
    && |row| == s.seqLen
    && prefix <= row
    && s.prefixLen <= len <= s.seqLen
    && (forall t | 0 <= t < |row| && len <= t :: row[t] == 0)
    && (len < s.seqLen ==> s.prefixLen < len && row[len - 1] == s.eosId)
  }

  /** The fields of the record `val` that the loop carries, as one value. */
  datatype LoopVal = LoopVal(outputIds: seq<seq<seq<int>>>, endIds: seq<seq<seq<int>>>,
                             endDecodeLengths: seq<seq<int>>, endScores: seq<seq<real>>,
                             endScoresNorm: seq<seq<real>>, hypScores: seq<seq<real>>,
                             step: int, segmentPos: seq<int>)

  function Ends(v: LoopVal): DecodeInfo
  {
    DecodeInfo(v.endIds, v.endDecodeLengths, v.endScores, v.endScoresNorm)
  }

  /** The loop invariant: shapes; `step` between `max_prefix_len - 1` and
      `seq_len - 1`; `segment_pos` the prefix lengths advanced by the steps
      taken; every buffer row and every finished row well formed; and the
      finished rows sorted by normalised score. */
  ghost predicate Inv(s: Setup, v: LoopVal)
  {
    && SetupOK(s)
    && IsGrid3(v.outputIds, s.batch, s.beam, s.seqLen)
    && InfoShaped(Ends(v), s.batch, s.beam)
    && IsGrid(v.hypScores, s.batch, s.beam)
    && s.prefixLen - 1 <= v.step <= s.seqLen - 1
    && v.segmentPos == AddAll(FlatPrefixLengths(s), v.step - s.prefixLen)
    && (forall b, j | 0 <= b < s.batch && 0 <= j < s.beam ::
          BufferRowOK(s, s.prefixIds[b], v.outputIds[b][j], v.step))
    && (forall b, j | 0 <= b < s.batch && 0 <= j < s.beam ::
          EndRowOK(s, s.prefixIds[b], v.endIds[b][j], v.endDecodeLengths[b][j]))
    && (forall b, a, c | 0 <= b < s.batch && 0 <= a < c < s.beam ::
          v.endScoresNorm[b][a] >= v.endScoresNorm[b][c])
  }

  /** The record `val` that the loop carries. */
  class LoopState {
    var outputIds: seq<seq<seq<int>>>
    var endIds: seq<seq<seq<int>>>
    var endDecodeLengths: seq<seq<int>>
    var endScores: seq<seq<real>>
    var endScoresNorm: seq<seq<real>>
    var hypScores: seq<seq<real>>
    var step: int
    var segmentPos: seq<int>

    function Val(): LoopVal
      reads this
    {
      LoopVal(outputIds, endIds, endDecodeLengths, endScores, endScoresNorm, hypScores, step, segmentPos)
    }

    function EndInfo(): DecodeInfo
      reads this
    {
      DecodeInfo(endIds, endDecodeLengths, endScores, endScoresNorm)
    }

    ghost predicate Valid(s: Setup)
      reads this
    {
      Inv(s, Val())
    }

    /** The set-up before the loop: a zero buffer with every beam's prefix
        written at the start, all finished scores at `-1e9`, beam `j`'s
        hypothesis score `-j * 1e9`, `step = max_prefix_len - 1`,
        `segment_pos` the prefix lengths minus one, and every finished
        length `seq_len`. */
    constructor (s: Setup)
      requires SetupOK(s)
      ensures Valid(s)
      ensures forall b, j, t | 0 <= b < s.batch && 0 <= j < s.beam && 0 <= t < s.seqLen ::
                outputIds[b][j][t] == if t < s.prefixLen then s.prefixIds[b][t] else 0
      ensures endIds == outputIds
      ensures endScores == Grid(s.batch, s.beam, -Penalty) && endScoresNorm == endScores
      ensures forall b, j | 0 <= b < s.batch && 0 <= j < s.beam ::
                hypScores[b][j] == -(j as real) * Penalty
      ensures endDecodeLengths == Grid(s.batch, s.beam, s.seqLen as int)
      ensures step == s.prefixLen - 1
      ensures segmentPos == AddAll(FlatPrefixLengths(s), -1)
      ensures Val() == InitialVal(s)
    {
      var zeros := Grid(s.batch, s.beam, Replicate(0, s.seqLen));
      var prefix := BroadcastBeamDim(s.prefixIds, s.beam);
      var buffer := DynamicUpdateSlice(zeros, prefix);
      outputIds := buffer;
      endScores := Grid(s.batch, s.beam, 0.0 - Penalty);
      endScoresNorm := Grid(s.batch, s.beam, 0.0 - Penalty);
      hypScores := InitialHypScores(s.batch, s.beam);
      endIds := buffer;
      step := s.prefixLen - 1;
      segmentPos := AddAll(FlatPrefixLengths(s), -1);
      endDecodeLengths := Grid(s.batch, s.beam, s.seqLen as int);
      new;
      InitialOK(s);
    }

    /** `loop_body`, in place: the record and the model's cache become
        what LoopBody computes, and the model sees one extend step and one
        beam shuffle. */
    method Body<C(!new)>(s: Setup, ops: Ops<C>, model: DecodeModel<C>)
      returns (hypId: seq<seq<int>>, newIds: seq<seq<int>>)
      requires Valid(s) && Conforms(ops, s.beam, s.vocab) && step < s.seqLen - 1
      modifies this, model
      ensures Valid(s)
      ensures var it := LoopBody(s, ops, old(Val()), old(model.cache));
              && Val() == it.next && hypId == it.hypId && newIds == it.newIds
              && model.cache == ops.transformState(it.cache, ShuffleBeams(s.beam, it.hypId))
              && model.calls == old(model.calls) + [ExtendStepCall(it.lastIds, old(segmentPos)),
                                                    TransformCall(ShuffleBeams(s.beam, it.hypId))]
      ensures step == old(step) + 1 && OneIteration(old(model.calls), model.calls, s.beam)
    {
      ghost var v := Val();
      ghost var it := LoopBody(s, ops, v, model.cache);
      var choice := Score(s, ops, model);
      HypIdsInRange(choice, s.batch, s.beam);
      hypId := HypIds(choice.finalIndices, s.beam);
      model.TransformState(ops, ShuffleBeams(s.beam, hypId));
      newIds := ops.gatherOutputId(choice.topkIndices, choice.finalIndices);
      AdvanceBuffer(s, hypId, newIds);
      StepKeepsInv(s, v, it.eosNorms, choice.finalValues, hypId, newIds);
    }

    /** One pass of the loop, as `nn.while_loop` runs `loop_body`: the
        record and the cache become what Step computes. */
    method Iterate<C(!new)>(s: Setup, ops: Ops<C>, model: DecodeModel<C>)
      requires Valid(s) && Conforms(ops, s.beam, s.vocab) && step < s.seqLen - 1
      modifies this, model
      ensures Valid(s) && step == old(step) + 1 && OneIteration(old(model.calls), model.calls, s.beam)
      ensures (Val(), model.cache) == Step(s, ops, old(Val()), old(model.cache))
    {
      var _, _ := Body(s, ops, model);
    }

    /** The first half of `loop_body`: the extend step on column `step`,
        the log-probabilities, the merge of this step's eos candidates into
        the finished rows, and the top-k choice, whose values become the
        hypothesis scores. */
    method Score<C(!new)>(s: Setup, ops: Ops<C>, model: DecodeModel<C>) returns (choice: TopkChoice)
      requires Ready(s, Val()) && Conforms(ops, s.beam, s.vocab)
      modifies this, model
      ensures var sc := Scoring(s, ops, old(Val()), old(model.cache));
              && choice == sc.choice
              && Val() == WithFinished(old(Val()), Finished(s, old(Val()), sc.eosNorms)).(hypScores := choice.finalValues)
              && model.cache == sc.cache
              && model.calls == old(model.calls) + [ExtendStepCall(sc.lastIds, old(segmentPos))]
    {
      var last := LastIds(s, outputIds, step);
      var logits := model.ExtendStep(ops, last, segmentPos);
      var logprobs := LogProbs(ops, s, logits);
      var eosNorms := EosNorms(ops, s, hypScores, logprobs, step);
      RecordFinished(s, eosNorms);
      choice := ops.twoStageTopk(logprobs, hypScores, s.eosId);
      hypScores := choice.finalValues;
    }

    /** `val.end_ids, val.end_decode_lengths, val.end_scores,
        val.end_scores_norm = update_topk_scores_with_eos(...)`: the
        finished rows merged with this step's eos candidates. */
    method RecordFinished(s: Setup, eosNorms: seq<seq<real>>)
      requires FinishShaped(s, Val(), eosNorms)
      modifies this
      ensures Val() == WithFinished(old(Val()), Finished(s, old(Val()), eosNorms))
    {
      var cand := EosCandidates(s, outputIds, hypScores, eosNorms, step);
      EosCandidatesShaped(s, outputIds, hypScores, eosNorms, step);
      BeamsOf(EndInfo(), s.batch, s.beam);
      BeamsOf(cand, s.batch, s.beam);
      var merged := UpdateTopkScoresWithEos(EndInfo(), cand);
      endIds, endDecodeLengths, endScores, endScoresNorm := merged.ids, merged.lengths, merged.scores, merged.norms;
    }

    /** `val.output_ids = shuffle_state(val.output_ids, hyp_id)`, the new
        ids written at column `step + 1`, and `step` and `segment_pos`
        advanced by one. */
    method AdvanceBuffer(s: Setup, hypId: seq<seq<int>>, newIds: seq<seq<int>>)
      requires AdvanceShaped(s, Val(), hypId, newIds)
      modifies this
      ensures Val() == Advanced(s, old(Val()), hypId, newIds)
    {
      assert BeamIndices(outputIds, hypId);
      var shuffled := ShuffleState(Tensor(outputIds), hypId).rows;
      outputIds := SetColumn(shuffled, step + 1, newIds);
      step := step + 1;
      segmentPos := AddAll(segmentPos, 1);
    }
  }

  /** `zeros - arange(beam_size) * 1e9`: every hypothesis but the first of
      each batch entry starts penalised. */
  function InitialHypScores(batch: nat, beam: nat): (r: seq<seq<real>>)
    ensures IsGrid(r, batch, beam)
    ensures forall b, j | 0 <= b < batch && 0 <= j < beam :: r[b][j] == -(j as real) * Penalty
  {
    seq(batch, _ => seq(beam, j => 0.0 - (j as real) * Penalty))
  }

  /** The record before the loop, as the constructor of LoopState builds it. */
  function InitialVal(s: Setup): LoopVal
    requires SetupOK(s)
  {
    var buffer := DynamicUpdateSlice(Grid(s.batch, s.beam, Replicate(0, s.seqLen)),
                                     BroadcastBeamDim(s.prefixIds, s.beam));
    LoopVal(buffer, buffer, Grid(s.batch, s.beam, s.seqLen as int), Grid(s.batch, s.beam, 0.0 - Penalty),
            Grid(s.batch, s.beam, 0.0 - Penalty), InitialHypScores(s.batch, s.beam), s.prefixLen - 1,
            AddAll(FlatPrefixLengths(s), -1))
  }

  /** The initial record meets the loop invariant, and its buffer holds each
      row's prefix followed by zeros. */
  lemma InitialOK(s: Setup)
    requires SetupOK(s)
    ensures Inv(s, InitialVal(s))
    ensures forall b, j, t | 0 <= b < s.batch && 0 <= j < s.beam && 0 <= t < s.seqLen ::
              InitialVal(s).outputIds[b][j][t] == if t < s.prefixLen then s.prefixIds[b][t] else 0
    ensures forall b, j | 0 <= b < s.batch && 0 <= j < s.beam :: InitialVal(s).endScoresNorm[b][j] == -Penalty
  {
    var v := InitialVal(s);
    var prefix := BroadcastBeamDim(s.prefixIds, s.beam);
    forall b, j | 0 <= b < s.batch && 0 <= j < s.beam
      ensures v.outputIds[b][j] == s.prefixIds[b] + Replicate(0, s.seqLen - s.prefixLen)
    {
      assert prefix[b][j] == s.prefixIds[b];
    }
  }

  // ---------------------------------------------------------------------
  // One iteration of the loop body, value by value
  // ---------------------------------------------------------------------

  /** `jnp.reshape(output_ids[:, :, step], (-1))`: the ids at column `step`
      (a negative `step` counts from the end), batch and beam merged. */
  function LastIds(s: Setup, buf: seq<seq<seq<int>>>, step: int): (r: seq<int>)
    requires SetupOK(s) && IsGrid3(buf, s.batch, s.beam, s.seqLen)
    requires -(s.seqLen as int) <= step < s.seqLen
    ensures |r| == s.batch * s.beam
    ensures forall b, j | 0 <= b < s.batch && 0 <= j < s.beam ::
              b * s.beam + j < |r| && r[b * s.beam + j] == buf[b][j][PyIndex(step, s.seqLen)]
  {
    var col := PyIndex(step, s.seqLen);
    var g := seq(s.batch, b requires 0 <= b < s.batch =>
               seq(s.beam, j requires 0 <= j < s.beam => buf[b][j][col]));
    assert Uniform(g, s.beam);
    assert forall b, j | 0 <= b < s.batch && 0 <= j < s.beam :: g[b][j] == buf[b][j][col];
    FlattenGrid(g, s.beam);
    Flatten(g)
  }

  lemma LogitRows(logits: seq<seq<real>>, batch: nat, beam: nat, vocab: nat)
    requires IsGrid(logits, batch * beam, vocab)
    ensures forall b, j | 0 <= b < batch && 0 <= j < beam :: |Reshape(logits, batch, beam)[b][j]| == vocab
  {
    forall b, j | 0 <= b < batch && 0 <= j < beam
      ensures |Reshape(logits, batch, beam)[b][j]| == vocab
    {
      ReshapeAt(logits, batch, beam, b, j);
    }
  }

  /** `log_softmax` of the logits reshaped to batch x beam x vocab. */
  function LogProbs<C(!new)>(ops: Ops<C>, s: Setup, logits: seq<seq<real>>): (r: seq<seq<seq<real>>>)
    requires Conforms(ops, s.beam, s.vocab) && IsGrid(logits, s.batch * s.beam, s.vocab)
    ensures IsGrid3(r, s.batch, s.beam, s.vocab)
  {
    var l3 := Reshape(logits, s.batch, s.beam);
    LogitRows(logits, s.batch, s.beam, s.vocab);
    seq(s.batch, b requires 0 <= b < s.batch =>
      seq(s.beam, j requires 0 <= j < s.beam => ops.logSoftmax(l3[b][j])))
  }

  /** The length-normalised score of ending every hypothesis with `eos_id`
      now: its score plus the eos log-probability, divided by the length
      norm of the decoded length `step + 2 - max_prefix_len`. */
  function EosNorms<C(!new)>(ops: Ops<C>, s: Setup, hypScores: seq<seq<real>>,
                             logprobs: seq<seq<seq<real>>>, step: int): (r: seq<seq<real>>)
    requires Conforms(ops, s.beam, s.vocab) && SetupOK(s)
    requires IsGrid(hypScores, s.batch, s.beam) && IsGrid3(logprobs, s.batch, s.beam, s.vocab)
    requires s.prefixLen - 1 <= step
    ensures IsGrid(r, s.batch, s.beam)
    ensures forall b, j | 0 <= b < s.batch && 0 <= j < s.beam ::
              r[b][j] * ops.lengthNorm(step + 2 - s.prefixLen, s.alpha)
              == hypScores[b][j] + logprobs[b][j][s.eosId]
  {
    var norm := ops.lengthNorm(step + 2 - s.prefixLen, s.alpha);
    seq(s.batch, b requires 0 <= b < s.batch =>
      seq(s.beam, j requires 0 <= j < s.beam => (hypScores[b][j] + logprobs[b][j][s.eosId]) / norm))
  }

  /** `x.at[:, :, col].set(v)`. */
  function SetColumn(x: seq<seq<seq<int>>>, col: nat, v: seq<seq<int>>): (r: seq<seq<seq<int>>>)
    requires SameShape(v, x)
    requires forall b, j | 0 <= b < |x| && 0 <= j < |x[b]| :: col < |x[b][j]|
    ensures |r| == |x| && forall b | 0 <= b < |x| :: |r[b]| == |x[b]|
    ensures forall b, j | 0 <= b < |x| && 0 <= j < |x[b]| ::
              && |r[b][j]| == |x[b][j]| && r[b][j][col] == v[b][j]
              && forall t | 0 <= t < |x[b][j]| && t != col :: r[b][j][t] == x[b][j][t]
  {
    seq(|x|, b requires 0 <= b < |x| =>
      seq(|x[b]|, j requires 0 <= j < |x[b]| => x[b][j][col := v[b][j]]))
  }

  /** The hypotheses that end with `eos_id` at this step: the buffer with
      `eos_id` written at column `step + 1`, decode length `step + 2`, the
      hypothesis scores as raw scores and the eos scores as normalised ones. */
  function EosCandidates(s: Setup, buf: seq<seq<seq<int>>>, hypScores: seq<seq<real>>,
                         eosNorms: seq<seq<real>>, step: int): (r: DecodeInfo)
    requires SetupOK(s) && IsGrid3(buf, s.batch, s.beam, s.seqLen)
    requires 0 <= step + 1 < s.seqLen
    ensures r.scores == hypScores && r.norms == eosNorms
    ensures |r.ids| == |r.lengths| == s.batch
    ensures forall b | 0 <= b < s.batch :: |r.ids[b]| == |r.lengths[b]| == s.beam
    ensures forall b, j | 0 <= b < s.batch && 0 <= j < s.beam ::
              && r.lengths[b][j] == step + 2
              && |r.ids[b][j]| == s.seqLen && r.ids[b][j][step + 1] == s.eosId
              && forall t | 0 <= t < s.seqLen && t != step + 1 :: r.ids[b][j][t] == buf[b][j][t]
  {
    DecodeInfo(SetColumn(buf, step + 1, Grid(s.batch, s.beam, s.eosId)),
               Grid(s.batch, s.beam, step + 2), hypScores, eosNorms)
  }

  /** The eos candidates differ from the buffer in column `step + 1` only,
      which holds `eos_id`; their length is `step + 2`; and, the buffer rows
      being well formed, so are they as finished rows. */
  lemma EosCandidatesOK(s: Setup, buf: seq<seq<seq<int>>>, hypScores: seq<seq<real>>,
                        eosNorms: seq<seq<real>>, step: int)
    requires SetupOK(s) && IsGrid3(buf, s.batch, s.beam, s.seqLen)
    requires IsGrid(hypScores, s.batch, s.beam) && IsGrid(eosNorms, s.batch, s.beam)
    requires s.prefixLen - 1 <= step < s.seqLen - 1
    requires forall b, j | 0 <= b < s.batch && 0 <= j < s.beam ::
               BufferRowOK(s, s.prefixIds[b], buf[b][j], step)
    ensures InfoShaped(EosCandidates(s, buf, hypScores, eosNorms, step), s.batch, s.beam)
    ensures forall b, j | 0 <= b < s.batch && 0 <= j < s.beam ::
              var c := EosCandidates(s, buf, hypScores, eosNorms, step);
              && c.lengths[b][j] == step + 2
              && |c.ids[b][j]| == s.seqLen
              && c.ids[b][j][step + 1] == s.eosId
              && (forall t | 0 <= t < s.seqLen && t != step + 1 :: c.ids[b][j][t] == buf[b][j][t])
              && EndRowOK(s, s.prefixIds[b], c.ids[b][j], c.lengths[b][j])
  {
    var c := EosCandidates(s, buf, hypScores, eosNorms, step);
    forall b, j | 0 <= b < s.batch && 0 <= j < s.beam
      ensures c.lengths[b][j] == step + 2
      ensures EndRowOK(s, s.prefixIds[b], c.ids[b][j], c.lengths[b][j])
    {
      assert c.ids[b][j] == buf[b][j][step + 1 := s.eosId];
      assert s.prefixIds[b] <= c.ids[b][j] by {
        assert |s.prefixIds[b]| == s.prefixLen;
        forall t | 0 <= t < s.prefixLen ensures c.ids[b][j][t] == s.prefixIds[b][t] {
          assert buf[b][j][t] == s.prefixIds[b][t];
        }
      }
    }
  }

  /** `final_topk_indices // beam_size`: which old beam each new beam
      continues. */
  function HypIds(finalIndices: seq<seq<int>>, beam: nat): (r: seq<seq<int>>)
    requires beam >= 1
    ensures SameShape(r, finalIndices)
    ensures forall b, j | 0 <= b < |finalIndices| && 0 <= j < |finalIndices[b]| ::
              beam * r[b][j] <= finalIndices[b][j] < beam * r[b][j] + beam
  {
    seq(|finalIndices|, b requires 0 <= b < |finalIndices| =>
      seq(|finalIndices[b]|, j requires 0 <= j < |finalIndices[b]| => finalIndices[b][j] / beam))
  }

  lemma DivBelow(x: int, n: int)
    requires n >= 1 && 0 <= x < n * n
    ensures 0 <= x / n < n
  {
    if x / n >= n {
      MulMono(n, x / n, n);
    }
  }

  /** Candidate indices below `beam * beam` give beam ids below `beam`. */
  lemma HypIdsInRange(t: TopkChoice, batch: nat, beam: nat)
    requires beam >= 1 && TopkShaped(t, batch, beam)
    ensures IsGrid(HypIds(t.finalIndices, beam), batch, beam)
    ensures forall b, j | 0 <= b < batch && 0 <= j < beam ::
              0 <= HypIds(t.finalIndices, beam)[b][j] < beam
  {
    forall b, j | 0 <= b < batch && 0 <= j < beam
      ensures 0 <= HypIds(t.finalIndices, beam)[b][j] < beam
    {
      DivBelow(t.finalIndices[b][j], beam);
    }
  }

  /** The next buffer: the buffer shuffled by `hypId`, then column
      `step + 1` set to the new ids. Every row agrees with the old row it
      continues everywhere but that column, and stays well formed one step
      further on. */
  lemma NextBufferOK(s: Setup, buf: seq<seq<seq<int>>>, step: int, hypId: seq<seq<int>>,
                     newIds: seq<seq<int>>)
    requires SetupOK(s) && IsGrid3(buf, s.batch, s.beam, s.seqLen)
    requires s.prefixLen - 1 <= step < s.seqLen - 1
    requires IsGrid(hypId, s.batch, s.beam) && IsGrid(newIds, s.batch, s.beam)
    requires forall b, j | 0 <= b < s.batch && 0 <= j < s.beam :: 0 <= hypId[b][j] < s.beam
    requires forall b, j | 0 <= b < s.batch && 0 <= j < s.beam ::
               BufferRowOK(s, s.prefixIds[b], buf[b][j], step)
    ensures BeamIndices(buf, hypId)
    ensures IsGrid3(ShuffleState(Tensor(buf), hypId).rows, s.batch, s.beam, s.seqLen)
    ensures var next := SetColumn(ShuffleState(Tensor(buf), hypId).rows, step + 1, newIds);
            && IsGrid3(next, s.batch, s.beam, s.seqLen)
            && (forall b, j | 0 <= b < s.batch && 0 <= j < s.beam ::
                  && next[b][j][step + 1] == newIds[b][j]
                  && (forall t | 0 <= t < s.seqLen && t != step + 1 ::
                        next[b][j][t] == buf[b][hypId[b][j]][t])
                  && BufferRowOK(s, s.prefixIds[b], next[b][j], step + 1))
  {
    var shuffled := ShuffleState(Tensor(buf), hypId).rows;
    var next := SetColumn(shuffled, step + 1, newIds);
    forall b, j | 0 <= b < s.batch && 0 <= j < s.beam
      ensures next[b][j] == buf[b][hypId[b][j]][step + 1 := newIds[b][j]]
      ensures BufferRowOK(s, s.prefixIds[b], next[b][j], step + 1)
    {
      var old_ := buf[b][hypId[b][j]];
      assert shuffled[b][j] == old_;
      assert BufferRowOK(s, s.prefixIds[b], old_, step);
      assert s.prefixIds[b] <= next[b][j] by {
        assert |s.prefixIds[b]| == s.prefixLen;
        forall t | 0 <= t < s.prefixLen ensures next[b][j][t] == s.prefixIds[b][t] {
          assert old_[t] == s.prefixIds[b][t];
        }
      }
    }
  }

  /** Merging keeps the finished rows well formed: each merged row is a
      finished row or an eos candidate, with its own length. */
  lemma MergedOK(s: Setup, end: DecodeInfo, cand: DecodeInfo)
    requires SetupOK(s) && InfoShaped(end, s.batch, s.beam) && InfoShaped(cand, s.batch, s.beam)
    requires forall b, j | 0 <= b < s.batch && 0 <= j < s.beam ::
               EndRowOK(s, s.prefixIds[b], end.ids[b][j], end.lengths[b][j])
    requires forall b, j | 0 <= b < s.batch && 0 <= j < s.beam ::
               EndRowOK(s, s.prefixIds[b], cand.ids[b][j], cand.lengths[b][j])
    ensures InfoShaped(end, |end.norms|, Beams(end)) && InfoShaped(cand, |end.norms|, Beams(cand))
    ensures var r := UpdateTopkScoresWithEos(end, cand);
            && InfoShaped(r, s.batch, s.beam)
            && (forall b, j | 0 <= b < s.batch && 0 <= j < s.beam ::
                  EndRowOK(s, s.prefixIds[b], r.ids[b][j], r.lengths[b][j]))
            && (forall b, a, c | 0 <= b < s.batch && 0 <= a < c < s.beam :: r.norms[b][a] >= r.norms[b][c])
  {
    var r := UpdateTopkScoresWithEos(end, cand);
    forall b | 0 <= b < s.batch
      ensures forall j | 0 <= j < s.beam :: EndRowOK(s, s.prefixIds[b], r.ids[b][j], r.lengths[b][j])
    {
      assert Beams(end) == s.beam;
      var all := Append(Row(end, b), Row(cand, b));
      var q := (ids, len) => EndRowOK(s, s.prefixIds[b], ids, len);
      forall i | 0 <= i < |all.norms| ensures q(all.ids[i], all.lengths[i]) {
        if i >= s.beam {
          assert all.ids[i] == cand.ids[b][i - s.beam] && all.lengths[i] == cand.lengths[b][i - s.beam];
        }
      }
      MergeKeeps(Row(r, b), all, s.beam, q);
    }
  }

  /** The values the first half of an iteration computes from the record
      `v` and the cache: the ids fed to the model, the cache and logits it
      returns, the log-probabilities, the normalised eos scores and the
      top-k choice. */
  datatype Scores<C> = Scores(lastIds: seq<int>, cache: C, logits: seq<seq<real>>,
                              logprobs: seq<seq<seq<real>>>, eosNorms: seq<seq<real>>,
                              choice: TopkChoice)

  function Scoring<C(!new)>(s: Setup, ops: Ops<C>, v: LoopVal, cache: C): (sc: Scores<C>)
    requires Ready(s, v) && Conforms(ops, s.beam, s.vocab)
    ensures IsGrid(sc.eosNorms, s.batch, s.beam) && TopkShaped(sc.choice, s.batch, s.beam)
  {
    var last := LastIds(s, v.outputIds, v.step);
    var extended := ops.extendStep(cache, last, v.segmentPos);
    var logprobs := LogProbs(ops, s, extended.1);
    var eosNorms := EosNorms(ops, s, v.hypScores, logprobs, v.step);
    Scores(last, extended.0, extended.1, logprobs, eosNorms, ops.twoStageTopk(logprobs, v.hypScores, s.eosId))
  }

  /** The values one iteration computes: the scoring half, the beam ids,
      the new ids, and the next record. */
  datatype Iteration<C> = Iteration(lastIds: seq<int>, cache: C, eosNorms: seq<seq<real>>,
                                    choice: TopkChoice, hypId: seq<seq<int>>,
                                    newIds: seq<seq<int>>, next: LoopVal)

  /** `loop_body` as a function of the record and the cache. */
  function LoopBody<C(!new)>(s: Setup, ops: Ops<C>, v: LoopVal, cache: C): (it: Iteration<C>)
    requires Inv(s, v) && Conforms(ops, s.beam, s.vocab) && v.step < s.seqLen - 1
    ensures StepShaped(s, v, it.eosNorms, it.choice.finalValues, it.hypId, it.newIds)
    ensures it.next == Next(s, v, it.eosNorms, it.choice.finalValues, it.hypId, it.newIds)
    ensures Inv(s, it.next)
  {
    var sc := Scoring(s, ops, v, cache);
    HypIdsInRange(sc.choice, s.batch, s.beam);
    var hypId := HypIds(sc.choice.finalIndices, s.beam);
    var newIds := ops.gatherOutputId(sc.choice.topkIndices, sc.choice.finalIndices);
    StepKeepsInv(s, v, sc.eosNorms, sc.choice.finalValues, hypId, newIds);
    Iteration(sc.lastIds, sc.cache, sc.eosNorms, sc.choice, hypId, newIds,
              Next(s, v, sc.eosNorms, sc.choice.finalValues, hypId, newIds))
  }

  /** One pass of the loop: the record `loop_body` computes and the cache
      after its beam shuffle. A record outside the loop's invariant (one the
      loop never reaches) is left where it is, as is one with no pass due. */
  ghost function Step<C(!new)>(s: Setup, ops: Ops<C>, v: LoopVal, cache: C): (r: (LoopVal, C))
    ensures Inv(s, v) && Conforms(ops, s.beam, s.vocab) && v.step < s.seqLen - 1 ==>
              Inv(s, r.0) && r.0.step == v.step + 1
  {
    if Inv(s, v) && Conforms(ops, s.beam, s.vocab) && v.step < s.seqLen - 1 then
      var it := LoopBody(s, ops, v, cache);
      (it.next, ops.transformState(it.cache, ShuffleBeams(s.beam, it.hypId)))
    else (v, cache)
  }

  /** `n` passes of the loop from the record `v` and the cache. */
  ghost function Run<C(!new)>(s: Setup, ops: Ops<C>, v: LoopVal, cache: C, n: nat): (r: (LoopVal, C))
    ensures Inv(s, v) && Conforms(ops, s.beam, s.vocab) && v.step + n <= s.seqLen - 1 ==>
              Inv(s, r.0) && r.0.step == v.step + n
    decreases n
  {
    if n == 0 then (v, cache)
    else
      var next := Step(s, ops, v, cache);
      Run(s, ops, next.0, next.1, n - 1)
  }

  /** The whole loop: `seq_len - max_prefix_len` passes from the initial
      record, ending at `step = seq_len - 1`; as finished scores never get
      worse (RunNeverWorse), each is still at least the `-1e9` it starts at. */
  ghost function Decode<C(!new)>(s: Setup, ops: Ops<C>, cache: C): (r: (LoopVal, C))
    requires SetupOK(s) && Conforms(ops, s.beam, s.vocab)
    ensures Inv(s, r.0) && r.0.step == s.seqLen - 1
    ensures forall b, a | 0 <= b < s.batch && 0 <= a < s.beam :: r.0.endScoresNorm[b][a] >= -Penalty
  {
    InitialOK(s);
    RunNeverWorse(s, ops, InitialVal(s), cache, s.seqLen - s.prefixLen);
    Run(s, ops, InitialVal(s), cache, s.seqLen - s.prefixLen)
  }

  lemma BeamsOf(h: DecodeInfo, batch: nat, n: nat)
    requires InfoShaped(h, batch, n)
    ensures InfoShaped(h, |h.norms|, Beams(h))
    ensures batch > 0 ==> Beams(h) == n
  {
  }

  /** The shapes an iteration needs of the record, and that another
      iteration is due. */
  predicate Ready(s: Setup, v: LoopVal)
  {
    && SetupOK(s)
    && IsGrid3(v.outputIds, s.batch, s.beam, s.seqLen)
    && InfoShaped(Ends(v), s.batch, s.beam)
    && IsGrid(v.hypScores, s.batch, s.beam)
    && s.prefixLen - 1 <= v.step < s.seqLen - 1
  }

  /** The shapes the merge of one iteration needs. */
  predicate FinishShaped(s: Setup, v: LoopVal, eosNorms: seq<seq<real>>)
  {
    Ready(s, v) && IsGrid(eosNorms, s.batch, s.beam)
  }

  /** The shapes the buffer update of one iteration needs. */
  predicate AdvanceShaped(s: Setup, v: LoopVal, hypId: seq<seq<int>>, newIds: seq<seq<int>>)
  {
    && SetupOK(s)
    && IsGrid3(v.outputIds, s.batch, s.beam, s.seqLen)
    && s.prefixLen - 1 <= v.step < s.seqLen - 1
    && IsGrid(hypId, s.batch, s.beam) && IsGrid(newIds, s.batch, s.beam)
    && forall b, j | 0 <= b < s.batch && 0 <= j < s.beam :: 0 <= hypId[b][j] < s.beam
  }

  predicate StepShaped(s: Setup, v: LoopVal, eosNorms: seq<seq<real>>, hypScores: seq<seq<real>>,
                       hypId: seq<seq<int>>, newIds: seq<seq<int>>)
  {
    FinishShaped(s, v, eosNorms) && IsGrid(hypScores, s.batch, s.beam) && AdvanceShaped(s, v, hypId, newIds)
  }

  /** The finished rows after one iteration's merge. */
  function Finished(s: Setup, v: LoopVal, eosNorms: seq<seq<real>>): (r: DecodeInfo)
    requires FinishShaped(s, v, eosNorms)
    ensures InfoShaped(r, s.batch, s.beam)
  {
    var cand := EosCandidates(s, v.outputIds, v.hypScores, eosNorms, v.step);
    EosCandidatesShaped(s, v.outputIds, v.hypScores, eosNorms, v.step);
    BeamsOf(Ends(v), s.batch, s.beam);
    BeamsOf(cand, s.batch, s.beam);
    UpdateTopkScoresWithEos(Ends(v), cand)
  }

  function WithFinished(v: LoopVal, e: DecodeInfo): LoopVal
  {
    v.(endIds := e.ids, endDecodeLengths := e.lengths, endScores := e.scores, endScoresNorm := e.norms)
  }

  /** The record after the buffer update: shuffled by `hypId`, the new ids
      at column `step + 1`, `step` and `segment_pos` one further. */
  function Advanced(s: Setup, v: LoopVal, hypId: seq<seq<int>>, newIds: seq<seq<int>>): LoopVal
    requires AdvanceShaped(s, v, hypId, newIds)
  {
    assert BeamIndices(v.outputIds, hypId);
    v.(outputIds := SetColumn(ShuffleState(Tensor(v.outputIds), hypId).rows, v.step + 1, newIds),
       step := v.step + 1, segmentPos := AddAll(v.segmentPos, 1))
  }

  /** The record after one iteration: finished rows merged with the eos
      candidates, the new hypothesis scores, then the buffer update. */
  function Next(s: Setup, v: LoopVal, eosNorms: seq<seq<real>>, hypScores: seq<seq<real>>,
                hypId: seq<seq<int>>, newIds: seq<seq<int>>): (r: LoopVal)
    requires StepShaped(s, v, eosNorms, hypScores, hypId, newIds)
  {
    Advanced(s, WithFinished(v, Finished(s, v, eosNorms)).(hypScores := hypScores), hypId, newIds)
  }

  lemma EosCandidatesShaped(s: Setup, buf: seq<seq<seq<int>>>, hypScores: seq<seq<real>>,
                            eosNorms: seq<seq<real>>, step: int)
    requires SetupOK(s) && IsGrid3(buf, s.batch, s.beam, s.seqLen)
    requires IsGrid(hypScores, s.batch, s.beam) && IsGrid(eosNorms, s.batch, s.beam)
    requires 0 <= step + 1 < s.seqLen
    ensures InfoShaped(EosCandidates(s, buf, hypScores, eosNorms, step), s.batch, s.beam)
  {
  }

  /** One iteration keeps the loop invariant. */
  lemma StepKeepsInv(s: Setup, v: LoopVal, eosNorms: seq<seq<real>>, hypScores: seq<seq<real>>,
                     hypId: seq<seq<int>>, newIds: seq<seq<int>>)
    requires Inv(s, v) && StepShaped(s, v, eosNorms, hypScores, hypId, newIds)
    ensures Inv(s, Next(s, v, eosNorms, hypScores, hypId, newIds))
  {
    var r := Next(s, v, eosNorms, hypScores, hypId, newIds);
    EosCandidatesOK(s, v.outputIds, v.hypScores, eosNorms, v.step);
    MergedOK(s, Ends(v), EosCandidates(s, v.outputIds, v.hypScores, eosNorms, v.step));
    NextBufferOK(s, v.outputIds, v.step, hypId, newIds);
    assert r.segmentPos == AddAll(FlatPrefixLengths(s), r.step - s.prefixLen);
  }

  // ---------------------------------------------------------------------
  // beam_search
  // ---------------------------------------------------------------------

  datatype HParams = HParams(beamSize: nat, maxDecodeSteps: Option<nat>, eosId: int,
                             lengthNormAlpha: real)

  datatype DecodeError = MissingMaxDecodeSteps

  /** The returned map: `output_ids`, `scores`, `logprobs` and
      `decode_lengths`, with the `step` and `segment_pos` the loop left. */
  datatype DecodeOutput = DecodeOutput(outputIds: seq<seq<seq<int>>>, scores: seq<seq<real>>,
                                       logprobs: seq<seq<real>>, decodeLengths: seq<seq<int>>,
                                       step: int, segmentPos: seq<int>)

  /** The model calls of `n` loop iterations: each an extend step followed
      by a beam shuffle of the cache. */
  ghost predicate LoopTrace(t: seq<ModelCall>, beam: nat, n: nat)
    decreases n
  {
    if n == 0 then t == []
    else
      && |t| >= 2
      && t[|t| - 2].ExtendStepCall?
      && t[|t| - 1].TransformCall? && t[|t| - 1].transform.ShuffleBeams?
      && t[|t| - 1].transform.beamSize == beam
      && LoopTrace(t[..|t| - 2], beam, n - 1)
  }

  /** The trace of the loop read with the beam size and the number of
      passes that MakeSetup was given. */
  lemma TraceOfSteps(t: seq<ModelCall>, s: Setup, beam: nat, steps: nat)
    requires s.prefixLen <= s.seqLen
    requires LoopTrace(t, s.beam, s.seqLen - s.prefixLen)
    requires s.beam == beam && s.seqLen - s.prefixLen == steps
    ensures LoopTrace(t, beam, steps)
  {
  }

  lemma {:induction false} LoopTraceLength(t: seq<ModelCall>, beam: nat, n: nat)
    requires LoopTrace(t, beam, n)
    ensures |t| == 2 * n
    decreases n
  {
    if n > 0 {
      LoopTraceLength(t[..|t| - 2], beam, n - 1);
    }
  }

  /** The sizes and prefix lengths one decode call works with: the loop
      has `steps` passes to make, and the set-up is consistent exactly when
      the prefix is a `batch x max_prefix_len` grid, the beam size is
      positive and `eos_id` is a vocabulary entry. */
  function MakeSetup(prefixIds: seq<seq<int>>, prefixPaddings: seq<seq<int>>, maxPrefixLen: nat,
                     vocab: nat, hp: HParams, steps: nat): (s: Setup)
    requires |prefixPaddings| == |prefixIds|
    ensures s.batch == |prefixIds| && s.beam == hp.beamSize && s.prefixLen == maxPrefixLen
    ensures s.seqLen - s.prefixLen == steps
    ensures SetupOK(s) <==> IsGrid(prefixIds, |prefixIds|, maxPrefixLen) && hp.beamSize >= 1 && 0 <= hp.eosId < vocab
  {
    Setup(|prefixIds|, hp.beamSize, maxPrefixLen, steps + maxPrefixLen, vocab, hp.eosId,
          hp.lengthNormAlpha, prefixIds,
          seq(|prefixIds|, b requires 0 <= b < |prefixIds| => PrefixLength(prefixPaddings[b])))
  }

  /** `cond_func`: on a record that meets the invariant, the loop stops
      exactly at the last column of the buffer. */
  predicate Continue(s: Setup, v: LoopVal)
    ensures Inv(s, v) ==> (!Continue(s, v) <==> v.step == s.seqLen - 1)
  {
    v.step < s.seqLen - 1
  }

  /** `nn.while_loop(cond_func, loop_body, model, val)`: from
      `step = max_prefix_len - 1` the loop runs `seq_len - max_prefix_len`
      times, that is `max_decode_steps` times, and stops at
      `step = seq_len - 1`. */
  method WhileLoop<C(!new)>(s: Setup, ops: Ops<C>, model: DecodeModel<C>, val: LoopState,
                            ghost goal: (LoopVal, C))
    requires val.Valid(s) && val.step == s.prefixLen - 1 && Conforms(ops, s.beam, s.vocab)
    requires LeadsTo(s, ops, val.Val(), model.cache, goal)
    modifies val, model
    ensures val.Valid(s) && val.step == s.seqLen - 1
    ensures old(model.calls) <= model.calls
    ensures LoopTrace(model.calls[|old(model.calls)|..], s.beam, s.seqLen - s.prefixLen)
    ensures (val.Val(), model.cache) == goal
  {
    ghost var pre := model.calls;
    ghost var iterations: nat := 0;
    while Continue(s, val.Val())
      invariant val.Valid(s)
      invariant val.step == s.prefixLen - 1 + iterations
      invariant pre <= model.calls && LoopTrace(model.calls[|pre|..], s.beam, iterations)
      invariant LeadsTo(s, ops, val.Val(), model.cache, goal)
      decreases s.seqLen - 1 - val.step
    {
      Pass(s, ops, model, val, pre, iterations, goal);
      iterations := iterations + 1;
    }
    LeadsEnd(s, ops, val.Val(), model.cache, goal);
  }

  /** One pass of the loop, with what the loop keeps track of: the calls
      so far are those of `n + 1` iterations, and the passes still due lead
      to the same final record and cache. */
  method Pass<C(!new)>(s: Setup, ops: Ops<C>, model: DecodeModel<C>, val: LoopState,
                       ghost pre: seq<ModelCall>, ghost n: nat, ghost goal: (LoopVal, C))
    requires val.Valid(s) && Conforms(ops, s.beam, s.vocab) && val.step < s.seqLen - 1
    requires pre <= model.calls && LoopTrace(model.calls[|pre|..], s.beam, n)
    requires LeadsTo(s, ops, val.Val(), model.cache, goal)
    modifies val, model
    ensures val.Valid(s) && val.step == old(val.step) + 1
    ensures pre <= model.calls && LoopTrace(model.calls[|pre|..], s.beam, n + 1)
    ensures LeadsTo(s, ops, val.Val(), model.cache, goal)
  {
    ghost var before := model.calls;
    ghost var v, c := val.Val(), model.cache;
    val.Iterate(s, ops, model);
    TraceStep(pre, before, model.calls, s.beam, n);
    LeadsStep(s, ops, v, c, goal, val.Val(), model.cache);
  }

  /** From the record `v` and the cache `c`, the passes still due (until
      `step = seq_len - 1`) end in `goal`. */
  ghost predicate LeadsTo<C(!new)>(s: Setup, ops: Ops<C>, v: LoopVal, c: C, goal: (LoopVal, C))
  {
    && v.step <= s.seqLen - 1
    && forall n: nat | n == s.seqLen - 1 - v.step :: Run(s, ops, v, c, n) == goal
  }

  lemma LeadsStart<C(!new)>(s: Setup, ops: Ops<C>, v: LoopVal, c: C, n: nat)
    requires v.step + n == s.seqLen - 1
    ensures LeadsTo(s, ops, v, c, Run(s, ops, v, c, n))
  {
    forall m: nat | m == s.seqLen - 1 - v.step
      ensures Run(s, ops, v, c, m) == Run(s, ops, v, c, n)
    {
      assert m == n;
    }
  }

  /** One pass brings the goal one pass closer. */
  lemma LeadsStep<C(!new)>(s: Setup, ops: Ops<C>, v: LoopVal, c: C, goal: (LoopVal, C), v': LoopVal, c': C)
    requires Inv(s, v) && Conforms(ops, s.beam, s.vocab)
    requires LeadsTo(s, ops, v, c, goal) && v.step < s.seqLen - 1
    requires (v', c') == Step(s, ops, v, c)
    ensures LeadsTo(s, ops, v', c', goal)
  {
    var n: nat := s.seqLen - 1 - v.step;
    var m: nat := n - 1;
    assert Run(s, ops, v, c, n) == goal;
    RunStep(s, ops, v, c, n, m);
    assert Run(s, ops, v', c', m) == goal;
    forall k: nat | k == s.seqLen - 1 - v'.step
      ensures Run(s, ops, v', c', k) == goal
    {
      assert k == m;
    }
  }

  /** The first of `n` passes is a Step. */
  lemma RunStep<C(!new)>(s: Setup, ops: Ops<C>, v: LoopVal, c: C, n: nat, m: nat)
    requires n == m + 1
    ensures var next := Step(s, ops, v, c); Run(s, ops, v, c, n) == Run(s, ops, next.0, next.1, m)
  {
    assert n - 1 == m;
  }

  /** The merge of one iteration leaves every finished score at least where
      it was. */
  lemma FinishedNeverWorse(s: Setup, v: LoopVal, eosNorms: seq<seq<real>>)
    requires Inv(s, v) && FinishShaped(s, v, eosNorms)
    ensures forall b, a | 0 <= b < s.batch && 0 <= a < s.beam ::
              Finished(s, v, eosNorms).norms[b][a] >= v.endScoresNorm[b][a]
  {
    var cand := EosCandidates(s, v.outputIds, v.hypScores, eosNorms, v.step);
    EosCandidatesShaped(s, v.outputIds, v.hypScores, eosNorms, v.step);
    BeamsOf(Ends(v), s.batch, s.beam);
    var fin := Finished(s, v, eosNorms);
    forall b | 0 <= b < s.batch
      ensures forall a | 0 <= a < s.beam :: fin.norms[b][a] >= v.endScoresNorm[b][a]
    {
      assert Row(fin, b) == MergeRow(Row(Ends(v), b), Row(cand, b));
      MergeNeverWorse(Row(Ends(v), b), Row(cand, b));
    }
  }

  /** Finished scores never get worse from one pass to the next. */
  lemma StepNeverWorse<C(!new)>(s: Setup, ops: Ops<C>, v: LoopVal, c: C)
    requires Inv(s, v) && Conforms(ops, s.beam, s.vocab) && v.step < s.seqLen - 1
    ensures forall b, a | 0 <= b < s.batch && 0 <= a < s.beam ::
              Step(s, ops, v, c).0.endScoresNorm[b][a] >= v.endScoresNorm[b][a]
  {
    var it := LoopBody(s, ops, v, c);
    assert Step(s, ops, v, c).0.endScoresNorm == Finished(s, v, it.eosNorms).norms;
    FinishedNeverWorse(s, v, it.eosNorms);
  }

  /** Nor over any number of passes: every finished score of the record
      the loop reaches is at least the one it started from. */
  lemma {:induction false} RunNeverWorse<C(!new)>(s: Setup, ops: Ops<C>, v: LoopVal, c: C, n: nat)
    requires Inv(s, v) && Conforms(ops, s.beam, s.vocab) && v.step + n <= s.seqLen - 1
    ensures forall b, a | 0 <= b < s.batch && 0 <= a < s.beam ::
              Run(s, ops, v, c, n).0.endScoresNorm[b][a] >= v.endScoresNorm[b][a]
    decreases n
  {
    if n > 0 {
      var m: nat := n - 1;
      var next := Step(s, ops, v, c);
      RunStep(s, ops, v, c, n, m);
      StepNeverWorse(s, ops, v, c);
      RunNeverWorse(s, ops, next.0, next.1, m);
      var last := Run(s, ops, next.0, next.1, m).0;
      forall b, a | 0 <= b < s.batch && 0 <= a < s.beam
        ensures Run(s, ops, v, c, n).0.endScoresNorm[b][a] >= v.endScoresNorm[b][a]
      {
        assert last.endScoresNorm[b][a] >= next.0.endScoresNorm[b][a] >= v.endScoresNorm[b][a];
      }
    }
  }

  /** `r` is where the whole loop ends from the set-up record and `cache`;
      DecodesIsDecode shows this is exactly `r == Decode(s, ops, cache)`. */
  ghost predicate Decodes<C(!new)>(s: Setup, ops: Ops<C>, cache: C, r: (LoopVal, C))
    requires SetupOK(s)
  {
    LeadsTo(s, ops, InitialVal(s), cache, r)
  }

  lemma DecodesIsDecode<C(!new)>(s: Setup, ops: Ops<C>, cache: C, r: (LoopVal, C))
    requires SetupOK(s) && Conforms(ops, s.beam, s.vocab)
    ensures Decodes(s, ops, cache, r) <==> r == Decode(s, ops, cache)
  {
    InitialOK(s);
    LeadsStart(s, ops, InitialVal(s), cache, s.seqLen - s.prefixLen);
    assert s.seqLen - 1 - InitialVal(s).step == s.seqLen - s.prefixLen;
    if Decodes(s, ops, cache, r) {
      assert Run(s, ops, InitialVal(s), cache, s.seqLen - s.prefixLen) == r;
    }
  }

  /** With no passes left, the goal is where the loop stands. */
  lemma LeadsEnd<C(!new)>(s: Setup, ops: Ops<C>, v: LoopVal, c: C, goal: (LoopVal, C))
    requires LeadsTo(s, ops, v, c, goal) && v.step == s.seqLen - 1
    ensures goal == (v, c)
  {
    assert Run(s, ops, v, c, 0) == goal;
  }

  /** `after` is `before` followed by the calls of one iteration: an extend
      step and a beam shuffle of the cache. */
  ghost predicate OneIteration(before: seq<ModelCall>, after: seq<ModelCall>, beam: nat)
  {
    && |after| == |before| + 2 && before <= after
    && after[|before|].ExtendStepCall?
    && after[|before| + 1].TransformCall? && after[|before| + 1].transform.ShuffleBeams?
    && after[|before| + 1].transform.beamSize == beam
  }

  /** One more iteration's calls extend the trace of `n` iterations to one
      of `n + 1`. */
  lemma TraceStep(pre: seq<ModelCall>, before: seq<ModelCall>, after: seq<ModelCall>, beam: nat, n: nat)
    requires pre <= before && LoopTrace(before[|pre|..], beam, n)
    requires OneIteration(before, after, beam)
    ensures pre <= after && LoopTrace(after[|pre|..], beam, n + 1)
  {
    var tr := after[|pre|..];
    assert tr[..|tr| - 2] == before[|pre|..];
  }

  /** The returned map, built from the record the loop leaves: the finished
      rows left aligned and reshaped to batch x beam x `seq_len`, their
      normalised scores as both `scores` and `logprobs`, and their lengths. */
  function Output<C(!new)>(s: Setup, ops: Ops<C>, v: LoopVal): (r: DecodeOutput)
    requires Conforms(ops, s.beam, s.vocab) && SetupOK(s) && InfoShaped(Ends(v), s.batch, s.beam)
    requires forall b, j | 0 <= b < s.batch && 0 <= j < s.beam :: |v.endIds[b][j]| == s.seqLen
    ensures r.scores == v.endScoresNorm && r.logprobs == v.endScoresNorm
    ensures r.decodeLengths == v.endDecodeLengths
    ensures r.step == v.step && r.segmentPos == v.segmentPos
  {
    assert Uniform(v.endIds, s.beam);
    FlattenLength(v.endIds, s.beam);
    var aligned := ops.leftAlign(Flatten(v.endIds), FlatPrefixLengths(s), s.prefixLen);
    DecodeOutput(Reshape(aligned, s.batch, s.beam), v.endScoresNorm, v.endScoresNorm,
                 v.endDecodeLengths, v.step, v.segmentPos)
  }

  /** What the returned map promises once the loop invariant holds: every
      row of `output_ids` has `seq_len` ids, every decode length lies
      between `max_prefix_len` and `seq_len`, and the scores of each batch
      entry come best first. */
  lemma OutputWellFormed<C(!new)>(s: Setup, ops: Ops<C>, v: LoopVal)
    requires Conforms(ops, s.beam, s.vocab) && Inv(s, v)
    ensures var r := Output(s, ops, v);
      && IsGrid3(r.outputIds, s.batch, s.beam, s.seqLen)
      && (forall b, j | 0 <= b < s.batch && 0 <= j < s.beam ::
            s.prefixLen <= r.decodeLengths[b][j] <= s.seqLen)
      && (forall b, a, c | 0 <= b < s.batch && 0 <= a < c < s.beam :: r.scores[b][a] >= r.scores[b][c])
  {
    var r := Output(s, ops, v);
    assert Uniform(v.endIds, s.beam);
    FlattenLength(v.endIds, s.beam);
    var flat := Flatten(v.endIds);
    var aligned := ops.leftAlign(flat, FlatPrefixLengths(s), s.prefixLen);
    assert r.outputIds == Reshape(aligned, s.batch, s.beam);
    forall b, j | 0 <= b < s.batch && 0 <= j < s.beam ensures |r.outputIds[b][j]| == s.seqLen {
      ReshapeAt(aligned, s.batch, s.beam, b, j);
      FlattenAt(v.endIds, s.beam, b, j);
      assert EndRowOK(s, s.prefixIds[b], v.endIds[b][j], v.endDecodeLengths[b][j]);
    }
  }

  /** `nn.while_loop(cond_func, loop_body, val)` from the record the
      set-up writes: `seq_len - max_prefix_len` passes of `loop_body`,
      ending in the record and the cache that Decode computes. */
  method Loop<C(!new)>(s: Setup, ops: Ops<C>, model: DecodeModel<C>) returns (val: LoopState)
    requires SetupOK(s) && Conforms(ops, s.beam, s.vocab)
    modifies model
    ensures fresh(val) && old(model.calls) <= model.calls
    ensures LoopTrace(model.calls[|old(model.calls)|..], s.beam, s.seqLen - s.prefixLen)
    ensures val.Valid(s) && val.step == s.seqLen - 1
    ensures Decodes(s, ops, old(model.cache), (val.Val(), model.cache))
  {
    val := new LoopState(s);
    assert val.Val() == InitialVal(s);
    ghost var goal := Run(s, ops, InitialVal(s), model.cache, s.seqLen - s.prefixLen);
    LeadsStart(s, ops, InitialVal(s), model.cache, s.seqLen - s.prefixLen);
    WhileLoop(s, ops, model, val, goal);
  }

  /** `beam_search`. Without `max_decode_steps` it fails before touching the
      model. Otherwise it makes the set-up calls, runs the loop exactly
      `max_decode_steps` times, and returns the finished rows: each holds
      its row's prefix, has a length between `max_prefix_len` and
      `seq_len`, ends with `eos_id` when shorter than `seq_len`, and the
      rows of a batch entry come sorted by normalised score. */
  method BeamSearch<C(!new)>(model: DecodeModel<C>, ops: Ops<C>, vocab: nat,
                             prefixIds: seq<seq<int>>, prefixPaddings: seq<seq<int>>,
                             maxPrefixLen: nat, hp: HParams)
    returns (r: Result<DecodeOutput, DecodeError>, ghost final: LoopVal)
    requires IsGrid(prefixIds, |prefixIds|, maxPrefixLen)
    requires IsGrid(prefixPaddings, |prefixIds|, maxPrefixLen)
    requires hp.beamSize >= 1 && 0 <= hp.eosId < vocab
    requires Conforms(ops, hp.beamSize, vocab)
    modifies model
    ensures hp.maxDecodeSteps.None? ==>
              r == Failure(MissingMaxDecodeSteps) && model.calls == old(model.calls) &&
              model.cache == old(model.cache)
    ensures hp.maxDecodeSteps.Some? ==>
              var s := MakeSetup(prefixIds, prefixPaddings, maxPrefixLen, vocab, hp, hp.maxDecodeSteps.value);
              var pre := old(model.calls) + [FPropCall(prefixIds, prefixPaddings),
                                             TransformCall(PadState(hp.maxDecodeSteps.value)),
                                             TransformCall(BroadcastState(hp.beamSize))];
              && pre <= model.calls
              && LoopTrace(model.calls[|pre|..], hp.beamSize, hp.maxDecodeSteps.value)
              && var ready := ops.transformState(ops.transformState(
                                ops.fprop(old(model.cache), prefixIds, prefixPaddings),
                                PadState(hp.maxDecodeSteps.value)), BroadcastState(hp.beamSize));
                 && Inv(s, final) && final.step == s.seqLen - 1
                 && Decodes(s, ops, ready, (final, model.cache))
                 && r == Success(Output(s, ops, final))
  {
    if hp.maxDecodeSteps.None? {
      return Failure(MissingMaxDecodeSteps), LoopVal([], [], [], [], [], [], 0, []);
    }
    var steps := hp.maxDecodeSteps.value;
    var s := MakeSetup(prefixIds, prefixPaddings, maxPrefixLen, vocab, hp, steps);
    ghost var start := model.calls;
    model.FProp(ops, prefixIds, prefixPaddings);
    model.TransformState(ops, PadState(steps));
    model.TransformState(ops, BroadcastState(hp.beamSize));
    ghost var pre := model.calls;
    assert pre == start + [FPropCall(prefixIds, prefixPaddings), TransformCall(PadState(steps)),
                           TransformCall(BroadcastState(hp.beamSize))];
    var val := Loop(s, ops, model);
    TraceOfSteps(model.calls[|pre|..], s, hp.beamSize, steps);
    final := val.Val();
    r := Success(Output(s, ops, val.Val()));
  }
}
