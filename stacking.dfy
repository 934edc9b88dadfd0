/** The StackingOverTime layer of praxis/layers/linears.py on one batch row:
    a row is a sequence of frames (time) and a frame is a sequence of
    feature values of a fixed depth. Each emitted frame concatenates the
    `left + 1 + right` input frames around a centre, and one frame is
    emitted every `stride` steps. The batch axis is a map over rows and is
    left implicit. */
module StackingOverTime {
  import opened Common

  type Stride = n: nat | n >= 1 witness 1

  datatype ReduceOption = ReduceMin | ReduceMax

  /** The layer's hyperparameters as a caller writes them. */
  datatype HParams = HParams(
    name: string,
    leftContext: int,
    rightContext: int,
    stride: int,
    padWithLeftFrame: bool,
    padWithRightFrame: bool,
    paddingReduceOption: string)

  /** A layer that passed `setup`. */
  datatype Layer = Layer(
    leftContext: nat,
    rightContext: nat,
    stride: Stride,
    padWithLeftFrame: bool,
    padWithRightFrame: bool,
    reduce: ReduceOption)

  /** The assertion of `setup` that failed. */
  datatype SetupError =
    | MissingName
    | NegativeLeftContext
    | NegativeRightContext
    | NonPositiveStride
    | UnknownReduceOption

  datatype UnstackError = StrideExceedsWindow(stride: nat, windowSize: nat)

  /** `setup`: checks the hyperparameters in the order the source asserts
      them. */
  function Setup(p: HParams): (r: Result<Layer, SetupError>)
    ensures r.Success? <==>
      p.name != [] && p.leftContext >= 0 && p.rightContext >= 0 && p.stride >= 1 &&
      p.paddingReduceOption in {"reduce_min", "reduce_max"}
    ensures r.Success? ==>
      && r.value.leftContext == p.leftContext
      && r.value.rightContext == p.rightContext
      && r.value.stride == p.stride
      && r.value.padWithLeftFrame == p.padWithLeftFrame
      && r.value.padWithRightFrame == p.padWithRightFrame
      && (r.value.reduce == ReduceMin <==> p.paddingReduceOption == "reduce_min")
    ensures r == Failure(NonPositiveStride) ==> p.stride < 1
  {
    if p.name == [] then Failure(MissingName)
    else if p.leftContext < 0 then Failure(NegativeLeftContext)
    else if p.rightContext < 0 then Failure(NegativeRightContext)
    else if p.stride < 1 then Failure(NonPositiveStride)
    else if p.paddingReduceOption == "reduce_min" then
      Success(Layer(p.leftContext, p.rightContext, p.stride, p.padWithLeftFrame, p.padWithRightFrame, ReduceMin))
    else if p.paddingReduceOption == "reduce_max" then
      Success(Layer(p.leftContext, p.rightContext, p.stride, p.padWithLeftFrame, p.padWithRightFrame, ReduceMax))
    else Failure(UnknownReduceOption)
  }

  /** The number of input frames stacked into one output frame. */
  function WindowSize(layer: Layer): (w: nat)
    ensures w >= 1 && w > layer.leftContext && w > layer.rightContext
  {
    layer.leftContext + layer.rightContext + 1
  }

  /** No context and stride 1: `fprop` and `unstack` return their input. */
  predicate IsTrivial(layer: Layer)
  {
    layer.leftContext == 0 && layer.rightContext == 0 && layer.stride == 1
  }

  function CeilDiv(n: nat, s: Stride): nat
  {
    (n + s - 1) / s
  }

  lemma CeilDivBounds(n: nat, s: Stride, j: nat)
    requires j < CeilDiv(n, s)
    ensures j * s < n
  {
    var c := CeilDiv(n, s);
    assert c * s <= n + s - 1;
    assert j + 1 <= c;
    assert (j + 1) * s <= c * s by { MulMono(j + 1, c, s); }
  }

  lemma CeilDivLast(n: nat, s: Stride)
    requires n >= 1
    ensures CeilDiv(n, s) >= 1
    ensures (CeilDiv(n, s) - 1) * s < n <= CeilDiv(n, s) * s
  {
    var c := CeilDiv(n, s);
    assert c * s <= n + s - 1 < c * s + s;
    assert c >= 1;
    assert (c - 1) * s == c * s - s;
  }

  // ---------------------------------------------------------------------
  // The stacked output, per element

  /** What a slot centred at input position `k` holds: the input frame when
      `k` lies inside the input, otherwise the first or last input frame
      when the layer pads with it, otherwise the pad frame. */
  function SourceFrame<T>(layer: Layer, x: seq<seq<T>>, padFrame: seq<T>, k: int): seq<T>
  {
    if 0 <= k < |x| then x[k]
    else if k < 0 && layer.padWithLeftFrame && |x| > 0 then x[0]
    else if k >= |x| && layer.padWithRightFrame && |x| > 0 then x[|x| - 1]
    else padFrame
  }

  /** The frames stacked into output frame `j`: slot `i` holds the frame at
      input position `j * stride + i - left`. */
  function Window<T>(layer: Layer, x: seq<seq<T>>, padFrame: seq<T>, j: nat): seq<seq<T>>
  {
    WindowAt(layer, x, padFrame, j * layer.stride)
  }

  /** The window centred at input position `c`, before striding. */
  function WindowAt<T>(layer: Layer, x: seq<seq<T>>, padFrame: seq<T>, c: int): seq<seq<T>>
  {
    seq(WindowSize(layer), i => SourceFrame(layer, x, padFrame, c + i - layer.leftContext))
  }

  /** The closed form of `_applystack`: `ceil(T / stride)` output frames,
      each the concatenation of its window. */
  function Stacked<T>(layer: Layer, x: seq<seq<T>>, padFrame: seq<T>): (r: seq<seq<T>>)
    ensures |r| == CeilDiv(|x|, layer.stride)
    ensures Uniform(x, |padFrame|) ==> Uniform(r, WindowSize(layer) * |padFrame|)
  {
    var n := CeilDiv(|x|, layer.stride);
    if Uniform(x, |padFrame|) then
      WindowsFlatLength(layer, x, padFrame, |padFrame|);
      seq(n, j requires 0 <= j < n => Flatten(Window(layer, x, padFrame, j)))
    else
      seq(n, j requires 0 <= j < n => Flatten(Window(layer, x, padFrame, j)))
  }

  lemma WindowUniform<T>(layer: Layer, x: seq<seq<T>>, padFrame: seq<T>, d: nat, j: nat)
    requires Uniform(x, d) && |padFrame| == d
    ensures Uniform(Window(layer, x, padFrame, j), d)
  {
    var w := Window(layer, x, padFrame, j);
    forall i | 0 <= i < |w| ensures |w[i]| == d {
      assert w[i] == SourceFrame(layer, x, padFrame, j * layer.stride + i - layer.leftContext);
    }
  }

  lemma WindowsFlatLength<T>(layer: Layer, x: seq<seq<T>>, padFrame: seq<T>, d: nat)
    requires Uniform(x, d) && |padFrame| == d
    ensures forall j: nat :: |Flatten(Window(layer, x, padFrame, j))| == WindowSize(layer) * d
  {
    forall j: nat ensures |Flatten(Window(layer, x, padFrame, j))| == WindowSize(layer) * d {
      WindowUniform(layer, x, padFrame, d, j);
      FlattenLength(Window(layer, x, padFrame, j), d);
    }
  }

  /** Output frame `j` of the stack has `window_size * depth` features, and
      its slot `i` (the features `[i * d, (i + 1) * d)`) is the input frame
      at position `j * stride + i - left`, or the pad or edge frame outside
      the input. */
  lemma StackedSlot<T>(layer: Layer, x: seq<seq<T>>, padFrame: seq<T>, d: nat, j: nat, i: nat)
    requires Uniform(x, d) && |padFrame| == d
    requires j < CeilDiv(|x|, layer.stride) && i < WindowSize(layer)
    ensures |Stacked(layer, x, padFrame)| == CeilDiv(|x|, layer.stride)
    ensures |Stacked(layer, x, padFrame)[j]| == WindowSize(layer) * d
    ensures 0 <= i * d <= (i + 1) * d <= WindowSize(layer) * d
    ensures Stacked(layer, x, padFrame)[j][i * d .. (i + 1) * d]
         == SourceFrame(layer, x, padFrame, j * layer.stride + i - layer.leftContext)
  {
    var w := Window(layer, x, padFrame, j);
    WindowUniform(layer, x, padFrame, d, j);
    MulMono(i + 1, WindowSize(layer), d);
    var st := Stacked(layer, x, padFrame);
    assert st[j] == Flatten(w);
    FlattenSlice(w, d, i);
    assert w[i] == SourceFrame(layer, x, padFrame, j * layer.stride + i - layer.leftContext);
  }

  /** With one feature per frame, feature `i` of output frame `j` is the
      value at input position `j * stride + i - left`, or the pad or edge
      value outside the input. */
  lemma StackedDepthOne<T>(layer: Layer, x: seq<seq<T>>, pad: T, j: nat, i: nat)
    requires Uniform(x, 1) && j < CeilDiv(|x|, layer.stride) && i < WindowSize(layer)
    ensures |Stacked(layer, x, [pad])[j]| == WindowSize(layer)
    ensures Stacked(layer, x, [pad])[j][i] == SourceFrame(layer, x, [pad], j * layer.stride + i - layer.leftContext)[0]
  {
    StackedSlot(layer, x, [pad], 1, j, i);
    var st := Stacked(layer, x, [pad])[j];
    assert st[i] == st[i * 1 .. (i + 1) * 1][0];
  }

  /** Without context every output frame is the input frame at `j *
      stride`; with stride 1 as well the stack is the input itself. */
  lemma NoContextIsStrided<T>(layer: Layer, x: seq<seq<T>>, padFrame: seq<T>)
    requires layer.leftContext == 0 && layer.rightContext == 0
    ensures Stacked(layer, x, padFrame) == Strided(x, layer.stride)
    ensures layer.stride == 1 ==> Stacked(layer, x, padFrame) == x
  {
    var st, sx := Stacked(layer, x, padFrame), Strided(x, layer.stride);
    forall j | 0 <= j < |st| ensures st[j] == sx[j] {
      StridedAt(x, layer.stride, j);
      NoContextFrame(layer, x, padFrame, j);
    }
    if layer.stride == 1 {
      assert |sx| == |x|;
      forall j | 0 <= j < |x| ensures sx[j] == x[j] {
        StridedAt(x, layer.stride, j);
      }
    }
  }

  lemma NoContextFrame<T>(layer: Layer, x: seq<seq<T>>, padFrame: seq<T>, j: nat)
    requires layer.leftContext == 0 && layer.rightContext == 0
    requires j * layer.stride < |x|
    ensures Flatten(Window(layer, x, padFrame, j)) == x[j * layer.stride]
  {
    var w := Window(layer, x, padFrame, j);
    assert WindowSize(layer) == 1;
    assert w[0] == SourceFrame(layer, x, padFrame, j * layer.stride);
    assert w == [x[j * layer.stride]];
    assert Flatten(w) == x[j * layer.stride] + Flatten(w[1..]);
  }

  // ---------------------------------------------------------------------
  // `_applystack` as the source computes it

  /** Python's clamping slice `s[lo:hi]` for non-negative bounds. */
  function PySlice<T>(s: seq<T>, lo: nat, hi: nat): (r: seq<T>)
    ensures |r| == if lo <= hi && lo <= |s| then (if hi <= |s| then hi else |s|) - lo else 0
    ensures forall q | 0 <= q < |r| :: r[q] == s[lo + q]
  {
    var h := if hi <= |s| then hi else |s|;
    if lo <= h then s[lo..h] else []
  }

  /** `jnp.concatenate(pieces, 2)`: frame `t` of the result concatenates
      frame `t` of every piece. */
  function ConcatFeatures<T>(pieces: seq<seq<seq<T>>>, n: nat): (r: seq<seq<T>>)
    requires forall i | 0 <= i < |pieces| :: |pieces[i]| == n
    ensures |r| == n
  {
    seq(n, t requires 0 <= t < n => Flatten(seq(|pieces|, i requires 0 <= i < |pieces| => pieces[i][t])))
  }

  /** When every piece has frames of `d` features, frame `t` of the
      concatenation has `|pieces| * d` features, and feature `k` of piece `i`
      sits at `i * d + k`. */
  lemma ConcatFeaturesAt<T>(pieces: seq<seq<seq<T>>>, n: nat, d: nat)
    requires forall i | 0 <= i < |pieces| :: |pieces[i]| == n
    requires forall i, t | 0 <= i < |pieces| && 0 <= t < n :: |pieces[i][t]| == d
    ensures forall t | 0 <= t < n :: |ConcatFeatures(pieces, n)[t]| == |pieces| * d
    ensures forall t, i, k | 0 <= t < n && 0 <= i < |pieces| && 0 <= k < d ::
              i * d + k < |ConcatFeatures(pieces, n)[t]| && ConcatFeatures(pieces, n)[t][i * d + k] == pieces[i][t][k]
  {
    forall t | 0 <= t < n {
      ConcatFrameAt(pieces, n, d, t);
    }
  }

  lemma ConcatFrameAt<T>(pieces: seq<seq<seq<T>>>, n: nat, d: nat, t: nat)
    requires forall i | 0 <= i < |pieces| :: |pieces[i]| == n
    requires forall i, t | 0 <= i < |pieces| && 0 <= t < n :: |pieces[i][t]| == d
    requires t < n
    ensures |ConcatFeatures(pieces, n)[t]| == |pieces| * d
    ensures forall i, k | 0 <= i < |pieces| && 0 <= k < d ::
              i * d + k < |ConcatFeatures(pieces, n)[t]| && ConcatFeatures(pieces, n)[t][i * d + k] == pieces[i][t][k]
  {
    var col := seq(|pieces|, i requires 0 <= i < |pieces| => pieces[i][t]);
    var frame := ConcatFeatures(pieces, n)[t];
    assert frame == Flatten(col);
    assert Uniform(col, d);
    FlattenLength(col, d);
    forall i, k | 0 <= i < |pieces| && 0 <= k < d ensures i * d + k < |frame| && frame[i * d + k] == pieces[i][t][k] {
      FlattenAt(col, d, i, k);
    }
  }

  /** `out[:, ::stride]`. */
  function Strided<T>(s: seq<T>, stride: Stride): (r: seq<T>)
    ensures |r| == CeilDiv(|s|, stride)
  {
    var n := CeilDiv(|s|, stride);
    seq(n, j requires 0 <= j < n => CeilDivBounds(|s|, stride, j); s[j * stride])
  }

  /** Frame `j` of the strided sequence is frame `j * stride` of the input. */
  lemma StridedAt<T>(s: seq<T>, stride: Stride, j: nat)
    requires j < CeilDiv(|s|, stride)
    ensures j * stride < |s| && Strided(s, stride)[j] == s[j * stride]
  {
    CeilDivBounds(|s|, stride, j);
  }

  /** The padding phase of `_applystack` (optional edge-frame copies, then
      constant padding): for a non-empty input, position `k` holds the frame
      SourceFrame assigns to input position `k - left`. */
  method PadForStacking<T>(layer: Layer, inputs: seq<seq<T>>, padFrame: seq<T>) returns (padded: seq<seq<T>>)
    ensures |inputs| > 0 ==> |padded| == |inputs| + layer.leftContext + layer.rightContext
    ensures |inputs| > 0 ==> forall k | 0 <= k < |padded| ::
      padded[k] == SourceFrame(layer, inputs, padFrame, k - layer.leftContext)
    ensures |inputs| == 0 ==> |padded| <= layer.leftContext + layer.rightContext
  {
    var l, r := layer.leftContext, layer.rightContext;
    padded := inputs;
    var leftToPad, rightToPad := l, r;
    if layer.padWithLeftFrame {
      var leftPad := RepeatEach(PySlice(padded, 0, 1), l);
      padded := leftPad + padded;
      leftToPad := 0;
      if |inputs| > 0 {
        assert PySlice(inputs, 0, 1) == [inputs[0]];
        RepeatOne(inputs[0], l);
      }
    }
    ghost var mid := padded;
    assert |inputs| > 0 ==> |mid| == |inputs| + l - leftToPad;
    if layer.padWithRightFrame {
      var last := if |padded| == 0 then [] else padded[|padded| - 1..];
      var rightPad := RepeatEach(last, r);
      if |inputs| > 0 {
        assert last == [inputs[|inputs| - 1]];
        RepeatOne(inputs[|inputs| - 1], r);
      }
      padded := padded + rightPad;
      rightToPad := 0;
    }
    padded := Replicate(padFrame, leftToPad) + padded + Replicate(padFrame, rightToPad);
    if |inputs| == 0 {
      assert |RepeatEach<seq<T>>([], l)| == 0;
      assert |RepeatEach<seq<T>>([], r)| == 0;
    }
  }

  lemma RepeatOne<T>(x: T, n: nat)
    ensures RepeatEach([x], n) == Replicate(x, n)
  {
    var rows := seq(1, i requires 0 <= i < 1 => Replicate([x][i], n));
    assert rows == [Replicate(x, n)];
    assert Flatten(rows) == Replicate(x, n) + Flatten(rows[1..]);
  }

  /** `_applystack`: pads, takes `window_size` shifted copies of the padded
      sequence, concatenates them per frame and keeps every `stride`-th
      frame. The result is the closed form Stacked. */
  method ApplyStack<T>(layer: Layer, inputs: seq<seq<T>>, d: nat, padValue: T) returns (out: seq<seq<T>>)
    requires Uniform(inputs, d)
    ensures out == Stacked(layer, inputs, Replicate(padValue, d))
  {
    var padFrame := Replicate(padValue, d);
    if layer.leftContext == 0 && layer.rightContext == 0 {
      out := inputs;
    } else {
      var n := |inputs|;
      var padded := PadForStacking(layer, inputs, padFrame);
      var pieces: seq<seq<seq<T>>> := [];
      for i := 0 to WindowSize(layer)
        invariant |pieces| == i
        invariant forall p | 0 <= p < i :: pieces[p] == PySlice(padded, p, p + n)
      {
        pieces := pieces + [PySlice(padded, i, i + n)];
      }
      assert forall p | 0 <= p < |pieces| :: |pieces[p]| == n;
      out := ConcatFeatures(pieces, n);
      forall t | 0 <= t < n ensures out[t] == Flatten(WindowAt(layer, inputs, padFrame, t)) {
        var col := seq(|pieces|, i requires 0 <= i < |pieces| => pieces[i][t]);
        assert col == WindowAt(layer, inputs, padFrame, t);
      }
    }
    ghost var before := out;
    out := Strided(out, layer.stride);
    ghost var want := Stacked(layer, inputs, padFrame);
    forall j | 0 <= j < |want| ensures out[j] == want[j] {
      StridedAt(before, layer.stride, j);
      if layer.leftContext == 0 && layer.rightContext == 0 {
        NoContextFrame(layer, inputs, padFrame, j);
      }
    }
  }

  // ---------------------------------------------------------------------
  // Paddings and `fprop`

  function MinOf(s: seq<real>): (r: real)
    requires |s| > 0
    ensures r in s
    ensures forall i | 0 <= i < |s| :: r <= s[i]
  {
    if |s| == 1 then s[0]
    else
      var m := MinOf(s[1..]);
      if s[0] <= m then s[0] else m
  }

  function MaxOf(s: seq<real>): (r: real)
    requires |s| > 0
    ensures r in s
    ensures forall i | 0 <= i < |s| :: r >= s[i]
  {
    if |s| == 1 then s[0]
    else
      var m := MaxOf(s[1..]);
      if s[0] >= m then s[0] else m
  }

  /** `jnp.amin` / `jnp.amax` over the stacked paddings of each frame,
      keeping a depth of 1. */
  function ReducePaddings(option: ReduceOption, stacked: seq<seq<real>>): (r: seq<seq<real>>)
    requires forall j | 0 <= j < |stacked| :: |stacked[j]| > 0
    ensures |r| == |stacked| && Uniform(r, 1)
  {
    seq(|stacked|, j requires 0 <= j < |stacked| =>
      if option == ReduceMin then [MinOf(stacked[j])] else [MaxOf(stacked[j])])
  }

  /** The paddings `fprop` uses when the caller passes none: all zero. */
  function DefaultPaddings(n: nat): (r: seq<seq<real>>)
    ensures |r| == n && Uniform(r, 1)
    ensures forall t | 0 <= t < n :: r[t] == [0.0]
  {
    Replicate([0.0], n)
  }

  /** `fprop`: stacks the inputs with pad value 0 and the paddings with pad
      value 1 and reduces each stacked padding frame to one value. In the
      trivial configuration both are returned as they are. */
  method Fprop(layer: Layer, inputs: seq<seq<real>>, d: nat, paddings: Option<seq<seq<real>>>)
    returns (outputs: seq<seq<real>>, outPaddings: seq<seq<real>>)
    requires Uniform(inputs, d)
    requires paddings.Some? ==> |paddings.value| == |inputs| && Uniform(paddings.value, 1)
    ensures var pads := if paddings.Some? then paddings.value else DefaultPaddings(|inputs|);
      && outputs == Stacked(layer, inputs, Replicate(0.0, d))
      && (IsTrivial(layer) ==> outputs == inputs && outPaddings == pads)
      && (!IsTrivial(layer) ==> outPaddings == ReducePaddings(layer.reduce, Stacked(layer, pads, [1.0])))
  {
    var pads := if paddings.Some? then paddings.value else DefaultPaddings(|inputs|);
    if IsTrivial(layer) {
      NoContextIsStrided(layer, inputs, Replicate(0.0, d));
      return inputs, pads;
    }
    outputs := ApplyStack(layer, inputs, d, 0.0);
    var stackedPads := ApplyStack(layer, pads, 1, 1.0);
    assert Replicate(1.0, 1) == [1.0];
    forall j | 0 <= j < |stackedPads| ensures |stackedPads[j]| > 0 {
      StackedSlot(layer, pads, [1.0], 1, j, 0);
    }
    outPaddings := ReducePaddings(layer.reduce, stackedPads);
  }

  /** The input frames that output frame `j`'s window covers are those at
      positions `[j * stride - left, j * stride + right]` inside the input. */
  predicate Covers(layer: Layer, n: nat, j: nat, t: int)
  {
    j * layer.stride - layer.leftContext <= t <= j * layer.stride + layer.rightContext && 0 <= t < n
  }

  /** The padding slot `i` of output frame `j` is the padding of an input
      frame the window covers, or 1 where the window runs past an edge that
      is not padded with an edge frame. */
  lemma PaddingSlot(layer: Layer, pads: seq<seq<real>>, j: nat, i: nat)
    requires Uniform(pads, 1) && j < CeilDiv(|pads|, layer.stride) && i < WindowSize(layer)
    ensures var k := j * layer.stride + i - layer.leftContext;
      && |Stacked(layer, pads, [1.0])[j]| == WindowSize(layer)
      && (0 <= k < |pads| ==> Stacked(layer, pads, [1.0])[j][i] == pads[k][0])
      && (k < 0 ==> Stacked(layer, pads, [1.0])[j][i] == if layer.padWithLeftFrame then pads[0][0] else 1.0)
      && (k >= |pads| ==> Stacked(layer, pads, [1.0])[j][i] == if layer.padWithRightFrame then pads[|pads| - 1][0] else 1.0)
  {
    StackedSlot(layer, pads, [1.0], 1, j, i);
    var k := j * layer.stride + i - layer.leftContext;
    var st := Stacked(layer, pads, [1.0])[j];
    assert st[i] == st[i * 1 .. (i + 1) * 1][0];
    CeilDivBounds(|pads|, layer.stride, j);
  }

  /** With `reduce_min` and 0/1 paddings, an output frame is unpadded (0)
      exactly when some input frame its window covers is unpadded. */
  lemma ReduceMinUnpadded(layer: Layer, pads: seq<seq<real>>, j: nat)
    requires Uniform(pads, 1)
    requires forall t | 0 <= t < |pads| :: pads[t][0] == 0.0 || pads[t][0] == 1.0
    requires j < CeilDiv(|pads|, layer.stride)
    ensures var r := ReducePaddings(ReduceMin, Stacked(layer, pads, [1.0]));
      r[j][0] == 0.0 <==> exists t :: Covers(layer, |pads|, j, t) && pads[t][0] == 0.0
  {
    var st := Stacked(layer, pads, [1.0]);
    PaddingSlot(layer, pads, j, 0);
    forall j' | 0 <= j' < |st| ensures |st[j']| > 0 { PaddingSlot(layer, pads, j', 0); }
    var m := MinOf(st[j]);
    var s, l, W := layer.stride, layer.leftContext, WindowSize(layer);
    CeilDivBounds(|pads|, s, j);
    if m == 0.0 {
      var i :| 0 <= i < W && st[j][i] == 0.0;
      PaddingSlot(layer, pads, j, i);
      var k := j * s + i - l;
      if k < 0 {
        assert Covers(layer, |pads|, j, 0);
      } else if k >= |pads| {
        assert Covers(layer, |pads|, j, |pads| - 1);
      } else {
        assert Covers(layer, |pads|, j, k);
      }
    }
    if exists t :: Covers(layer, |pads|, j, t) && pads[t][0] == 0.0 {
      var t :| Covers(layer, |pads|, j, t) && pads[t][0] == 0.0;
      var i := t - (j * s - l);
      PaddingSlot(layer, pads, j, i);
      assert st[j][i] == 0.0;
      forall q | 0 <= q < W ensures st[j][q] >= 0.0 { PaddingSlot(layer, pads, j, q); }
    }
  }

  /** With `reduce_max` and 0/1 paddings, an output frame is unpadded (0)
      exactly when every input frame its window covers is unpadded and the
      window does not run past an edge that is padded with 1. */
  lemma ReduceMaxUnpadded(layer: Layer, pads: seq<seq<real>>, j: nat)
    requires Uniform(pads, 1)
    requires forall t | 0 <= t < |pads| :: pads[t][0] == 0.0 || pads[t][0] == 1.0
    requires j < CeilDiv(|pads|, layer.stride)
    ensures var r := ReducePaddings(ReduceMax, Stacked(layer, pads, [1.0]));
      r[j][0] == 0.0 <==>
        && (forall t | Covers(layer, |pads|, j, t) :: pads[t][0] == 0.0)
        && (j * layer.stride < layer.leftContext ==> layer.padWithLeftFrame)
        && (j * layer.stride + layer.rightContext >= |pads| ==> layer.padWithRightFrame)
  {
    var st := Stacked(layer, pads, [1.0]);
    forall j' | 0 <= j' < |st| ensures |st[j']| > 0 { PaddingSlot(layer, pads, j', 0); }
    var s, l, r, W := layer.stride, layer.leftContext, layer.rightContext, WindowSize(layer);
    CeilDivBounds(|pads|, s, j);
    var m := MaxOf(st[j]);
    if m == 0.0 {
      forall t | Covers(layer, |pads|, j, t) ensures pads[t][0] == 0.0 {
        PaddingSlot(layer, pads, j, t - (j * s - l));
      }
      if j * s < l { PaddingSlot(layer, pads, j, 0); }
      if j * s + r >= |pads| { PaddingSlot(layer, pads, j, W - 1); }
    } else {
      var i :| 0 <= i < W && st[j][i] == m;
      PaddingSlot(layer, pads, j, i);
      forall q | 0 <= q < W ensures st[j][q] >= 0.0 { PaddingSlot(layer, pads, j, q); }
      var k := j * s + i - l;
      if 0 <= k < |pads| {
        assert Covers(layer, |pads|, j, k);
      } else if k < 0 && layer.padWithLeftFrame {
        assert Covers(layer, |pads|, j, 0);
      } else if k >= |pads| && layer.padWithRightFrame {
        assert Covers(layer, |pads|, j, |pads| - 1);
      }
    }
  }

  // ---------------------------------------------------------------------
  // `unstack`

  /** The number of frames `unstack` returns:
      `(stacked_length - 1) * stride + right + 1`. */
  function UnstackedLength(layer: Layer, n: nat): int
  {
    (n - 1) * layer.stride + layer.rightContext + 1
  }

  /** Output frame `q` (before the last window) is looked up in the next
      window when `q mod stride` exceeds the right context. When the stride
      fits in the window, the window this picks does cover input frame `q`:
      its slot for `q` lies inside the window. */
  function InNextWindow(layer: Layer, q: nat): (r: nat)
    ensures r <= 1
    ensures layer.stride <= WindowSize(layer) ==>
              0 <= q + layer.leftContext - (q / layer.stride + r) * layer.stride < WindowSize(layer)
  {
    var s := layer.stride;
    assert q / s * s + q % s == q;
    assert (q / s + 1) * s == q / s * s + s;
    if q % s > layer.rightContext then 1 else 0
  }

  /** `window_index` of `unstack`: for all but the last window's frames,
      `q / stride` plus InNextWindow, then the last window repeated
      `right + 1` times. */
  function WindowIndices(layer: Layer, n: nat): (wi: seq<int>)
    requires n >= 1 && layer.stride <= WindowSize(layer)
    ensures |wi| == UnstackedLength(layer, n)
    ensures forall q | 0 <= q < |wi| :: 0 <= wi[q] < n
  {
    var m := (n - 1) * layer.stride;
    seq(m, q requires 0 <= q < m => WindowIndexBefore(layer, n, q))
    + Replicate(n - 1, layer.rightContext + 1)
  }

  function WindowIndexBefore(layer: Layer, n: nat, q: nat): (w: int)
    requires q < (n - 1) * layer.stride
    ensures 0 <= w < n
  {
    QuotientBound(q, layer.stride, n - 1);
    q / layer.stride + InNextWindow(layer, q)
  }

  /** `frame_index` of `unstack`: the slot of output frame `q` inside its
      window, `left + q mod stride`, less `stride` when it is looked up in
      the next window; then `left + k` for the last window's frames. */
  function FrameIndices(layer: Layer, n: nat): (fi: seq<int>)
    requires n >= 1 && layer.stride <= WindowSize(layer)
    ensures |fi| == UnstackedLength(layer, n)
    ensures forall q | 0 <= q < |fi| :: 0 <= fi[q] < WindowSize(layer)
  {
    var s, l := layer.stride, layer.leftContext;
    var m := (n - 1) * s;
    seq(m, q requires 0 <= q < m => l + q % s - s * InNextWindow(layer, q))
    + seq(layer.rightContext + 1, k => l + k)
  }

  lemma QuotientBound(q: nat, s: Stride, n: nat)
    requires q < n * s
    ensures q / s < n && q / s * s + q % s == q
  {
    if q / s >= n {
      MulMono(n, q / s, s);
    }
  }

  /** `unstack`: refuses a stride larger than the window; otherwise gathers,
      for every frame it returns, the slot that holds it. A stack with no
      frame has nothing to gather from and is outside this model. */
  function Unstack<T>(layer: Layer, stacked: seq<seq<T>>, d: nat): (r: Result<seq<seq<T>>, UnstackError>)
    requires Uniform(stacked, WindowSize(layer) * d)
    requires !IsTrivial(layer) ==> |stacked| >= 1
    ensures r.Failure? <==> !IsTrivial(layer) && layer.stride > WindowSize(layer)
    ensures r.Success? && !IsTrivial(layer) ==> |r.value| == UnstackedLength(layer, |stacked|)
    ensures IsTrivial(layer) ==> r == Success(stacked)
  {
    var W := WindowSize(layer);
    if IsTrivial(layer) then Success(stacked)
    else if layer.stride > W then Failure(StrideExceedsWindow(layer.stride, W))
    else
      var n := |stacked|;
      var windows := seq(n, t requires 0 <= t < n => Reshape(stacked[t], W, d));
      var wi, fi := WindowIndices(layer, n), FrameIndices(layer, n);
      Success(seq(|wi|, q requires 0 <= q < |wi| => windows[wi[q]][fi[q]]))
  }

  /** Frame `q` that `unstack` returns from a stack of input `x` comes from
      input position `q`: the window and slot it is gathered from are the
      ones that stacked input frame `q`. */
  lemma UnstackSource(layer: Layer, n: nat, q: nat)
    requires !IsTrivial(layer) && n >= 1 && layer.stride <= WindowSize(layer)
    requires q < UnstackedLength(layer, n)
    ensures WindowIndices(layer, n)[q] * layer.stride + FrameIndices(layer, n)[q] - layer.leftContext == q
  {
    var s, l, r := layer.stride, layer.leftContext, layer.rightContext;
    var m := (n - 1) * s;
    var wi, fi := WindowIndices(layer, n), FrameIndices(layer, n);
    if q < m {
      QuotientBound(q, s, n - 1);
      var qd, md := q / s, q % s;
      if md > r {
        assert wi[q] == qd + 1 && fi[q] == l + md - s;
        assert (qd + 1) * s == qd * s + s;
      } else {
        assert wi[q] == qd && fi[q] == l + md;
      }
    } else {
      assert wi[q] == n - 1 && fi[q] == l + (q - m);
    }
  }

  /** Frame `q` of a successful non-trivial `unstack` is slot
      `frame_index[q]` of window `window_index[q]`. */
  lemma UnstackAt<T>(layer: Layer, stacked: seq<seq<T>>, d: nat, q: nat)
    requires Uniform(stacked, WindowSize(layer) * d) && |stacked| >= 1
    requires !IsTrivial(layer) && layer.stride <= WindowSize(layer)
    requires q < UnstackedLength(layer, |stacked|)
    ensures var wi, fi := WindowIndices(layer, |stacked|), FrameIndices(layer, |stacked|);
      Unstack(layer, stacked, d).value[q] == Reshape(stacked[wi[q]], WindowSize(layer), d)[fi[q]]
  {
  }

  /** Round trip: every frame that `unstack(fprop(x))` returns at a
      position inside `x` is the input frame at that position. */
  lemma {:induction false} UnstackRoundTrip<T>(layer: Layer, x: seq<seq<T>>, d: nat, pad: T, q: nat)
    requires Uniform(x, d) && |x| >= 1 && layer.stride <= WindowSize(layer)
    requires q < |x|
    ensures var st := Stacked(layer, x, Replicate(pad, d));
      && |st| >= 1
      && Unstack(layer, st, d).Success?
      && (q < |Unstack(layer, st, d).value| ==> Unstack(layer, st, d).value[q] == x[q])
  {
    var pf := Replicate(pad, d);
    var st := Stacked(layer, x, pf);
    CeilDivLast(|x|, layer.stride);
    if IsTrivial(layer) {
      NoContextIsStrided(layer, x, pf);
    } else if q < UnstackedLength(layer, |st|) {
      var n := |st|;
      var wi, fi := WindowIndices(layer, n), FrameIndices(layer, n);
      UnstackAt(layer, st, d, q);
      UnstackSource(layer, n, q);
      var w := Window(layer, x, pf, wi[q]);
      WindowUniform(layer, x, pf, d, wi[q]);
      ReshapeFlatten(w, d);
      assert st[wi[q]] == Flatten(w);
      assert w[fi[q]] == SourceFrame(layer, x, pf, q);
    }
  }

  /** How much of `x` the round trip returns: all of it when `right + 1 >=
      stride`, otherwise at most `stride - right - 1` frames fewer. */
  lemma UnstackCoverage<T>(layer: Layer, x: seq<seq<T>>, d: nat, pad: T)
    requires Uniform(x, d) && |x| >= 1 && layer.stride <= WindowSize(layer)
    ensures var st := Stacked(layer, x, Replicate(pad, d));
      && Uniform(st, WindowSize(layer) * d) && |st| >= 1
      && Unstack(layer, st, d).Success?
      && (layer.rightContext + 1 >= layer.stride ==> |Unstack(layer, st, d).value| >= |x|)
      && |Unstack(layer, st, d).value| >= |x| - (layer.stride - layer.rightContext - 1)
  {
    var pf := Replicate(pad, d);
    var st := Stacked(layer, x, pf);
    CeilDivLast(|x|, layer.stride);
    forall j | 0 <= j < |st| ensures |st[j]| == WindowSize(layer) * d {
      StackedSlot(layer, x, pf, d, j, 0);
    }
    if IsTrivial(layer) {
      NoContextIsStrided(layer, x, pf);
    } else {
      var n := |st|;
      assert (n - 1) * layer.stride == n * layer.stride - layer.stride;
    }
  }

  /** The example of the layer's documentation: `[4], [1], [9], [3], [5],
      [2], [8]` with left and right context 1 and stride 3 stacks to
      `[0, 4, 1], [9, 3, 5], [2, 8, 0]`. */
  lemma DocumentationExample()
    ensures var layer := Layer(1, 1, 3, false, false, ReduceMin);
      Stacked(layer, [[4], [1], [9], [3], [5], [2], [8]], [0]) == [[0, 4, 1], [9, 3, 5], [2, 8, 0]]
  {
    var layer := Layer(1, 1, 3, false, false, ReduceMin);
    var x := [[4], [1], [9], [3], [5], [2], [8]];
    var st := Stacked(layer, x, [0]);
    assert CeilDiv(7, 3) == 3;
    var expected := [[0, 4, 1], [9, 3, 5], [2, 8, 0]];
    forall j, i | 0 <= j < 3 && 0 <= i < 3 ensures st[j][i] == expected[j][i] {
      StackedDepthOne(layer, x, 0, j, i);
    }
    forall j | 0 <= j < 3 ensures st[j] == expected[j] {
      StackedDepthOne(layer, x, 0, j, 0);
    }
  }

  /** The `unstack` example of the layer's documentation: left context 2,
      right context 1 and stride 4 stack the frames `1 .. 8` to `[0 0 1 2],
      [3 4 5 6]`, and unstacking that gives back `1 .. 6`, two frames fewer
      (`stride - right - 1`). */
  lemma UnstackDocumentationExample()
    ensures var layer := Layer(2, 1, 4, false, false, ReduceMin);
      var x := [[1], [2], [3], [4], [5], [6], [7], [8]];
      && Stacked(layer, x, [0]) == [[0, 0, 1, 2], [3, 4, 5, 6]]
      && Unstack(layer, Stacked(layer, x, [0]), 1) == Success(x[..6])
  {
    var layer := Layer(2, 1, 4, false, false, ReduceMin);
    var x := [[1], [2], [3], [4], [5], [6], [7], [8]];
    UnstackExampleStack();
    var st := Stacked(layer, x, [0]);
    assert Replicate(0, 1) == [0];
    UnstackCoverage(layer, x, 1, 0);
    var u := Unstack(layer, st, 1).value;
    assert |u| == UnstackedLength(layer, 2) == 6;
    forall q | 0 <= q < 6 ensures u[q] == x[q] {
      UnstackRoundTrip(layer, x, 1, 0, q);
    }
    assert u == x[..6];
  }

  lemma UnstackExampleStack()
    ensures Stacked(Layer(2, 1, 4, false, false, ReduceMin), [[1], [2], [3], [4], [5], [6], [7], [8]], [0])
         == [[0, 0, 1, 2], [3, 4, 5, 6]]
  {
    var layer := Layer(2, 1, 4, false, false, ReduceMin);
    var x := [[1], [2], [3], [4], [5], [6], [7], [8]];
    var st := Stacked(layer, x, [0]);
    assert CeilDiv(8, 4) == 2;
    var expected := [[0, 0, 1, 2], [3, 4, 5, 6]];
    forall j, i | 0 <= j < 2 && 0 <= i < 4 ensures st[j][i] == expected[j][i] {
      StackedDepthOne(layer, x, 0, j, i);
    }
    forall j | 0 <= j < 2 ensures st[j] == expected[j] {
      StackedDepthOne(layer, x, 0, j, 0);
    }
    assert st == expected;
  }
}
