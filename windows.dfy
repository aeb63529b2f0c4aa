/** The time-window slicer and the overlap-averaging inference of the
    training code (denoising/train.py). A batch of planes (N, C, H, W) is cut
    along its time axis into windows of `w` ticks starting every `stride`
    ticks; a network is run on each window, the outputs are added back into a
    buffer over the columns they came from, and the buffer is divided by the
    number of windows that covered each column. */
module Windows {
  import opened Seqs
  import opened Tensors
  import opened Threshold

  /** The exceptions torch raises on the way: a network output whose shape
      does not match the window it is added back over, and `torch.cat` of an
      empty list of outputs. */
  datatype InferenceError = ShapeMismatch | EmptyCat

  /** A window's column range, `[start, end)` before Python clips `end` to W. */
  type Span = (nat, nat)

  // ---------------------------------------------------------------------
  // Window arithmetic

  /** `ceil(a / b)` for a positive divisor (Dafny's `/` rounds down when b > 0). */
  function CeilDiv(a: int, b: nat): int
    requires b > 0
  {
    -((-a) / b)
  }

  lemma CeilDivBounds(a: int, b: nat)
    requires b > 0
    ensures a <= CeilDiv(a, b) * b
    ensures (CeilDiv(a, b) - 1) * b < a
  {
    var q := (-a) / b;
    assert -a == q * b + (-a) % b;
    assert CeilDiv(a, b) * b == -(q * b);
  }

  /** `n = ceil((W - w) / stride) + 1`, and `np.arange(n)` is empty for n <= 0.
      When there are windows, the last one reaches column W - 1 and the one
      before it does not: n is the least count whose last window ends at W or
      beyond. */
  function WindowCount(W: nat, w: nat, stride: nat): (r: nat)
    requires stride > 0
    ensures r > 0 ==> Offset(r - 1, stride) + w >= W
    ensures r >= 2 ==> Offset(r - 2, stride) + w < W
  {
    var n := CeilDiv(W - w, stride) + 1;
    CeilDivBounds(W - w, stride);
    if n <= 0 then 0
    else
      OffsetIsProduct(n - 1, stride);
      assert n >= 2 ==> Offset(n - 2, stride) + w < W by {
        if n >= 2 {
          OffsetIsProduct(n - 2, stride);
          assert (n - 2) * stride == (n - 1 - 1) * stride;
        }
      }
      n
  }

  /** `idxs = [[0, w]] + np.arange(n).reshape([-1, 1]) * stride`: row i is
      `[i * stride, i * stride + w]`. */
  function Idxs(n: nat, w: nat, stride: nat): (r: seq<Span>)
    ensures |r| == n
    ensures n > 0 ==> r[0].0 == 0
    ensures forall i :: 0 <= i < n ==> r[i].1 == r[i].0 + w
  {
    seq(n, i requires 0 <= i < n => (Offset(i, stride), Offset(i, stride) + w))
  }

  /** How many of the spans `ids` contain column `t`. */
  function Covering(ids: seq<Span>, t: nat): nat
    decreases |ids|
  {
    if |ids| == 0 then 0
    else Covering(ids[..|ids| - 1], t) + (if ids[|ids| - 1].0 <= t < ids[|ids| - 1].1 then 1 else 0)
  }

  /** Every one of the W columns is covered by at least one window: the
      condition under which the final division has no zero divisor. */
  predicate Covered(W: nat, w: nat, stride: nat)
    requires stride > 0
    ensures Covered(W, w, stride) && W > 0 ==> WindowCount(W, w, stride) > 0
  {
    var ids := Idxs(WindowCount(W, w, stride), w, stride);
    assert |ids| == 0 ==> Covering(ids, 0) == 0;
    forall t :: 0 <= t < W ==> Covering(ids, t) > 0
  }

  // ---------------------------------------------------------------------
  // Properties of the window arithmetic

  /** No window at all exactly when `W - w <= -stride`. */
  lemma NoWindowsIff(W: nat, w: nat, stride: nat)
    requires stride > 0
    ensures WindowCount(W, w, stride) == 0 <==> W + stride <= w
  {
    var c := CeilDiv(W - w, stride);
    CeilDivBounds(W - w, stride);
    if c <= -1 {
      assert c * stride + stride <= 0;
    } else {
      assert (c - 1) * stride + stride >= 0;
    }
  }

  /** The spans start at strictly increasing columns, `stride` apart at least,
      and all have width `w`. */
  lemma IdxsOrdered(n: nat, w: nat, stride: nat, i: nat, j: nat)
    requires stride > 0 && i < j < n
    ensures Idxs(n, w, stride)[i].0 + stride <= Idxs(n, w, stride)[j].0
    ensures Idxs(n, w, stride)[i].1 == Idxs(n, w, stride)[i].0 + w
    ensures Idxs(n, w, stride)[i].0 == i * stride
  {
    OffsetMono(i, j, stride);
    OffsetIsProduct(i, stride);
  }

  lemma CoveringAppend(ids: seq<Span>, x: Span, t: nat)
    ensures Covering(ids + [x], t) == Covering(ids, t) + (if x.0 <= t < x.1 then 1 else 0)
  {
    assert (ids + [x])[..|ids|] == ids;
  }

  lemma IdxsPrefix(n: nat, w: nat, stride: nat)
    requires n > 0
    ensures Idxs(n, w, stride) == Idxs(n - 1, w, stride) + [(Offset(n - 1, stride), Offset(n - 1, stride) + w)]
  {
  }

  /** With `stride <= w`, windows 0..k together cover every column before the
      end of window k. */
  /** Window k counts once more for the columns it holds. */
  lemma CoveringStep(k: nat, w: nat, stride: nat, t: nat)
    ensures Covering(Idxs(k + 1, w, stride), t) ==
            Covering(Idxs(k, w, stride), t) + (if Offset(k, stride) <= t < Offset(k, stride) + w then 1 else 0)
  {
    IdxsPrefix(k + 1, w, stride);
    CoveringAppend(Idxs(k, w, stride), (Offset(k, stride), Offset(k, stride) + w), t);
  }

  lemma {:induction false} Reach(k: nat, w: nat, stride: nat, t: nat)
    requires 0 < stride <= w && t < Offset(k, stride) + w
    ensures Covering(Idxs(k + 1, w, stride), t) > 0
    decreases k
  {
    CoveringStep(k, w, stride, t);
    if k > 0 && t < Offset(k - 1, stride) + w {
      Reach(k - 1, w, stride, t);
    } else if k > 0 {
      assert Offset(k, stride) == Offset(k - 1, stride) + stride;
    }
  }

  /** The first window covers every column before `w`. */
  lemma {:induction false} FirstWindow(n: nat, w: nat, stride: nat, t: nat)
    requires n > 0 && t < w
    ensures Covering(Idxs(n, w, stride), t) > 0
    decreases n
  {
    IdxsPrefix(n, w, stride);
    CoveringAppend(Idxs(n - 1, w, stride), (Offset(n - 1, stride), Offset(n - 1, stride) + w), t);
    if n > 1 {
      FirstWindow(n - 1, w, stride, t);
    }
  }

  /** With `w < stride`, column `w` falls in the gap after the first window. */
  lemma {:induction false} Gap(n: nat, w: nat, stride: nat)
    requires w < stride
    ensures Covering(Idxs(n, w, stride), w) == 0
    decreases n
  {
    if n > 0 {
      IdxsPrefix(n, w, stride);
      CoveringAppend(Idxs(n - 1, w, stride), (Offset(n - 1, stride), Offset(n - 1, stride) + w), w);
      Gap(n - 1, w, stride);
      if n > 1 {
        OffsetMono(0, n - 1, stride);
      }
    }
  }

  /** Every column is covered exactly when there is a window and the windows
      leave no gap: `stride <= w`, or the first window already spans all W
      columns. */
  lemma CoveredIff(W: nat, w: nat, stride: nat)
    requires stride > 0 && W > 0
    ensures Covered(W, w, stride) <==> WindowCount(W, w, stride) >= 1 && (stride <= w || W <= w)
  {
    var n := WindowCount(W, w, stride);
    var ids := Idxs(n, w, stride);
    if n == 0 {
      assert Covering(ids, 0) == 0;
    } else if stride <= w {
      forall t | 0 <= t < W ensures Covering(ids, t) > 0 {
        Reach(n - 1, w, stride, t);
      }
    } else if W <= w {
      forall t | 0 <= t < W ensures Covering(ids, t) > 0 {
        FirstWindow(n, w, stride, t);
      }
    } else {
      Gap(n, w, stride);
    }
  }

  /** With 1 <= stride <= w <= W every column is covered. */
  lemma FullCoverage(W: nat, w: nat, stride: nat)
    requires 1 <= stride <= w <= W
    ensures Covered(W, w, stride)
  {
    NoWindowsIff(W, w, stride);
    if W > 0 {
      CoveredIff(W, w, stride);
    }
  }

  /** With `W - w <= -stride` there is no window, no column of a non-empty
      plane is covered, and the division that follows has only zero divisors. */
  lemma NothingCovered(W: nat, w: nat, stride: nat, t: nat)
    requires stride > 0 && W + stride <= w
    ensures WindowCount(W, w, stride) == 0
    ensures Covering(Idxs(WindowCount(W, w, stride), w, stride), t) == 0
    ensures W > 0 ==> !Covered(W, w, stride)
  {
    NoWindowsIff(W, w, stride);
    if W > 0 {
      CoveredIff(W, w, stride);
    }
  }

  // ---------------------------------------------------------------------
  // Tensors of shape (N, C, H, W), row by row

  /** `x` and `y` agree on the first three axes. */
  predicate Frame(x: Batch, y: Batch)
  {
    && |x| == |y|
    && (forall n :: 0 <= n < |x| ==> |x[n]| == |y[n]|)
    && (forall n, c :: 0 <= n < |x| && 0 <= c < |x[n]| ==> |x[n][c]| == |y[n][c]|)
  }

  lemma RowsEqual(x: Batch, y: Batch)
    requires Frame(x, y)
    requires forall n, c, h :: 0 <= n < |x| && 0 <= c < |x[n]| && 0 <= h < |x[n][c]| ==> x[n][c][h] == y[n][c][h]
    ensures x == y
  {
    forall n | 0 <= n < |x| ensures x[n] == y[n] {
      forall c | 0 <= c < |x[n]| ensures x[n][c] == y[n][c] {
      }
    }
  }

  /** Row (n, c, h) of `y`, or the empty row when `y` has none there. */
  function At(y: Batch, n: nat, c: nat, h: nat): Row
  {
    if n < |y| && c < |y[n]| && h < |y[n][c]| then y[n][c][h] else []
  }

  function ZeroRow(k: nat): (r: Row)
    ensures |r| == k
  {
    seq(k, t => 0.0)
  }

  function AddOnesRow(row: Row, s: nat, e: nat): (r: Row)
    ensures |r| == |row|
  {
    seq(|row|, t requires 0 <= t < |row| => if s <= t < e then row[t] + 1.0 else row[t])
  }

  function CoverRow(k: nat, ids: seq<Span>): (r: Row)
    ensures |r| == k
  {
    seq(k, t requires 0 <= t < k => Covering(ids, t) as real)
  }

  function AddRowAt(row: Row, y: Row, s: nat): (r: Row)
    ensures |r| == |row|
  {
    seq(|row|, t requires 0 <= t < |row| => if s <= t < s + |y| then row[t] + y[t - s] else row[t])
  }

  function DivRow(a: Row, d: Row): (r: Row)
    requires |a| == |d| && forall t :: 0 <= t < |d| ==> d[t] != 0.0
    ensures |r| == |a|
  {
    seq(|a|, t requires 0 <= t < |a| => a[t] / d[t])
  }

  /** `x` added `k` times: what `k` overlapping windows of the identity
      network add up to at one column. */
  function Repeat(k: nat, x: real): real
  {
    if k == 0 then 0.0 else Repeat(k - 1, x) + x
  }

  lemma {:induction false} RepeatIsProduct(k: nat, x: real)
    ensures Repeat(k, x) == (k as real) * x
  {
    if k > 0 {
      RepeatIsProduct(k - 1, x);
    }
  }

  /** Every sample of `row` added once per span of `ids` that covers it. */
  function WeightRow(row: Row, ids: seq<Span>): (r: Row)
    ensures |r| == |row|
  {
    seq(|row|, t requires 0 <= t < |row| => Repeat(Covering(ids, t), row[t]))
  }

  /** `plane[:, :, :, lo:hi]`. */
  function Columns(x: Batch, lo: nat, hi: nat): (r: Batch)
    ensures Frame(x, r)
    ensures forall n, c, h :: 0 <= n < |x| && 0 <= c < |x[n]| && 0 <= h < |x[n][c]| ==>
              r[n][c][h] == Slice(x[n][c][h], lo, hi)
  {
    seq(|x|, n requires 0 <= n < |x| =>
      seq(|x[n]|, c requires 0 <= c < |x[n]| =>
        seq(|x[n][c]|, h requires 0 <= h < |x[n][c]| => Slice(x[n][c][h], lo, hi))))
  }

  /** `torch.zeros_like(x)`. */
  function Zeros(x: Batch): (r: Batch)
    ensures Frame(x, r)
    ensures forall n, c, h :: 0 <= n < |x| && 0 <= c < |x[n]| && 0 <= h < |x[n][c]| ==>
              r[n][c][h] == ZeroRow(|x[n][c][h]|)
  {
    seq(|x|, n requires 0 <= n < |x| =>
      seq(|x[n]|, c requires 0 <= c < |x[n]| =>
        seq(|x[n][c]|, h requires 0 <= h < |x[n][c]| => ZeroRow(|x[n][c][h]|))))
  }

  /** `x[:, :, :, s:e] += 1`. */
  function AddOnes(x: Batch, s: nat, e: nat): (r: Batch)
    ensures Frame(x, r)
    ensures forall n, c, h :: 0 <= n < |x| && 0 <= c < |x[n]| && 0 <= h < |x[n][c]| ==>
              r[n][c][h] == AddOnesRow(x[n][c][h], s, e)
  {
    seq(|x|, n requires 0 <= n < |x| =>
      seq(|x[n]|, c requires 0 <= c < |x[n]| =>
        seq(|x[n][c]|, h requires 0 <= h < |x[n][c]| => AddOnesRow(x[n][c][h], s, e))))
  }

  /** `out[:, :, :, s:s + width] += y` where `width` is the width of `y`. */
  function AddAt(out: Batch, y: Batch, s: nat): (r: Batch)
    ensures Frame(out, r)
    ensures forall n, c, h :: 0 <= n < |out| && 0 <= c < |out[n]| && 0 <= h < |out[n][c]| ==>
              r[n][c][h] == AddRowAt(out[n][c][h], At(y, n, c, h), s)
  {
    seq(|out|, n requires 0 <= n < |out| =>
      seq(|out[n]|, c requires 0 <= c < |out[n]| =>
        seq(|out[n][c]|, h requires 0 <= h < |out[n][c]| => AddRowAt(out[n][c][h], At(y, n, c, h), s))))
  }

  /** The batch of `x`'s shape whose every sample in column t is the number
      of spans covering t: what `div` holds after the loop. */
  function CoverBatch(x: Batch, ids: seq<Span>): (r: Batch)
    ensures Frame(x, r)
    ensures forall n, c, h :: 0 <= n < |x| && 0 <= c < |x[n]| && 0 <= h < |x[n][c]| ==>
              r[n][c][h] == CoverRow(|x[n][c][h]|, ids)
  {
    seq(|x|, n requires 0 <= n < |x| =>
      seq(|x[n]|, c requires 0 <= c < |x[n]| =>
        seq(|x[n][c]|, h requires 0 <= h < |x[n][c]| => CoverRow(|x[n][c][h]|, ids))))
  }

  /** Every sample of `x` added once per span covering its column. */
  function Weighted(x: Batch, ids: seq<Span>): (r: Batch)
    ensures Frame(x, r)
    ensures forall n, c, h :: 0 <= n < |x| && 0 <= c < |x[n]| && 0 <= h < |x[n][c]| ==>
              r[n][c][h] == WeightRow(x[n][c][h], ids)
  {
    seq(|x|, n requires 0 <= n < |x| =>
      seq(|x[n]|, c requires 0 <= c < |x[n]| =>
        seq(|x[n][c]|, h requires 0 <= h < |x[n][c]| => WeightRow(x[n][c][h], ids))))
  }

  /** No sample of `d` is zero. */
  predicate NonZero(d: Batch)
  {
    forall n, c, h, t :: 0 <= n < |d| && 0 <= c < |d[n]| && 0 <= h < |d[n][c]| && 0 <= t < |d[n][c][h]| ==>
      d[n][c][h][t] != 0.0
  }

  /** `a / d`, sample by sample. */
  function DivideBy(a: Batch, d: Batch): (r: Batch)
    requires SameShape(a, d) && NonZero(d)
    ensures Frame(a, r)
    ensures forall n, c, h :: 0 <= n < |a| && 0 <= c < |a[n]| && 0 <= h < |a[n][c]| ==>
              r[n][c][h] == DivRow(a[n][c][h], d[n][c][h])
  {
    seq(|a|, n requires 0 <= n < |a| =>
      seq(|a[n]|, c requires 0 <= c < |a[n]| =>
        seq(|a[n][c]|, h requires 0 <= h < |a[n][c]| => DivRow(a[n][c][h], d[n][c][h]))))
  }

  // ---------------------------------------------------------------------
  // Row facts behind the loops

  lemma CoverRowStep(k: nat, ids: seq<Span>, s: nat, e: nat)
    ensures AddOnesRow(CoverRow(k, ids), s, e) == CoverRow(k, ids + [(s, e)])
  {
    forall t | 0 <= t < k ensures AddOnesRow(CoverRow(k, ids), s, e)[t] == CoverRow(k, ids + [(s, e)])[t] {
      CoveringAppend(ids, (s, e), t);
    }
  }

  lemma WeightRowStep(row: Row, ids: seq<Span>, s: nat, e: nat)
    ensures AddRowAt(WeightRow(row, ids), Slice(row, s, e), s) == WeightRow(row, ids + [(s, e)])
  {
    var win := Slice(row, s, e);
    forall t | 0 <= t < |row|
      ensures AddRowAt(WeightRow(row, ids), win, s)[t] == WeightRow(row, ids + [(s, e)])[t]
    {
      CoveringAppend(ids, (s, e), t);
      if s <= t < e {
        assert s <= t < s + |win| && win[t - s] == row[t];
      }
    }
  }

  lemma WeightRowAverage(row: Row, ids: seq<Span>)
    requires forall t :: 0 <= t < |row| ==> Covering(ids, t) > 0
    ensures DivRow(WeightRow(row, ids), CoverRow(|row|, ids)) == row
  {
    forall t | 0 <= t < |row| ensures DivRow(WeightRow(row, ids), CoverRow(|row|, ids))[t] == row[t] {
      var k := Covering(ids, t);
      var sum, cover := WeightRow(row, ids), CoverRow(|row|, ids);
      assert sum[t] == Repeat(k, row[t]) && cover[t] == k as real;
      RepeatIsProduct(k, row[t]);
      Cancel(k as real, row[t]);
      assert DivRow(sum, cover)[t] == sum[t] / cover[t];
    }
  }

  lemma Cancel(k: real, x: real)
    requires k > 0.0
    ensures (k * x) / k == x
  {
  }

  // ---------------------------------------------------------------------
  // Batch facts behind the loops

  lemma CoverBatchStep(x: Batch, ids: seq<Span>, s: nat, e: nat)
    ensures AddOnes(CoverBatch(x, ids), s, e) == CoverBatch(x, ids + [(s, e)])
  {
    var a := AddOnes(CoverBatch(x, ids), s, e);
    var b := CoverBatch(x, ids + [(s, e)]);
    forall n, c, h | 0 <= n < |a| && 0 <= c < |a[n]| && 0 <= h < |a[n][c]| ensures a[n][c][h] == b[n][c][h] {
      CoverRowStep(|x[n][c][h]|, ids, s, e);
    }
    RowsEqual(a, b);
  }

  /** No span: every column is covered zero times. */
  lemma EmptyRows(row: Row)
    ensures WeightRow(row, []) == ZeroRow(|row|)
    ensures CoverRow(|row|, []) == ZeroRow(|row|)
  {
    forall t | 0 <= t < |row| ensures WeightRow(row, [])[t] == 0.0 && CoverRow(|row|, [])[t] == 0.0 {
      assert Covering([], t) == 0;
    }
  }

  /** The windows `plane[:, :, :, start:end]` for the spans `ids`, in order. */
  function WindowsOf(plane: Batch, ids: seq<Span>): (r: seq<Batch>)
    ensures |r| == |ids|
    ensures forall i :: 0 <= i < |ids| ==> r[i] == Columns(plane, ids[i].0, ids[i].1)
    decreases |ids|
  {
    if |ids| == 0 then []
    else WindowsOf(plane, ids[..|ids| - 1]) + [Columns(plane, ids[|ids| - 1].0, ids[|ids| - 1].1)]
  }

  /** One more span of `ids` adds its ones to the cover of the spans before it. */
  lemma CoverBatchPrefix(x: Batch, ids: seq<Span>, i: nat)
    requires i < |ids|
    ensures AddOnes(CoverBatch(x, ids[..i]), ids[i].0, ids[i].1) == CoverBatch(x, ids[..i + 1])
  {
    CoverBatchStep(x, ids[..i], ids[i].0, ids[i].1);
    assert ids[..i + 1] == ids[..i] + [(ids[i].0, ids[i].1)];
  }

  lemma ZerosCoverNothing(x: Batch)
    ensures Zeros(x) == CoverBatch(x, [])
    ensures Zeros(x) == Weighted(x, [])
  {
    var z := Zeros(x);
    forall n, c, h | 0 <= n < |z| && 0 <= c < |z[n]| && 0 <= h < |z[n][c]|
      ensures z[n][c][h] == CoverBatch(x, [])[n][c][h] && z[n][c][h] == Weighted(x, [])[n][c][h]
    {
      var row := x[n][c][h];
      EmptyRows(row);
    }
    RowsEqual(z, CoverBatch(x, []));
    RowsEqual(z, Weighted(x, []));
  }

  lemma WeightedStep(x: Batch, ids: seq<Span>, s: nat, e: nat)
    ensures AddAt(Weighted(x, ids), Columns(x, s, e), s) == Weighted(x, ids + [(s, e)])
  {
    var a := AddAt(Weighted(x, ids), Columns(x, s, e), s);
    var b := Weighted(x, ids + [(s, e)]);
    forall n, c, h | 0 <= n < |a| && 0 <= c < |a[n]| && 0 <= h < |a[n][c]| ensures a[n][c][h] == b[n][c][h] {
      assert At(Columns(x, s, e), n, c, h) == Slice(x[n][c][h], s, e);
      WeightRowStep(x[n][c][h], ids, s, e);
    }
    RowsEqual(a, b);
  }

  /** Under full coverage the coverage batch has no zero sample. */
  lemma CoverNonZero(x: Batch, W: nat, w: nat, stride: nat)
    requires stride > 0 && BatchWidth(x, W) && Covered(W, w, stride)
    ensures SameShape(x, CoverBatch(x, Idxs(WindowCount(W, w, stride), w, stride)))
    ensures NonZero(CoverBatch(x, Idxs(WindowCount(W, w, stride), w, stride)))
  {
    var ids := Idxs(WindowCount(W, w, stride), w, stride);
    var d := CoverBatch(x, ids);
    forall n, c, h, t | 0 <= n < |d| && 0 <= c < |d[n]| && 0 <= h < |d[n][c]| && 0 <= t < |d[n][c][h]|
      ensures d[n][c][h][t] != 0.0
    {
      assert |x[n][c][h]| == W;
      assert Covering(ids, t) > 0;
    }
  }

  // ---------------------------------------------------------------------
  // time_windows

  /** `time_windows(plane, w, stride)`: the coverage counts, the windows and
      their spans. `stride` must be positive (`/ stride` raises otherwise). */
  method TimeWindows(plane: Batch, W: nat, w: nat, stride: nat)
      returns (div: Batch, windows: seq<Batch>, idxs: seq<Span>)
    requires stride > 0 && BatchWidth(plane, W)
    ensures idxs == Idxs(WindowCount(W, w, stride), w, stride)
    ensures |windows| == |idxs|
    ensures forall i :: 0 <= i < |idxs| ==> windows[i] == Columns(plane, idxs[i].0, idxs[i].1)
    ensures div == CoverBatch(plane, idxs)
  {
    var n := WindowCount(W, w, stride);
    idxs := Idxs(n, w, stride);
    windows := [];
    div := Zeros(plane);
    ZerosCoverNothing(plane);
    var i := 0;
    while i < n
      invariant 0 <= i <= n
      invariant |windows| == i
      invariant windows == WindowsOf(plane, idxs[..i])
      invariant div == CoverBatch(plane, idxs[..i])
    {
      CoverBatchPrefix(plane, idxs, i);
      assert idxs[..i + 1][..i] == idxs[..i];
      windows := windows + [Columns(plane, idxs[i].0, idxs[i].1)];
      div := AddOnes(div, idxs[i].0, idxs[i].1);
      i := i + 1;
    }
    assert idxs[..n] == idxs;
  }

  // ---------------------------------------------------------------------
  // inference

  /** The output buffer after the network outputs for the spans `ids` have
      been added in order, or the error of the first output that does not fit. */
  function Accumulate(x: Batch, ids: seq<Span>, net: Batch -> Batch): (r: Result<Batch, InferenceError>)
    ensures r.Ok? ==> SameShape(r.value, x)
    ensures r.Err? ==> r.error == ShapeMismatch
    decreases |ids|
  {
    if |ids| == 0 then Ok(Zeros(x))
    else
      match Accumulate(x, ids[..|ids| - 1], net)
      case Err(err) => Err(err)
      case Ok(out) =>
        var span := ids[|ids| - 1];
        var win := Columns(x, span.0, span.1);
        var y := net(win);
        if SameShape(y, win) then Ok(AddAt(out, y, span.0)) else Err(ShapeMismatch)
  }

  /** Once an output does not fit, the error stands whatever follows. */
  lemma {:induction false} AccumulateErr(x: Batch, ids: seq<Span>, k: nat, net: Batch -> Batch)
    requires k <= |ids| && Accumulate(x, ids[..k], net).Err?
    ensures Accumulate(x, ids, net) == Accumulate(x, ids[..k], net)
    decreases |ids|
  {
    if k < |ids| {
      assert ids[..|ids| - 1][..k] == ids[..k];
      AccumulateErr(x, ids[..|ids| - 1], k, net);
    } else {
      assert ids[..k] == ids;
    }
  }

  /** One batch through `inference`: `out / div`. */
  function Reconstruction(x: Batch, W: nat, w: nat, stride: nat, net: Batch -> Batch): (r: Result<Batch, InferenceError>)
    requires stride > 0 && BatchWidth(x, W) && Covered(W, w, stride)
    ensures r.Ok? ==> SameShape(r.value, x)
    ensures r.Err? ==> r.error == ShapeMismatch
  {
    var ids := Idxs(WindowCount(W, w, stride), w, stride);
    match Accumulate(x, ids, net)
    case Err(err) => Err(err)
    case Ok(out) =>
      CoverNonZero(x, W, w, stride);
      Ok(DivideBy(out, CoverBatch(x, ids)))
  }

  /** The per-batch outputs of `inference`, in loader order. */
  function Outputs(loader: seq<Batch>, W: nat, w: nat, stride: nat, net: Batch -> Batch): (r: Result<seq<Batch>, InferenceError>)
    requires stride > 0 && Covered(W, w, stride)
    requires forall k :: 0 <= k < |loader| ==> BatchWidth(loader[k], W)
    ensures r.Ok? ==> |r.value| == |loader|
    ensures r.Ok? ==> forall k :: 0 <= k < |loader| ==> SameShape(r.value[k], loader[k])
    ensures r.Err? ==> r.error == ShapeMismatch
    decreases |loader|
  {
    if |loader| == 0 then Ok([])
    else
      match Outputs(loader[..|loader| - 1], W, w, stride, net)
      case Err(err) => Err(err)
      case Ok(outs) =>
        match Reconstruction(loader[|loader| - 1], W, w, stride, net)
        case Err(err) => Err(err)
        case Ok(o) => Ok(outs + [o])
  }

  /** `inference(test_loader, w, stride, model, dev)`: the outputs
      concatenated along the batch axis (`torch.cat`). */
  function InferenceOf(loader: seq<Batch>, W: nat, w: nat, stride: nat, net: Batch -> Batch): (r: Result<Batch, InferenceError>)
    requires stride > 0 && Covered(W, w, stride)
    requires forall k :: 0 <= k < |loader| ==> BatchWidth(loader[k], W)
    ensures r == Err(EmptyCat) <==> |loader| == 0
    ensures r.Err? && |loader| > 0 ==> r.error == ShapeMismatch
  {
    match Outputs(loader, W, w, stride, net)
    case Err(err) => Err(err)
    case Ok(outs) => if |outs| == 0 then Err(EmptyCat) else Ok(Concat(outs))
  }

  /** The inner loop of `inference` for one batch. */
  method Reconstruct(x: Batch, W: nat, w: nat, stride: nat, net: Batch -> Batch) returns (r: Result<Batch, InferenceError>)
    requires stride > 0 && BatchWidth(x, W) && Covered(W, w, stride)
    ensures r == Reconstruction(x, W, w, stride, net)
  {
    var div, windows, idxs := TimeWindows(x, W, w, stride);
    var out := Zeros(x);
    var i := 0;
    while i < |idxs|
      invariant 0 <= i <= |idxs|
      invariant Accumulate(x, idxs[..i], net) == Ok(out)
    {
      var (start, end) := idxs[i];
      var y := net(windows[i]);
      assert idxs[..i + 1][..i] == idxs[..i];
      if !SameShape(y, windows[i]) {
        AccumulateErr(x, idxs, i + 1, net);
        return Err(ShapeMismatch);
      }
      out := AddAt(out, y, start);
      i := i + 1;
    }
    assert idxs[..i] == idxs;
    CoverNonZero(x, W, w, stride);
    r := Ok(DivideBy(out, div));
  }

  /** `inference(test_loader, w, stride, model, dev)` over the batches the
      loader yields, all of width W. */
  method Inference(loader: seq<Batch>, W: nat, w: nat, stride: nat, net: Batch -> Batch)
      returns (r: Result<Batch, InferenceError>)
    requires stride > 0 && Covered(W, w, stride)
    requires forall k :: 0 <= k < |loader| ==> BatchWidth(loader[k], W)
    ensures r == InferenceOf(loader, W, w, stride, net)
  {
    var outs := [];
    var k := 0;
    while k < |loader|
      invariant 0 <= k <= |loader|
      invariant Outputs(loader[..k], W, w, stride, net) == Ok(outs)
    {
      var o := Reconstruct(loader[k], W, w, stride, net);
      assert loader[..k + 1][..k] == loader[..k];
      if o.Err? {
        OutputsErr(loader, W, w, stride, net, k + 1);
        return Err(o.error);
      }
      outs := outs + [o.value];
      k := k + 1;
    }
    assert loader[..k] == loader;
    if |outs| == 0 {
      return Err(EmptyCat);
    }
    r := Ok(Concat(outs));
  }

  lemma {:induction false} OutputsErr(loader: seq<Batch>, W: nat, w: nat, stride: nat, net: Batch -> Batch, k: nat)
    requires stride > 0 && Covered(W, w, stride)
    requires forall j :: 0 <= j < |loader| ==> BatchWidth(loader[j], W)
    requires k <= |loader| && Outputs(loader[..k], W, w, stride, net).Err?
    ensures Outputs(loader, W, w, stride, net) == Outputs(loader[..k], W, w, stride, net)
    decreases |loader|
  {
    if k < |loader| {
      assert loader[..|loader| - 1][..k] == loader[..k];
      OutputsErr(loader[..|loader| - 1], W, w, stride, net, k);
    } else {
      assert loader[..k] == loader;
    }
  }

  // ---------------------------------------------------------------------
  // Reconstruction with the identity network


  /** With the identity network the buffer holds every sample added once
      per window over its column. */
  lemma {:induction false} AccumulateIdentity(x: Batch, ids: seq<Span>)
    ensures Accumulate(x, ids, Identity) == Ok(Weighted(x, ids))
    decreases |ids|
  {
    if |ids| == 0 {
      ZerosCoverNothing(x);
    } else {
      var init := ids[..|ids| - 1];
      var span := ids[|ids| - 1];
      AccumulateIdentity(x, init);
      assert SameShape(Columns(x, span.0, span.1), Columns(x, span.0, span.1));
      WeightedStep(x, init, span.0, span.1);
      assert init + [(span.0, span.1)] == ids;
    }
  }

  /** Overlap-averaging with the identity network gives the batch back. */
  lemma IdentityReconstruction(x: Batch, W: nat, w: nat, stride: nat)
    requires stride > 0 && BatchWidth(x, W) && Covered(W, w, stride)
    ensures Reconstruction(x, W, w, stride, Identity) == Ok(x)
  {
    var ids := Idxs(WindowCount(W, w, stride), w, stride);
    AccumulateIdentity(x, ids);
    CoverNonZero(x, W, w, stride);
    var r := DivideBy(Weighted(x, ids), CoverBatch(x, ids));
    forall n, c, h | 0 <= n < |x| && 0 <= c < |x[n]| && 0 <= h < |x[n][c]| ensures r[n][c][h] == x[n][c][h] {
      assert |x[n][c][h]| == W;
      WeightRowAverage(x[n][c][h], ids);
    }
    RowsEqual(r, x);
  }

  /** A network that reconstructs every batch of the loader gives the
      loader back as its outputs. */
  lemma {:induction false} OutputsFixed(loader: seq<Batch>, W: nat, w: nat, stride: nat, net: Batch -> Batch)
    requires stride > 0 && Covered(W, w, stride)
    requires forall k :: 0 <= k < |loader| ==> BatchWidth(loader[k], W)
    requires forall k :: 0 <= k < |loader| ==> Reconstruction(loader[k], W, w, stride, net) == Ok(loader[k])
    ensures Outputs(loader, W, w, stride, net) == Ok(loader)
    decreases |loader|
  {
    if |loader| > 0 {
      var n := |loader| - 1;
      OutputsFixed(loader[..n], W, w, stride, net);
      FrontLast(loader);
    }
  }

  /** `inference` with the identity network returns the loader's batches
      concatenated, when the loader is not empty. */
  lemma IdentityInference(loader: seq<Batch>, W: nat, w: nat, stride: nat)
    requires stride > 0 && Covered(W, w, stride)
    requires forall k :: 0 <= k < |loader| ==> BatchWidth(loader[k], W)
    ensures Outputs(loader, W, w, stride, Identity) == Ok(loader)
    ensures InferenceOf(loader, W, w, stride, Identity) == if |loader| == 0 then Err(EmptyCat) else Ok(Concat(loader))
  {
    forall k | 0 <= k < |loader|
      ensures Reconstruction(loader[k], W, w, stride, Identity) == Ok(loader[k])
    {
      IdentityReconstruction(loader[k], W, w, stride);
    }
    OutputsFixed(loader, W, w, stride, Identity);
  }

  // ---------------------------------------------------------------------
  // test_epoch

  /** The threshold mask of `test_epoch` on the output buffer: for task "dn"
      every sample in [-threshold, threshold] is put to zero in place; for any
      other task the buffer is left alone. */
  method MaskOutputs(outputs: array<real>, task: string, threshold: real)
    modifies outputs
    ensures outputs[..] == if task == "dn" then SuppressAll(old(outputs[..]), threshold) else old(outputs[..])
  {
    if task != "dn" {
      return;
    }
    var i := 0;
    while i < outputs.Length
      invariant 0 <= i <= outputs.Length
      invariant forall j :: 0 <= j < i ==> outputs[j] == Suppress(old(outputs[j]), threshold)
      invariant forall j :: i <= j < outputs.Length ==> outputs[j] == old(outputs[j])
    {
      outputs[i] := Suppress(outputs[i], threshold);
      i := i + 1;
    }
  }
}
