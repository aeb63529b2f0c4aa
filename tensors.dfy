/** The array shapes the detector code moves between: an event or a single
    plane is a 2-axis array of samples (rows are channels, columns are time
    ticks); a batch of planes is a 4-axis array (N, C, H, W) whose second axis
    is the single-channel placeholder the networks expect. Samples are real
    numbers; floating-point rounding is not modelled. */
module Tensors {
  import opened Seqs

  type Row = seq<real>

  /** A 2-axis array, row by row. */
  type Matrix = seq<Row>

  /** A 4-axis array (N, C, H, W): N planes of C channels of H rows of W samples. */
  type Batch = seq<seq<Matrix>>

  /** Every row of every channel of every plane of `x` has `w` samples. */
  predicate BatchWidth(x: Batch, w: nat)
  {
    forall n, c :: 0 <= n < |x| && 0 <= c < |x[n]| ==> Uniform(x[n][c], w)
  }

  /** `x` and `y` have the same extent along all four axes. */
  predicate SameShape(x: Batch, y: Batch)
  {
    && |x| == |y|
    && (forall n :: 0 <= n < |x| ==> |x[n]| == |y[n]|)
    && (forall n, c :: 0 <= n < |x| && 0 <= c < |x[n]| ==> |x[n][c]| == |y[n][c]|)
    && (forall n, c, h :: 0 <= n < |x| && 0 <= c < |x[n]| && 0 <= h < |x[n][c]| ==>
          |x[n][c][h]| == |y[n][c][h]|)
  }

  /** The network that returns its input. */
  function Identity(x: Batch): Batch
  {
    x
  }

  /** All samples of `x` in row-major order (numpy's flattening). */
  function Samples(x: Batch): seq<real>
  {
    Concat(Concat(Concat(x)))
  }
}
