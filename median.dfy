/** The median normaliser (`median_subtraction`): every plane of a batch has
    the median of its own samples subtracted from each of its samples.
    Samples are real numbers; the median is numpy's: the middle sample of the
    sorted samples, or the mean of the two middle ones for an even count. */
module Median {
  import opened Seqs
  import opened Tensors

  predicate Sorted(s: seq<real>)
  {
    forall i, j :: 0 <= i < j < |s| ==> s[i] <= s[j]
  }

  /** `x` put in front of the first sample of `s` it does not exceed. */
  function Insert(x: real, s: seq<real>): (r: seq<real>)
    ensures |r| == |s| + 1
  {
    if |s| == 0 then [x]
    else if x <= s[0] then [x] + s
    else [s[0]] + Insert(x, s[1..])
  }

  /** The samples of `s` in increasing order (insertion sort); SortSorted
      and SortPermutes show that it sorts. */
  function Sort(s: seq<real>): (r: seq<real>)
    ensures |r| == |s|
  {
    if |s| == 0 then [] else Insert(s[0], Sort(s[1..]))
  }

  lemma {:induction false} InsertPermutes(x: real, s: seq<real>)
    ensures multiset(Insert(x, s)) == multiset(s) + multiset{x}
    decreases |s|
  {
    if |s| > 0 {
      assert s == [s[0]] + s[1..];
      if x > s[0] {
        InsertPermutes(x, s[1..]);
      }
    }
  }

  /** `Sort` rearranges the samples and does nothing else to them. */
  lemma {:induction false} SortPermutes(s: seq<real>)
    ensures multiset(Sort(s)) == multiset(s)
    decreases |s|
  {
    if |s| > 0 {
      assert s == [s[0]] + s[1..];
      SortPermutes(s[1..]);
      InsertPermutes(s[0], Sort(s[1..]));
    }
  }

  /** `m` splits the samples of `s` in half: in increasing order, the lower
      half of them are at most `m` and the upper half at least `m`. */
  predicate Halves(s: seq<real>, m: real)
  {
    && (forall i :: 0 <= i < |s| / 2 ==> Sort(s)[i] <= m)
    && (forall i :: (|s| + 1) / 2 <= i < |s| ==> m <= Sort(s)[i])
  }

  /** numpy's median of a non-empty run of samples. */
  function MedianOf(s: seq<real>): (r: real)
    requires |s| > 0
    ensures Halves(s, r)
  {
    SortSorted(s);
    var t := Sort(s);
    var n := |t|;
    if n % 2 == 1 then t[n / 2] else (t[n / 2 - 1] + t[n / 2]) / 2.0
  }

  /** Every sample plus `d`. */
  function Shift(s: seq<real>, d: real): (r: seq<real>)
    ensures |r| == |s| && forall i :: 0 <= i < |s| ==> r[i] == s[i] + d
  {
    seq(|s|, i requires 0 <= i < |s| => s[i] + d)
  }

  /** Every row of a matrix shifted by `d`. */
  function ShiftRows(m: Matrix, d: real): (r: Matrix)
    ensures |r| == |m| && forall h :: 0 <= h < |m| ==> r[h] == Shift(m[h], d)
  {
    seq(|m|, h requires 0 <= h < |m| => Shift(m[h], d))
  }

  /** Every channel of a plane shifted by `d`. */
  function ShiftPlane(p: seq<Matrix>, d: real): (r: seq<Matrix>)
    ensures |r| == |p| && forall c :: 0 <= c < |p| ==> r[c] == ShiftRows(p[c], d)
  {
    seq(|p|, c requires 0 <= c < |p| => ShiftRows(p[c], d))
  }

  /** The samples of one plane in row-major order (`reshape([N, -1])`, one row). */
  function PlaneSamples(p: seq<Matrix>): seq<real>
  {
    Concat(Concat(p))
  }

  /** The median a plane's samples are shifted by; a plane without samples
      has nothing to shift, so any value will do. */
  function PlaneMedian(p: seq<Matrix>): (r: real)
    ensures Halves(PlaneSamples(p), r)
  {
    var s := PlaneSamples(p);
    if |s| == 0 then 0.0 else MedianOf(s)
  }

  /** `q` is the plane `p` with one value added to every sample. */
  ghost predicate Shifted(p: seq<Matrix>, q: seq<Matrix>)
  {
    exists d :: q == ShiftPlane(p, d)
  }

  /** `median_subtraction`: each plane minus its own median, same shape. */
  function MedianSubtraction(x: Batch): (r: Batch)
    ensures |r| == |x|
    ensures forall k :: 0 <= k < |x| ==> r[k] == ShiftPlane(x[k], -PlaneMedian(x[k]))
  {
    seq(|x|, k requires 0 <= k < |x| => ShiftPlane(x[k], -PlaneMedian(x[k])))
  }

  // ---------------------------------------------------------------------
  // Properties

  lemma ShiftCons(x: real, s: seq<real>, d: real)
    ensures Shift([x] + s, d) == [x + d] + Shift(s, d)
  {
  }

  /** Inserting into a sorted sequence keeps it sorted. */
  lemma {:induction false} InsertSorted(x: real, s: seq<real>)
    requires Sorted(s)
    ensures Sorted(Insert(x, s))
    decreases |s|
  {
    if |s| > 0 && x > s[0] {
      var tail := Insert(x, s[1..]);
      InsertSorted(x, s[1..]);
      InsertPermutes(x, s[1..]);
      forall i | 0 <= i < |tail| ensures s[0] <= tail[i] {
        assert tail[i] in multiset(tail);
        assert tail[i] in multiset(s[1..]) + multiset{x};
        if tail[i] != x {
          var j :| 0 <= j < |s[1..]| && s[1..][j] == tail[i];
          assert s[1..][j] == s[j + 1];
        }
      }
    }
  }

  /** `Sort` puts the samples in increasing order. */
  lemma {:induction false} SortSorted(s: seq<real>)
    ensures Sorted(Sort(s))
    decreases |s|
  {
    if |s| > 0 {
      SortSorted(s[1..]);
      InsertSorted(s[0], Sort(s[1..]));
    }
  }

  lemma {:induction false} InsertShift(x: real, s: seq<real>, d: real)
    ensures Insert(x + d, Shift(s, d)) == Shift(Insert(x, s), d)
    decreases |s|
  {
    var u := Shift(s, d);
    if |s| == 0 {
    } else if x <= s[0] {
      assert Insert(x + d, u) == [x + d] + u;
      ShiftCons(x, s, d);
    } else {
      assert u[0] == s[0] + d;
      assert u[1..] == Shift(s[1..], d);
      assert Insert(x + d, u) == [u[0]] + Insert(x + d, u[1..]);
      InsertShift(x, s[1..], d);
      ShiftCons(s[0], Insert(x, s[1..]), d);
    }
  }

  /** Sorting commutes with adding the same value to every sample. */
  lemma {:induction false} SortShift(s: seq<real>, d: real)
    ensures Sort(Shift(s, d)) == Shift(Sort(s), d)
    decreases |s|
  {
    if |s| > 0 {
      var tail := Sort(s[1..]);
      var u := Shift(s, d);
      assert u[0] == s[0] + d;
      assert u[1..] == Shift(s[1..], d);
      assert Sort(u) == Insert(u[0], Sort(u[1..]));
      SortShift(s[1..], d);
      InsertShift(s[0], tail, d);
    }
  }

  /** The median moves with the samples. */
  lemma MedianShift(s: seq<real>, d: real)
    requires |s| > 0
    ensures MedianOf(Shift(s, d)) == MedianOf(s) + d
  {
    var t := Sort(s);
    SortShift(s, d);
    var t' := Shift(t, d);
    assert Sort(Shift(s, d)) == t';
    var n := |t|;
    if n % 2 == 1 {
      assert t'[n / 2] == t[n / 2] + d;
    } else {
      assert t'[n / 2 - 1] + t'[n / 2] == t[n / 2 - 1] + t[n / 2] + 2.0 * d;
    }
  }

  /** The median of samples that all equal `c` is `c`. */
  lemma MedianConstant(s: seq<real>, c: real)
    requires |s| > 0 && forall i :: 0 <= i < |s| ==> s[i] == c
    ensures MedianOf(s) == c
  {
    var t := Sort(s);
    SortPermutes(s);
    forall i | 0 <= i < |t| ensures t[i] == c {
      assert t[i] in multiset(s);
    }
  }

  /** The median lies between the smallest and the largest sample. */
  lemma MedianBounds(s: seq<real>, lo: real, hi: real)
    requires |s| > 0 && forall i :: 0 <= i < |s| ==> lo <= s[i] <= hi
    ensures lo <= MedianOf(s) <= hi
  {
    var t := Sort(s);
    SortPermutes(s);
    forall i | 0 <= i < |t| ensures lo <= t[i] <= hi {
      assert t[i] in multiset(s);
    }
  }

  lemma {:induction false} ConcatShift(m: Matrix, d: real)
    ensures Concat(ShiftRows(m, d)) == Shift(Concat(m), d)
    decreases |m|
  {
    if |m| > 0 {
      var n := |m| - 1;
      assert ShiftRows(m, d)[..n] == ShiftRows(m[..n], d);
      ConcatShift(m[..n], d);
    }
  }

  lemma {:induction false} ConcatShiftRows(p: seq<Matrix>, d: real)
    ensures Concat(ShiftPlane(p, d)) == ShiftRows(Concat(p), d)
    decreases |p|
  {
    if |p| > 0 {
      var n := |p| - 1;
      assert ShiftPlane(p, d)[..n] == ShiftPlane(p[..n], d);
      ConcatShiftRows(p[..n], d);
      assert ShiftRows(Concat(p[..n]) + p[n], d) == ShiftRows(Concat(p[..n]), d) + ShiftRows(p[n], d);
    }
  }

  /** Shifting a plane shifts its samples. */
  lemma PlaneSamplesShift(p: seq<Matrix>, d: real)
    ensures PlaneSamples(ShiftPlane(p, d)) == Shift(PlaneSamples(p), d)
  {
    ConcatShiftRows(p, d);
    ConcatShift(Concat(p), d);
  }

  /** Two shifts add up. */
  lemma ShiftTwice(p: seq<Matrix>, d: real, e: real)
    ensures ShiftPlane(ShiftPlane(p, d), e) == ShiftPlane(p, d + e)
  {
    forall c | 0 <= c < |p| ensures ShiftRows(ShiftRows(p[c], d), e) == ShiftRows(p[c], d + e) {
      forall h | 0 <= h < |p[c]| ensures Shift(Shift(p[c][h], d), e) == Shift(p[c][h], d + e) {
      }
    }
  }

  /** After the subtraction every non-empty plane has median 0. */
  lemma CenteredMedian(x: Batch, k: nat)
    requires k < |x|
    ensures PlaneMedian(MedianSubtraction(x)[k]) == 0.0
  {
    var p := x[k];
    var m := PlaneMedian(p);
    var q := MedianSubtraction(x)[k];
    assert q == ShiftPlane(p, -m);
    PlaneSamplesShift(p, -m);
    assert PlaneSamples(q) == Shift(PlaneSamples(p), -m);
    if |PlaneSamples(p)| > 0 {
      MedianShift(PlaneSamples(p), -m);
    }
  }

  /** Every sample of a plane is one of its samples in row-major order. */
  lemma SampleIn(p: seq<Matrix>, ch: nat, h: nat, t: nat)
    requires ch < |p| && h < |p[ch]| && t < |p[ch][h]|
    ensures p[ch][h][t] in PlaneSamples(p)
  {
    ConcatIn(p, p[ch], p[ch][h]);
    ConcatIn(Concat(p), p[ch][h], p[ch][h][t]);
  }

  /** A plane without samples is left as it is by any shift. */
  lemma NoSamples(p: seq<Matrix>, d: real)
    requires |PlaneSamples(p)| == 0
    ensures ShiftPlane(p, d) == p
  {
    forall c | 0 <= c < |p| ensures ShiftRows(p[c], d) == p[c] {
      forall h | 0 <= h < |p[c]| ensures Shift(p[c][h], d) == p[c][h] {
        if |p[c][h]| > 0 {
          SampleIn(p, c, h, 0);
        }
      }
    }
  }

  /** Adding the same value to every sample of a plane does not change what
      the subtraction makes of it. */
  lemma OffsetInvariant(p: seq<Matrix>, d: real)
    ensures MedianSubtraction([ShiftPlane(p, d)]) == MedianSubtraction([p])
  {
    var m := PlaneMedian(p);
    PlaneSamplesShift(p, d);
    if |PlaneSamples(p)| > 0 {
      MedianShift(PlaneSamples(p), d);
      ShiftTwice(p, d, -(m + d));
      assert d + -(m + d) == -m;
    } else {
      NoSamples(p, d);
    }
  }

  /** Plane k of the result depends on plane k of the input only. */
  lemma PlaneLocal(x: Batch, y: Batch, k: nat, j: nat)
    requires k < |x| && j < |y| && x[k] == y[j]
    ensures MedianSubtraction(x)[k] == MedianSubtraction(y)[j]
  {
  }

  /** A plane whose samples all equal `c` becomes all zeros. */
  lemma ConstantPlaneZero(x: Batch, k: nat, c: real)
    requires k < |x|
    requires forall ch, h, t :: 0 <= ch < |x[k]| && 0 <= h < |x[k][ch]| && 0 <= t < |x[k][ch][h]| ==>
               x[k][ch][h][t] == c
    ensures var r := MedianSubtraction(x)[k];
      forall ch, h, t :: 0 <= ch < |r| && 0 <= h < |r[ch]| && 0 <= t < |r[ch][h]| ==> r[ch][h][t] == 0.0
  {
    var p := x[k];
    var s := PlaneSamples(p);
    var r := MedianSubtraction(x)[k];
    forall ch, h, t | 0 <= ch < |r| && 0 <= h < |r[ch]| && 0 <= t < |r[ch][h]| ensures r[ch][h][t] == 0.0 {
      SampleIn(p, ch, h, t);
      SamplesConstant(p, c);
      MedianConstant(s, c);
      assert r[ch][h] == Shift(p[ch][h], -c);
    }
  }

  /** The samples of a plane whose samples all equal `c` all equal `c`. */
  lemma SamplesConstant(p: seq<Matrix>, c: real)
    requires forall ch, h, t :: 0 <= ch < |p| && 0 <= h < |p[ch]| && 0 <= t < |p[ch][h]| ==> p[ch][h][t] == c
    ensures forall i :: 0 <= i < |PlaneSamples(p)| ==> PlaneSamples(p)[i] == c
  {
    forall ch | 0 <= ch < |p| ensures forall i :: 0 <= i < |Concat(p[ch])| ==> Concat(p[ch])[i] == c {
      ConcatAll(p[ch], c);
    }
    ConcatAllRows(p, c);
    ConcatAll(Concat(p), c);
  }

  lemma {:induction false} ConcatAll(m: Matrix, c: real)
    requires forall h, t :: 0 <= h < |m| && 0 <= t < |m[h]| ==> m[h][t] == c
    ensures forall i :: 0 <= i < |Concat(m)| ==> Concat(m)[i] == c
    decreases |m|
  {
    if |m| > 0 {
      ConcatAll(m[..|m| - 1], c);
    }
  }

  lemma {:induction false} ConcatAllRows(p: seq<Matrix>, c: real)
    requires forall ch, h, t :: 0 <= ch < |p| && 0 <= h < |p[ch]| && 0 <= t < |p[ch][h]| ==> p[ch][h][t] == c
    ensures forall h, t :: 0 <= h < |Concat(p)| && 0 <= t < |Concat(p)[h]| ==> Concat(p)[h][t] == c
    decreases |p|
  {
    if |p| > 0 {
      ConcatAllRows(p[..|p| - 1], c);
    }
  }
}
