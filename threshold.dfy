/** The ADC threshold post-processing of the packaged inference command
    (src/dunedn/denoising/inference.py): denoised samples close to zero are
    put to zero, and a region-of-interest output is turned into 0/1 labels.
    Both work on a copy of the caller's array, which is left as it was. */
module Threshold {
  import opened Seqs
  import opened Tensors

  /** The ADC threshold below which an output sample is put to zero. */
  const THRESHOLD: real := 3.5

  /** `x` lies in the band [-t, t], the test `|x| <= t` (or `x <= t and x >= -t`). */
  predicate InBand(x: real, t: real)
  {
    -t <= x <= t
  }

  /** A sample with the band around zero put to zero. */
  function Suppress(x: real, t: real): real
  {
    if InBand(x, t) then 0.0 else x
  }

  /** The 0/1 label a region-of-interest output gives: 0 inside the band, 1 outside. */
  function Label(x: real, t: real): real
  {
    if InBand(x, t) then 0.0 else 1.0
  }

  /** Every sample of a run suppressed. */
  function SuppressAll(s: seq<real>, t: real): (r: seq<real>)
    ensures |r| == |s|
  {
    seq(|s|, i requires 0 <= i < |s| => Suppress(s[i], t))
  }

  /** A suppressed sample is either zero or the sample itself, and it is zero
      exactly when the sample is in the band or already zero. */
  lemma SuppressMeaning(x: real, t: real)
    ensures Suppress(x, t) == 0.0 <==> InBand(x, t) || x == 0.0
    ensures Suppress(x, t) != 0.0 ==> Suppress(x, t) == x
  {
  }

  /** Suppressing twice is suppressing once. */
  lemma {:induction false} SuppressAllIdempotent(s: seq<real>, t: real)
    ensures SuppressAll(SuppressAll(s, t), t) == SuppressAll(s, t)
  {
    var once := SuppressAll(s, t);
    forall i | 0 <= i < |s| ensures SuppressAll(once, t)[i] == once[i] {
      assert once[i] == Suppress(s[i], t);
    }
  }

  /** The run holds no non-zero sample inside the band. */
  predicate Quiet(s: seq<real>, t: real)
  {
    forall i :: 0 <= i < |s| && InBand(s[i], t) ==> s[i] == 0.0
  }

  /** After suppression no sample is left in the band except zeros, and every
      sample outside the band is kept. */
  lemma {:induction false} SuppressAllQuiet(s: seq<real>, t: real)
    ensures Quiet(SuppressAll(s, t), t)
    ensures forall i :: 0 <= i < |s| && !InBand(s[i], t) ==> SuppressAll(s, t)[i] == s[i]
  {
    var r := SuppressAll(s, t);
    forall i | 0 <= i < |r| && InBand(r[i], t) ensures r[i] == 0.0 {
      assert r[i] == Suppress(s[i], t);
    }
  }

  /** A fresh array holding the same samples as `a` (`deepcopy`). */
  method CopyOf(a: array2<real>) returns (r: array2<real>)
    ensures fresh(r) && r.Length0 == a.Length0 && r.Length1 == a.Length1
    ensures forall i, j :: 0 <= i < a.Length0 && 0 <= j < a.Length1 ==> r[i, j] == a[i, j]
  {
    r := new real[a.Length0, a.Length1];
    var i := 0;
    while i < a.Length0
      invariant 0 <= i <= a.Length0
      invariant forall i', j :: 0 <= i' < i && 0 <= j < a.Length1 ==> r[i', j] == a[i', j]
    {
      var j := 0;
      while j < a.Length1
        invariant 0 <= j <= a.Length1
        invariant forall i', j' :: 0 <= i' < i && 0 <= j' < a.Length1 ==> r[i', j'] == a[i', j']
        invariant forall j' :: 0 <= j' < j ==> r[i, j'] == a[i, j']
      {
        r[i, j] := a[i, j];
        j := j + 1;
      }
      i := i + 1;
    }
  }

  /** `a[mask] = 0` with `mask = |a| <= t`, in place. */
  method SuppressInPlace(a: array2<real>, t: real)
    modifies a
    ensures forall i, j :: 0 <= i < a.Length0 && 0 <= j < a.Length1 ==> a[i, j] == Suppress(old(a[i, j]), t)
  {
    var i := 0;
    while i < a.Length0
      invariant 0 <= i <= a.Length0
      invariant forall i', j :: 0 <= i' < i && 0 <= j < a.Length1 ==> a[i', j] == Suppress(old(a[i', j]), t)
      invariant forall i', j :: i <= i' < a.Length0 && 0 <= j < a.Length1 ==> a[i', j] == old(a[i', j])
    {
      var j := 0;
      while j < a.Length1
        invariant 0 <= j <= a.Length1
        invariant forall i', j' :: 0 <= i' < i && 0 <= j' < a.Length1 ==> a[i', j'] == Suppress(old(a[i', j']), t)
        invariant forall j' :: 0 <= j' < j ==> a[i, j'] == Suppress(old(a[i, j']), t)
        invariant forall i', j' :: i <= i' < a.Length0 && 0 <= j' < a.Length1 && (i' > i || j' >= j) ==>
                    a[i', j'] == old(a[i', j'])
      {
        a[i, j] := Suppress(a[i, j], t);
        j := j + 1;
      }
      i := i + 1;
    }
  }

  /** `target[mask] = 0; target[~mask] = 1` with `mask = |roi| <= t`, in place
      on `target`, which must not be `roi` itself. */
  method LabelInPlace(target: array2<real>, roi: array2<real>, t: real)
    requires target != roi
    requires target.Length0 == roi.Length0 && target.Length1 == roi.Length1
    modifies target
    ensures forall i, j :: 0 <= i < target.Length0 && 0 <= j < target.Length1 ==> target[i, j] == Label(roi[i, j], t)
  {
    var i := 0;
    while i < target.Length0
      invariant 0 <= i <= target.Length0
      invariant forall i', j :: 0 <= i' < i && 0 <= j < target.Length1 ==> target[i', j] == Label(roi[i', j], t)
    {
      var j := 0;
      while j < target.Length1
        invariant 0 <= j <= target.Length1
        invariant forall i', j' :: 0 <= i' < i && 0 <= j' < target.Length1 ==> target[i', j'] == Label(roi[i', j'], t)
        invariant forall j' :: 0 <= j' < j ==> target[i, j'] == Label(roi[i, j'], t)
      {
        target[i, j] := Label(roi[i, j], t);
        j := j + 1;
      }
      i := i + 1;
    }
  }

  /** `compare_performance_dn` up to the metric call: the denoised event with
      every sample of magnitude at most THRESHOLD put to zero, in a new array;
      the caller's `dn` is not modified (the method modifies nothing). */
  method CompareDn(dn: array2<real>) returns (masked: array2<real>)
    ensures fresh(masked) && masked.Length0 == dn.Length0 && masked.Length1 == dn.Length1
    ensures forall i, j :: 0 <= i < dn.Length0 && 0 <= j < dn.Length1 ==>
              masked[i, j] == Suppress(dn[i, j], THRESHOLD)
  {
    masked := CopyOf(dn);
    SuppressInPlace(masked, THRESHOLD);
  }

  /** `compare_performance_roi` up to the metric call: the labels handed on
      with the ROI output, 0 where the output has magnitude at most THRESHOLD
      and 1 elsewhere, whatever the target held; the caller's `target` is not
      modified. A boolean mask of another shape than the target is numpy's
      IndexError, reported as `None`. */
  method CompareRoi(roi: array2<real>, target: array2<real>) returns (labels: Option<array2<real>>)
    ensures labels.None? <==> roi.Length0 != target.Length0 || roi.Length1 != target.Length1
    ensures labels.Some? ==> fresh(labels.value)
    ensures labels.Some? ==> labels.value.Length0 == target.Length0 && labels.value.Length1 == target.Length1
    ensures labels.Some? ==> forall i, j :: 0 <= i < roi.Length0 && 0 <= j < roi.Length1 ==>
              labels.value[i, j] == Label(roi[i, j], THRESHOLD)
  {
    if roi.Length0 != target.Length0 || roi.Length1 != target.Length1 {
      return None;
    }
    var copy := CopyOf(target);
    LabelInPlace(copy, roi, THRESHOLD);
    labels := Some(copy);
  }

  /** `np.load(input)[:, 2:]`: every row of the loaded event without its first
      two columns; a row of at most two columns becomes empty. */
  function DropLeadingColumns(m: Matrix): (r: Matrix)
    ensures |r| == |m|
    ensures forall h :: 0 <= h < |m| ==> |r[h]| == if |m[h]| <= 2 then 0 else |m[h]| - 2
    ensures forall h, t :: 0 <= h < |m| && 0 <= t < |r[h]| ==> r[h][t] == m[h][t + 2]
  {
    seq(|m|, h requires 0 <= h < |m| => Slice(m[h], 2, |m[h]|))
  }
}
