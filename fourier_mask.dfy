/** The frequency-bin mask of `TrendExtractor.fourier`
    (scripts/extract_trend.py): on a copy of the spectrum,
    `fft_filtered[keep:-keep] = 0`, with Python's slice bounds. */
module FourierMask {
  import opened PySlice

  datatype Complex = Complex(re: real, im: real)

  const Zero := Complex(0.0, 0.0)

  /** Whether the slice `[keep:-keep]` of a spectrum of `n` bins covers bin `j`. */
  predicate Zeroed(j: int, keep: int, n: nat)
  {
    Bound(keep, n) <= j < Bound(-keep, n)
  }

  /** The spectrum after the slice assignment. */
  function MaskBins(spectrum: seq<Complex>, keep: int): (r: seq<Complex>)
    ensures |r| == |spectrum|
  {
    seq(|spectrum|, j requires 0 <= j < |spectrum| =>
      if Zeroed(j, keep, |spectrum|) then Zero else spectrum[j])
  }

  /** For `keep >= 1` the lowest and the highest `keep` bins are copied and
      every bin between them is set to zero. */
  lemma MaskLayout(spectrum: seq<Complex>, keep: int)
    requires 1 <= keep
    ensures forall j :: 0 <= j < |spectrum| ==>
              MaskBins(spectrum, keep)[j] ==
                (if keep <= j < |spectrum| - keep then Zero else spectrum[j])
  {
  }

  /** `keep == 0` makes the slice `[0:0]`, and `2 * keep >= n` makes it
      empty too: nothing is zeroed and the spectrum passes through. */
  lemma MaskPassThrough(spectrum: seq<Complex>, keep: int)
    requires keep == 0 || (0 <= keep && |spectrum| <= 2 * keep)
    ensures MaskBins(spectrum, keep) == spectrum
  {
  }

  /** The slice assignment, done in place on the copied array. */
  method ZeroSlice(a: array<Complex>, keep: int)
    modifies a
    ensures a[..] == MaskBins(old(a[..]), keep)
  {
    var lo, hi := Bound(keep, a.Length), Bound(-keep, a.Length);
    ghost var before := a[..];
    assert |before| == a.Length;
    var j := lo;
    while j < hi
      invariant lo <= j <= (if lo <= hi then hi else lo)
      invariant forall k :: 0 <= k < a.Length ==>
                  a[k] == (if lo <= k < j then Zero else before[k])
    {
      a[j] := Zero;
      j := j + 1;
    }
    assert forall k :: 0 <= k < a.Length ==> a[k] == MaskBins(before, keep)[k];
  }
}
