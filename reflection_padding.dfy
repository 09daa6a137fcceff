/** Mirror padding of a sampled signal (scripts/reflection_padding.py).
    `reflect_pad(signal, pad_len)` prepends the `pad_len` samples after the
    first one, reversed, and appends the `pad_len` samples before the last
    one, reversed, so the signal is reflected about its two endpoints
    without repeating them. The caller undoes it with `y[pad_len:-pad_len]`. */
module ReflectionPadding {
  import opened PySlice

  /** `signal[1:pad_len+1][::-1]`: the mirror image prepended on the left. */
  function LeftMirror(signal: seq<real>, padLen: int): seq<real>
  {
    Reverse(Slice(signal, 1, padLen + 1))
  }

  /** `signal[-pad_len-1:-1][::-1]`: the mirror image appended on the right. */
  function RightMirror(signal: seq<real>, padLen: int): seq<real>
  {
    Reverse(Slice(signal, -padLen - 1, -1))
  }

  /** How many samples each side really receives for a non-negative pad
      length: nothing checks `padLen`, and Python's slices stop at the ends,
      so a side holds at most the `|signal| - 1` samples other than the
      endpoint it mirrors about. */
  function Width(n: nat, padLen: int): nat
  {
    if padLen <= 0 || n == 0 then 0 else if padLen < n then padLen else n - 1
  }

  /** `reflect_pad`: a new sequence; the signal itself sits unchanged
      between the two blocks. Any pad length is accepted; for a
      non-negative one both blocks are `Width` long. */
  function ReflectPad(signal: seq<real>, padLen: int): (r: seq<real>)
    ensures |r| == |LeftMirror(signal, padLen)| + |signal| + |RightMirror(signal, padLen)|
    ensures r[|LeftMirror(signal, padLen)|..|LeftMirror(signal, padLen)| + |signal|] == signal
    ensures 0 <= padLen ==> |r| == |signal| + 2 * Width(|signal|, padLen)
    ensures 0 <= padLen ==> r[Width(|signal|, padLen)..Width(|signal|, padLen) + |signal|] == signal
  {
    var n, w := |signal|, Width(|signal|, padLen);
    var left, right := LeftMirror(signal, padLen), RightMirror(signal, padLen);
    assert 0 <= padLen ==> |left| == w && |right| == w;
    assert (left + signal + right)[|left|..|left| + n] == signal;
    left + signal + right
  }

  /** The trim the caller applies after filtering the padded signal. */
  function Trim(padded: seq<real>, padLen: nat): (r: seq<real>)
    requires 2 * padLen <= |padded|
    ensures |r| == |padded| - 2 * padLen
    ensures forall i :: 0 <= i < |r| ==> r[i] == padded[padLen + i]
  {
    padded[padLen..|padded| - padLen]
  }

  /** For an in-range pad length the left block is `signal[p], …, signal[1]`. */
  lemma {:induction false} LeftMirrorAt(signal: seq<real>, p: int)
    requires 0 <= p < |signal|
    ensures |LeftMirror(signal, p)| == p
    ensures forall k :: 0 <= k < p ==> LeftMirror(signal, p)[k] == signal[p - k]
  {
    assert Bound(1, |signal|) == 1 && Bound(p + 1, |signal|) == p + 1;
    var inner := signal[1..p + 1];
    assert Slice(signal, 1, p + 1) == inner;
    forall k | 0 <= k < p ensures LeftMirror(signal, p)[k] == signal[p - k] {
      assert Reverse(inner)[k] == inner[p - 1 - k];
    }
  }

  /** For an in-range pad length the right block is `signal[n-2], …, signal[n-1-p]`. */
  lemma {:induction false} RightMirrorAt(signal: seq<real>, p: int)
    requires 0 <= p < |signal|
    ensures |RightMirror(signal, p)| == p
    ensures forall k :: 0 <= k < p ==> RightMirror(signal, p)[k] == signal[|signal| - 2 - k]
  {
    var n := |signal|;
    var lo, hi := n - p - 1, n - 1;
    assert Bound(-p - 1, n) == lo && Bound(-1, n) == hi;
    var outer := signal[lo..hi];
    assert Slice(signal, -p - 1, -1) == outer;
    var right := Reverse(outer);
    assert RightMirror(signal, p) == right;
    forall k | 0 <= k < p ensures right[k] == signal[n - 2 - k] {
      assert right[k] == outer[p - 1 - k] == signal[lo + (p - 1 - k)];
    }
  }

  /** `r` is `signal` with `p` mirrored samples on each side: position
      `k < p` holds `signal[p - k]`, positions `p .. p + n - 1` hold the
      signal unchanged, and position `p + n + k` of the right block
      (written `j` below) holds `signal[n - 2 - k]`. */
  ghost predicate MirrorLayout(r: seq<real>, signal: seq<real>, p: nat)
  {
    && p < |signal| && |r| == |signal| + 2 * p
    && (forall k :: 0 <= k < p ==> r[k] == signal[p - k])
    && r[p..p + |signal|] == signal
    && (forall j :: p + |signal| <= j < |signal| + 2 * p ==>
          r[j] == signal[|signal| - 2 - (j - p - |signal|)])
  }

  lemma {:induction false} MirrorLayoutSymmetric(r: seq<real>, signal: seq<real>, p: nat)
    requires MirrorLayout(r, signal, p)
    ensures forall j :: 0 <= j <= p ==> r[j] == r[2 * p - j]
    ensures forall j :: |signal| - 1 <= j <= p + |signal| - 1 ==> r[j] == r[2 * (p + |signal| - 1) - j]
  {
    var n := |signal|;
    forall j | 0 <= j <= p ensures r[j] == r[2 * p - j] {
      if j < p {
        assert r[p + (p - j)] == r[p..p + n][p - j] == signal[p - j];
      }
    }
    forall j | n - 1 <= j <= p + n - 1 ensures r[j] == r[2 * (p + n - 1) - j] {
      var k := p + n - 1 - j;
      if 0 < k {
        assert r[p + (n - 1 - k)] == r[p..p + n][n - 1 - k] == signal[n - 1 - k];
        var j' := 2 * (p + n - 1) - j;
        assert r[j'] == signal[n - 2 - (j' - p - n)];
      }
    }
  }

  /** Mirror blocks around the signal give the mirror layout. */
  lemma {:induction false} ConcatLayout(left: seq<real>, signal: seq<real>, right: seq<real>, p: nat)
    requires p < |signal| && |left| == p && |right| == p
    requires forall k :: 0 <= k < p ==> left[k] == signal[p - k]
    requires forall k :: 0 <= k < p ==> right[k] == signal[|signal| - 2 - k]
    ensures MirrorLayout(left + signal + right, signal, p)
  {
    var n, r := |signal|, left + signal + right;
    forall k | 0 <= k < p ensures r[k] == signal[p - k] {
      assert r[k] == left[k];
    }
    assert r[p..p + n] == signal;
    forall j | p + n <= j < n + 2 * p ensures r[j] == signal[n - 2 - (j - p - n)] {
      assert r[j] == right[j - p - n];
    }
  }

  /** Exact layout for an in-range pad length: the `p` samples after the
      first one, mirrored; the signal unchanged; the `p` samples before the
      last one, mirrored. */
  lemma {:induction false} ReflectPadLayout(signal: seq<real>, p: int)
    requires 0 <= p < |signal|
    ensures MirrorLayout(ReflectPad(signal, p), signal, p)
  {
    LeftMirrorAt(signal, p);
    RightMirrorAt(signal, p);
    ConcatLayout(LeftMirror(signal, p), signal, RightMirror(signal, p), p);
  }

  /** The padded signal is mirror-symmetric about the first sample (at
      position `p`) and about the last one (at position `p + n - 1`). */
  lemma {:induction false} ReflectPadSymmetric(signal: seq<real>, p: int)
    requires 0 <= p < |signal|
    ensures forall j :: 0 <= j <= p ==> ReflectPad(signal, p)[j] == ReflectPad(signal, p)[2 * p - j]
    ensures forall j :: |signal| - 1 <= j <= p + |signal| - 1 ==>
              ReflectPad(signal, p)[j] == ReflectPad(signal, p)[2 * (p + |signal| - 1) - j]
  {
    ReflectPadLayout(signal, p);
    MirrorLayoutSymmetric(ReflectPad(signal, p), signal, p);
  }

  /** Trimming the pad length off both ends gives back the signal. */
  lemma {:induction false} TrimReflectPad(signal: seq<real>, p: int)
    requires 0 <= p < |signal|
    ensures Trim(ReflectPad(signal, p), p) == signal
  {
    assert Width(|signal|, p) == p;
  }

  /** For a positive pad length the caller's `padded[p:-p]` is that trim;
      for `p == 0` it would be `padded[0:0]`, which is empty. */
  lemma {:induction false} TrimIsPythonSlice(padded: seq<real>, p: int)
    requires 0 <= p && 2 * p <= |padded|
    ensures 0 < p ==> Slice(padded, p, -p) == Trim(padded, p)
    ensures p == 0 ==> Slice(padded, p, -p) == []
  {
    if 0 < p {
      assert Bound(-p, |padded|) == |padded| - p;
    }
  }

  /** A zero pad length adds nothing. */
  lemma {:induction false} ReflectPadZero(signal: seq<real>)
    ensures ReflectPad(signal, 0) == signal
  {
    assert Width(|signal|, 0) == 0;
  }

  /** Nothing rejects a negative pad length either. With `-1` the left
      block `signal[1:0]` is empty while the right block `signal[0:-1]`
      reversed holds `n - 1` samples: the result is lopsided, `2n - 1` long. */
  lemma {:induction false} ReflectPadMinusOne(signal: seq<real>)
    requires 1 <= |signal|
    ensures |ReflectPad(signal, -1)| == 2 * |signal| - 1
    ensures ReflectPad(signal, -1) == signal + Reverse(signal[..|signal| - 1])
  {
    var n := |signal|;
    assert Bound(0, n) == 0;
    assert Slice(signal, 1, 0) == [];
    assert Bound(-1, n) == n - 1;
    assert Slice(signal, 0, -1) == signal[..n - 1];
    assert [] + signal == signal;
  }

  /** With `-k` for `2 <= k <= n` both blocks have `n - k` samples:
      `signal[1 .. n-k]` and `signal[k-1 .. n-2]`, each reversed. */
  lemma {:induction false} ReflectPadNegative(signal: seq<real>, k: int)
    requires 2 <= k <= |signal|
    ensures |ReflectPad(signal, -k)| == 3 * |signal| - 2 * k
    ensures ReflectPad(signal, -k) ==
              Reverse(signal[1..|signal| + 1 - k]) + signal + Reverse(signal[k - 1..|signal| - 1])
  {
    var n := |signal|;
    assert Bound(1, n) == 1 && Bound(1 - k, n) == n + 1 - k;
    assert Slice(signal, 1, 1 - k) == signal[1..n + 1 - k];
    assert Bound(k - 1, n) == k - 1 && Bound(-1, n) == n - 1;
    assert Slice(signal, k - 1, -1) == signal[k - 1..n - 1];
  }

  /** Those blocks are the mirror blocks of width `n - k`: a pad length of
      `-k` with `2 <= k <= n` pads as `n - k` does. */
  lemma {:induction false} ReflectPadNegativeShift(signal: seq<real>, k: int)
    requires 2 <= k <= |signal|
    ensures ReflectPad(signal, -k) == ReflectPad(signal, |signal| - k)
    ensures MirrorLayout(ReflectPad(signal, -k), signal, |signal| - k)
  {
    var n := |signal|;
    ReflectPadNegative(signal, k);
    assert Bound(1, n) == 1 && Bound(n - k + 1, n) == n - k + 1;
    assert Slice(signal, 1, n - k + 1) == signal[1..n + 1 - k];
    assert Bound(-(n - k) - 1, n) == k - 1 && Bound(-1, n) == n - 1;
    assert Slice(signal, -(n - k) - 1, -1) == signal[k - 1..n - 1];
    ReflectPadLayout(signal, n - k);
  }

  /** A pad length of `-k` with `k > n` leaves both blocks empty. */
  lemma {:induction false} ReflectPadFarNegative(signal: seq<real>, k: int)
    requires |signal| < k
    ensures ReflectPad(signal, -k) == signal
  {
    var n := |signal|;
    assert Bound(1 - k, n) <= 1;
    assert Slice(signal, 1, 1 - k) == [];
    assert Bound(k - 1, n) == n;
    assert Slice(signal, k - 1, -1) == [];
    assert [] + signal + [] == signal;
  }

  /** Nothing rejects `p >= |signal|`: each side silently receives only the
      `n - 1` samples other than its endpoint, so the length is `3n - 2`. */
  lemma {:induction false} ReflectPadOverlong(signal: seq<real>, p: int)
    requires 1 <= |signal| <= p
    ensures |ReflectPad(signal, p)| == 3 * |signal| - 2
    ensures ReflectPad(signal, p) ==
              Reverse(signal[1..]) + signal + Reverse(signal[..|signal| - 1])
  {
    var n := |signal|;
    assert Slice(signal, 1, p + 1) == signal[1..];
    assert Bound(-p - 1, n) == 0;
    assert Slice(signal, -p - 1, -1) == signal[..n - 1];
  }
}
