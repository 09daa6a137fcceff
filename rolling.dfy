/** The moving average of `TrendExtractor.rolling`
    (scripts/extract_trend.py), which is pandas'
    `series.rolling(window, center).mean()` with its default
    `min_periods = window`. A missing value (NaN) is `None`. */
module RollingWindow {
  import opened Wrappers

  function Sum(s: seq<real>): real
  {
    if s == [] then 0.0 else s[0] + Sum(s[1..])
  }

  function Mean(s: seq<real>): real
    requires |s| > 0
  {
    Sum(s) / |s| as real
  }

  predicate AllPresent(s: seq<Option<real>>)
  {
    forall k :: 0 <= k < |s| ==> s[k].Some?
  }

  /** The numbers of a window without missing values. */
  function Present(s: seq<Option<real>>): (r: seq<real>)
    requires AllPresent(s)
    ensures |r| == |s|
    ensures forall k :: 0 <= k < |s| ==> Some(r[k]) == s[k]
  {
    seq(|s|, k requires 0 <= k < |s| => s[k].value)
  }

  /** How far a centred window reaches past its own position: pandas ends
      the window of position `i` at `i + 1 + (window - 1) // 2` (exclusive). */
  function Offset(window: nat, center: bool): nat
  {
    if center && 1 <= window then (window - 1) / 2 else 0
  }

  function WindowEnd(i: int, window: nat, center: bool): int
  {
    i + 1 + Offset(window, center)
  }

  function WindowStart(i: int, window: nat, center: bool): int
  {
    WindowEnd(i, window, center) - window
  }

  /** The whole (non-empty) window of position `i` lies inside a series of length `n`. */
  predicate FullWindow(n: nat, i: int, window: nat, center: bool)
  {
    1 <= window && 0 <= WindowStart(i, window, center) && WindowEnd(i, window, center) <= n
  }

  /** The moving average: a position is defined only when its whole window
      lies inside the series and holds no missing value; it is then the
      arithmetic mean of the window. */
  function RollingMean(values: seq<Option<real>>, window: nat, center: bool): (r: seq<Option<real>>)
    ensures |r| == |values|
  {
    seq(|values|, i requires 0 <= i < |values| =>
      if FullWindow(|values|, i, window, center)
         && AllPresent(values[WindowStart(i, window, center)..WindowEnd(i, window, center)])
      then Some(Mean(Present(values[WindowStart(i, window, center)..WindowEnd(i, window, center)])))
      else None)
  }

  /** A trailing window (`center=False`) covers positions `i - w + 1 .. i`. */
  lemma TrailingWindow(values: seq<Option<real>>, window: nat, i: nat)
    requires 1 <= window && i < |values|
    ensures RollingMean(values, window, false)[i].Some? <==>
              window - 1 <= i && AllPresent(values[i + 1 - window..i + 1])
    ensures RollingMean(values, window, false)[i].Some? ==>
              RollingMean(values, window, false)[i] == Some(Mean(Present(values[i + 1 - window..i + 1])))
  {
  }

  /** A centred odd window `w = 2h + 1` covers positions `i - h .. i + h`. */
  lemma CentredWindow(values: seq<Option<real>>, window: nat, i: nat)
    requires window % 2 == 1 && i < |values|
    ensures var h := window / 2;
              RollingMean(values, window, true)[i].Some? <==>
                h <= i < |values| - h && AllPresent(values[i - h..i + h + 1])
    ensures var h := window / 2;
              RollingMean(values, window, true)[i].Some? ==>
                RollingMean(values, window, true)[i] == Some(Mean(Present(values[i - h..i + h + 1])))
  {
    assert Offset(window, true) == window / 2;
  }

  /** With a centred odd window `2h + 1` the first and the last `h`
      positions are undefined, whatever the values. */
  lemma CentredEdgesUndefined(values: seq<Option<real>>, window: nat)
    requires window % 2 == 1
    ensures forall i :: 0 <= i < |values| && (i < window / 2 || |values| - window / 2 <= i) ==>
              RollingMean(values, window, true)[i] == None
  {
    forall i | 0 <= i < |values| && (i < window / 2 || |values| - window / 2 <= i)
      ensures RollingMean(values, window, true)[i] == None
    {
      CentredWindow(values, window, i);
    }
  }

  /** A window longer than the series leaves every position undefined. */
  lemma TooWideUndefined(values: seq<Option<real>>, window: nat, center: bool)
    requires |values| < window
    ensures forall i :: 0 <= i < |values| ==> RollingMean(values, window, center)[i] == None
  {
  }

  /** A window of one sample reproduces the series, missing values included. */
  lemma WindowOneIsIdentity(values: seq<Option<real>>, center: bool)
    ensures RollingMean(values, 1, center) == values
  {
    var r := RollingMean(values, 1, center);
    forall i | 0 <= i < |values| ensures r[i] == values[i] {
      assert Offset(1, center) == 0;
      assert values[i..i + 1] == [values[i]];
      if values[i].Some? {
        assert Present([values[i]]) == [values[i].value];
        assert Sum([values[i].value]) == values[i].value + Sum([]);
      }
    }
  }

  lemma {:induction false} SumConstant(s: seq<real>, c: real)
    requires forall k :: 0 <= k < |s| ==> s[k] == c
    ensures Sum(s) == |s| as real * c
  {
    if s != [] {
      SumConstant(s[1..], c);
    }
  }

  /** A constant series has that constant as its mean wherever the mean is defined. */
  lemma ConstantSeries(values: seq<Option<real>>, window: nat, center: bool, c: real)
    requires forall k :: 0 <= k < |values| ==> values[k] == Some(c)
    ensures forall i :: 0 <= i < |values| ==>
              RollingMean(values, window, center)[i] in {None, Some(c)}
  {
    var r := RollingMean(values, window, center);
    forall i | 0 <= i < |values| ensures r[i] in {None, Some(c)} {
      if r[i].Some? {
        var w := values[WindowStart(i, window, center)..WindowEnd(i, window, center)];
        var xs := Present(w);
        forall k | 0 <= k < |xs| ensures xs[k] == c {
          assert w[k] == values[WindowStart(i, window, center) + k];
        }
        SumConstant(xs, c);
        var n := |xs| as real;
        assert n > 0.0;
        assert r[i] == Some(Mean(xs));
        assert Mean(xs) == (n * c) / n;
        assert (n * c) / n == c;
      }
    }
  }
}
