/** `TrendExtractor` (scripts/extract_trend.py): holds one time series and
    caches the trend its last smoothing call returned. The numerical
    libraries it calls (statsmodels' LOWESS, pykalman, SciPy's
    Savitzky-Golay filter, Butterworth design and `filtfilt`, NumPy's FFT)
    are parameters; what is modelled is the index, mask, validity and state
    rules around them. */
module ExtractTrend {
  import opened Wrappers
  import RollingWindow
  import opened FourierMask

  /** A pandas Series: an index (periods, as integers) and values, a missing
      value (NaN) being `None`. */
  datatype Series = Series(index: seq<int>, values: seq<Option<real>>)
  {
    /** pandas keeps one value per index label. */
    predicate WellFormed()
    {
      |index| == |values|
    }
  }

  /** The exceptions a smoothing call can raise, by cause. */
  datatype Failure =
    | InvalidWindow   // pandas refuses a negative window
    | EmptySeries     // `values[0]` of an empty series
    | ZeroDivision    // `cutoff / nyquist` with `fs == 0`
    | LibraryError    // the numerical library raised
    | ShapeMismatch   // `pd.Series(values, index)` with a length mismatch

  type Coefficients = (seq<real>, seq<real>)

  /** The numerical library calls, as partial functions; `None` stands for
      the exception the library raises. */
  datatype Numerics = Numerics(
    /** `lowess(values, index as int64, frac=…)`, including the index conversion */
    lowess: (seq<Option<real>>, seq<int>, real) -> Option<seq<Option<real>>>,
    /** `KalmanFilter(initial_state_mean, n_dim_obs).em(values, n_iter).filter(values)`, flattened */
    kalman: (Option<real>, int, seq<Option<real>>, int) -> Option<seq<Option<real>>>,
    /** `savgol_filter(series, window_length, polyorder)` */
    savgol: (seq<Option<real>>, int, int) -> Option<seq<Option<real>>>,
    /** `butter(order, normal_cutoff, btype='low')` */
    butter: (int, real) -> Option<Coefficients>,
    /** `filtfilt(b, a, series)` */
    filtfilt: (Coefficients, seq<Option<real>>) -> Option<seq<Option<real>>>,
    /** `np.fft.fft` and `np.fft.ifft` */
    fft: seq<Option<real>> -> Option<seq<Complex>>,
    ifft: seq<Complex> -> Option<seq<Complex>>)

  /** `pd.Series(values, index=index)`. */
  function Realign(values: seq<Option<real>>, index: seq<int>): (r: Result<Series, Failure>)
    ensures r.Success? <==> |values| == |index|
    ensures r.Success? ==> r.value.index == index && r.value.values == values && r.value.WellFormed()
    ensures r.Failure? ==> r.error == ShapeMismatch
  {
    if |values| == |index| then Success(Series(index, values)) else Failure(ShapeMismatch)
  }

  /** `.real` of the inverse transform. */
  function RealPart(zs: seq<Complex>): (r: seq<Option<real>>)
    ensures |r| == |zs|
    ensures forall j :: 0 <= j < |zs| ==> r[j] == Some(zs[j].re)
  {
    seq(|zs|, j requires 0 <= j < |zs| => Some(zs[j].re))
  }

  /** `rolling`: the moving average, on the series' own index. */
  function RollingTrend(s: Series, window: int, center: bool): (r: Result<Series, Failure>)
    requires s.WellFormed()
    ensures r.Failure? <==> window < 0
    ensures r.Success? ==> r.value.index == s.index && r.value.WellFormed()
    ensures r.Success? ==> r.value.values == RollingWindow.RollingMean(s.values, window, center)
  {
    if window < 0 then Failure(InvalidWindow)
    else Success(Series(s.index, RollingWindow.RollingMean(s.values, window, center)))
  }

  /** With a window of one, the rolling trend is the series itself. */
  lemma RollingWindowOne(s: Series, center: bool)
    requires s.WellFormed()
    ensures RollingTrend(s, 1, center) == Success(s)
  {
    RollingWindow.WindowOneIsIdentity(s.values, center);
  }

  function LowessTrend(s: Series, frac: real, lib: Numerics): (r: Result<Series, Failure>)
    requires s.WellFormed()
    ensures r.Success? <==>
              lib.lowess(s.values, s.index, frac).Some?
              && |lib.lowess(s.values, s.index, frac).value| == |s.index|
    ensures r.Success? ==> r.value == Series(s.index, lib.lowess(s.values, s.index, frac).value)
  {
    match lib.lowess(s.values, s.index, frac)
    case None => Failure(LibraryError)
    case Some(smoothed) => Realign(smoothed, s.index)
  }

  /** `kalman`: the initial state mean is the first value, so an empty series
      fails before the library is called. */
  function KalmanTrend(s: Series, nIter: int, nDimObs: int, lib: Numerics): (r: Result<Series, Failure>)
    requires s.WellFormed()
    ensures s.values == [] ==> r == Failure(EmptySeries)
    ensures r.Success? <==>
              && s.values != []
              && lib.kalman(s.values[0], nDimObs, s.values, nIter).Some?
              && |lib.kalman(s.values[0], nDimObs, s.values, nIter).value| == |s.index|
    ensures r.Success? ==>
              s.values != []
              && r.value == Series(s.index, lib.kalman(s.values[0], nDimObs, s.values, nIter).value)
  {
    if s.values == [] then Failure(EmptySeries)
    else match lib.kalman(s.values[0], nDimObs, s.values, nIter)
      case None => Failure(LibraryError)
      case Some(means) => Realign(means, s.index)
  }

  /** What the `savgol` doc comment asks of its parameters: an odd window
      longer than the polynomial order. */
  predicate SavgolParamsValid(window: int, polyorder: int)
  {
    window % 2 == 1 && window > polyorder
  }

  /** `savgol` checks nothing itself: its outcome is the library's,
      whatever the window. */
  function SavgolTrend(s: Series, window: int, polyorder: int, lib: Numerics): (r: Result<Series, Failure>)
    requires s.WellFormed()
    ensures r.Success? <==>
              lib.savgol(s.values, window, polyorder).Some?
              && |lib.savgol(s.values, window, polyorder).value| == |s.index|
    ensures r.Success? ==> r.value == Series(s.index, lib.savgol(s.values, window, polyorder).value)
  {
    match lib.savgol(s.values, window, polyorder)
    case None => Failure(LibraryError)
    case Some(smoothed) => Realign(smoothed, s.index)
  }

  /** The default window of `savgol` (12, with order 2) fails its own doc
      comment, and so does window 10 with order 3; the padding script's
      window 21 with order 3 meets it. */
  lemma SavgolDefaults()
    ensures !SavgolParamsValid(12, 2)
    ensures !SavgolParamsValid(10, 3)
    ensures SavgolParamsValid(21, 3)
  {
  }

  /** `cutoff / (0.5 * fs)`: the cutoff as a fraction of the Nyquist
      frequency; `fs == 0` divides by zero. */
  function NormalCutoff(cutoff: real, fs: real): (r: Option<real>)
    ensures r.None? <==> fs == 0.0
    ensures r.Some? ==> r.value * fs == 2.0 * cutoff
  {
    if fs == 0.0 then None
    else
      var nyquist := 0.5 * fs;
      Some(cutoff / nyquist)
  }

  /** For a positive sampling rate, the normalised cutoff is below 1 exactly
      when the cutoff is below the Nyquist frequency `fs / 2`. */
  lemma {:induction false} CutoffBelowNyquist(cutoff: real, fs: real)
    requires 0.0 < fs
    ensures NormalCutoff(cutoff, fs).value < 1.0 <==> cutoff < 0.5 * fs
  {
    var wn := NormalCutoff(cutoff, fs).value;
    assert wn * fs == 2.0 * cutoff;
    if wn < 1.0 {
      assert wn * fs < fs;
    } else {
      assert wn * fs >= fs;
    }
  }

  /** A cutoff of 6 at a sampling rate of 10 normalises to 1.2, past the Nyquist frequency. */
  lemma CutoffExample()
    ensures NormalCutoff(6.0, 10.0) == Some(1.2)
  {
  }

  function LowpassTrend(s: Series, cutoff: real, fs: real, order: int, lib: Numerics): (r: Result<Series, Failure>)
    requires s.WellFormed()
    ensures fs == 0.0 ==> r == Failure(ZeroDivision)
    ensures r.Success? <==>
              && fs != 0.0
              && lib.butter(order, NormalCutoff(cutoff, fs).value).Some?
              && var ba := lib.butter(order, NormalCutoff(cutoff, fs).value).value;
                 lib.filtfilt(ba, s.values).Some?
                 && |lib.filtfilt(ba, s.values).value| == |s.index|
    ensures r.Success? ==>
              && fs != 0.0
              && lib.butter(order, NormalCutoff(cutoff, fs).value).Some?
              && var ba := lib.butter(order, NormalCutoff(cutoff, fs).value).value;
                 lib.filtfilt(ba, s.values).Some?
                 && r.value == Series(s.index, lib.filtfilt(ba, s.values).value)
  {
    match NormalCutoff(cutoff, fs)
    case None => Failure(ZeroDivision)
    case Some(wn) =>
      match lib.butter(order, wn)
      case None => Failure(LibraryError)
      case Some(ba) =>
        match lib.filtfilt(ba, s.values)
        case None => Failure(LibraryError)
        case Some(smoothed) => Realign(smoothed, s.index)
  }

  function FourierTrend(s: Series, keep: int, lib: Numerics): (r: Result<Series, Failure>)
    requires s.WellFormed()
    ensures r.Success? <==>
              && lib.fft(s.values).Some?
              && lib.ifft(MaskBins(lib.fft(s.values).value, keep)).Some?
              && |lib.ifft(MaskBins(lib.fft(s.values).value, keep)).value| == |s.index|
    ensures r.Success? ==>
              && lib.fft(s.values).Some?
              && lib.ifft(MaskBins(lib.fft(s.values).value, keep)).Some?
              && r.value == Series(s.index, RealPart(lib.ifft(MaskBins(lib.fft(s.values).value, keep)).value))
  {
    match lib.fft(s.values)
    case None => Failure(LibraryError)
    case Some(spectrum) =>
      match lib.ifft(MaskBins(spectrum, keep))
      case None => Failure(LibraryError)
      case Some(back) => Realign(RealPart(back), s.index)
  }

  /** With `keep == 0` or `2 * keep >= n` the mask changes nothing, so the
      trend is the real part of `ifft(fft(values))`. */
  lemma FourierKeepAll(s: Series, keep: int, lib: Numerics)
    requires s.WellFormed()
    requires lib.fft(s.values).Some?
    requires keep == 0 || (0 <= keep && |lib.fft(s.values).value| <= 2 * keep)
    ensures FourierTrend(s, keep, lib) ==
              match lib.ifft(lib.fft(s.values).value)
              case None => Failure(LibraryError)
              case Some(back) => Realign(RealPart(back), s.index)
  {
    MaskPassThrough(lib.fft(s.values).value, keep);
  }

  /** The extractor: one series and the trend of the last successful call.
      Each method's parameters default as in the source; the numerical
      library comes first because it has no default. */
  class TrendExtractor {
    var series: Series
    var trend: Option<Series>

    /** Every cached trend is aligned with the series. */
    ghost predicate Valid()
      reads this
    {
      series.WellFormed() && (trend.Some? ==> trend.value.WellFormed() && trend.value.index == series.index)
    }

    constructor (series: Series)
      requires series.WellFormed()
      ensures Valid()
      ensures this.series == series && trend == None
    {
      this.series := series;
      trend := None;
    }

    method Rolling(window: int := 3, center: bool := true) returns (r: Result<Series, Failure>)
      requires Valid()
      modifies this`trend
      ensures Valid() && series == old(series)
      ensures r == RollingTrend(series, window, center)
      ensures trend == if r.Success? then Some(r.value) else old(trend)
    {
      r := RollingTrend(series, window, center);
      if r.Success? {
        trend := Some(r.value);
      }
    }

    method Lowess(lib: Numerics, frac: real := 0.1) returns (r: Result<Series, Failure>)
      requires Valid()
      modifies this`trend
      ensures Valid() && series == old(series)
      ensures r == LowessTrend(series, frac, lib)
      ensures trend == if r.Success? then Some(r.value) else old(trend)
    {
      r := LowessTrend(series, frac, lib);
      if r.Success? {
        trend := Some(r.value);
      }
    }

    method Kalman(lib: Numerics, nIter: int := 5, nDimObs: int := 1) returns (r: Result<Series, Failure>)
      requires Valid()
      modifies this`trend
      ensures Valid() && series == old(series)
      ensures r == KalmanTrend(series, nIter, nDimObs, lib)
      ensures trend == if r.Success? then Some(r.value) else old(trend)
    {
      r := KalmanTrend(series, nIter, nDimObs, lib);
      if r.Success? {
        trend := Some(r.value);
      }
    }

    method Savgol(lib: Numerics, window: int := 12, polyorder: int := 2) returns (r: Result<Series, Failure>)
      requires Valid()
      modifies this`trend
      ensures Valid() && series == old(series)
      ensures r == SavgolTrend(series, window, polyorder, lib)
      ensures trend == if r.Success? then Some(r.value) else old(trend)
    {
      r := SavgolTrend(series, window, polyorder, lib);
      if r.Success? {
        trend := Some(r.value);
      }
    }

    method Lowpass(lib: Numerics, cutoff: real := 0.1, fs: real := 1.0, order: int := 4) returns (r: Result<Series, Failure>)
      requires Valid()
      modifies this`trend
      ensures Valid() && series == old(series)
      ensures r == LowpassTrend(series, cutoff, fs, order, lib)
      ensures trend == if r.Success? then Some(r.value) else old(trend)
    {
      r := LowpassTrend(series, cutoff, fs, order, lib);
      if r.Success? {
        trend := Some(r.value);
      }
    }

    method Fourier(lib: Numerics, keep: int := 10) returns (r: Result<Series, Failure>)
      requires Valid()
      modifies this`trend
      ensures Valid() && series == old(series)
      ensures r == FourierTrend(series, keep, lib)
      ensures trend == if r.Success? then Some(r.value) else old(trend)
    {
      var spectrum := lib.fft(series.values);
      if spectrum.None? {
        return Failure(LibraryError);
      }
      var bins := spectrum.value;
      var filtered := new Complex[|bins|](j requires 0 <= j < |bins| => bins[j]);
      assert filtered[..] == bins;
      ZeroSlice(filtered, keep);
      var back := lib.ifft(filtered[..]);
      if back.None? {
        return Failure(LibraryError);
      }
      r := Realign(RealPart(back.value), series.index);
      if r.Success? {
        trend := Some(r.value);
      }
    }
  }

  /** `original`, which sits at module level although it takes `self`: it
      caches the series itself as the trend and returns it unchanged. */
  method Original(self: TrendExtractor) returns (r: Series)
    requires self.Valid()
    modifies self`trend
    ensures self.Valid() && self.series == old(self.series)
    ensures r == self.series && self.trend == Some(self.series)
  {
    self.trend := Some(self.series);
    return self.series;
  }
}
