# Trend extraction, mirror padding and the live-plot sample buffer, in Dafny

This project models the sequential logic of a small time-series toolkit:

- **Mirror padding** (`scripts/reflection_padding.py`). `reflect_pad(signal, pad_len)` reflects a signal about its first and last samples without repeating them. A caller filters the padded signal and then slices `pad_len` samples off each end. The model gives the exact layout, the symmetry about both endpoints, the pad-then-trim round trip, and what happens when the pad length is not below the signal length. Python's slice rules (negative bounds, clamping, `[::-1]`) are spelled out in module `PySlice`.
- **Trend extractor** (`scripts/extract_trend.py`). `TrendExtractor` is a class holding one series and a cached trend. Every smoothing method replaces the cache with exactly the trend it returns, and none of them touches the series. The model covers:
  - pandas' rolling-mean window rule (which positions are defined, and the mean of each window);
  - the Fourier bin mask `fft_filtered[keep:-keep] = 0`, as an in-place loop on a copied array;
  - the normalised Butterworth cutoff `cutoff / (0.5 * fs)`;
  - the validity rule that the `savgol` doc comment states but nothing checks;
  - the module-level `original`.

  The numerical libraries (LOWESS, the Kalman filter, Savitzky-Golay, Butterworth design and `filtfilt`, FFT/IFFT) are passed in as partial functions in a `Numerics` record. `None` stands for the exception the library raises.
- **Sample buffer** (`scripts/client.py`, `on_message`). The handler splits a message on `,` and takes the third whitespace word of field 0 as the time and fields 1 and 2 as numbers. It appends each value to one of three parallel lists and drops the oldest entry once more than 500 are held. `strptime` and `float` are passed in as partial functions. The handler is modelled as written, including its defect. A corrected handler is modelled beside it.

Modules: `Wrappers` (Option, Result), `PySlice`, `ReflectionPadding`, `TextSplit` (`str.split(',')` and `str.split()`), `RollingWindow`, `FourierMask`, `ExtractTrend`, `Client`.

Several parameter checks one might expect are absent from the code. The model follows the code:

- Padding might be expected to refuse pad lengths outside `(0, len)`. The code checks nothing: `p = 0` returns the signal, `p >= len` silently truncates each side to `len - 1` samples, and a negative `p` is accepted too: `-1` puts `len - 1` samples on the right only, `-k` for `2 <= k <= len` pads as `len - k` does, and `-k` for `k > len` returns the signal.
- Savitzky-Golay might be expected to refuse even windows. The method checks nothing, and its own default window (12) is even. The outcome is whatever SciPy does.
- The Butterworth filter might be expected to refuse a normalised cutoff of 1 or more. The method itself checks nothing; SciPy's `butter` decides. `fs == 0` raises a division by zero before that.
- Fourier `keep` might be expected to lie in `[1, N/2)`. The code checks nothing: `keep = 0` and `2 * keep >= N` zero no bin at all.
- The identity accessor `original` reads like a method of the extractor, but it is indented at module level and takes the extractor as an argument.

## Model

| member | source | states |
|---|---|---|
| PySlice.Bound | scripts/reflection_padding.py:6-7 | a slice bound is taken from the end when negative and clamped into `[0, n]` |
| PySlice.Slice | scripts/reflection_padding.py:6-7 | `s[a:b]` is the stretch between the normalised bounds, or empty when they cross |
| PySlice.Reverse | scripts/reflection_padding.py:6-7 | `[::-1]` keeps the length and puts `s[n-1-k]` at position `k` |
| ReflectionPadding.ReflectPad | scripts/reflection_padding.py:4-8 | for any pad length the signal sits unchanged between the two blocks; for a non-negative one the result has length `n + 2w`, where `w` is the width each side really gets |
| ReflectionPadding.Trim | scripts/reflection_padding.py:22 | trimming `p` from each end leaves `n - 2p` samples, sample `i` being padded sample `p + i` |
| ReflectionPadding.LeftMirrorAt | scripts/reflection_padding.py:6 | for `0 <= p < n` the left block has `p` samples, position `k` holding `signal[p - k]`, so the first sample is not repeated |
| ReflectionPadding.RightMirrorAt | scripts/reflection_padding.py:7 | for `0 <= p < n` the right block has `p` samples, position `k` holding `signal[n - 2 - k]`, so the last sample is not repeated |
| ReflectionPadding.ReflectPadLayout | scripts/reflection_padding.py:4-8 | for `0 <= p < n`: length `n + 2p`, then mirrored left block, the signal unchanged, mirrored right block |
| ReflectionPadding.ReflectPadSymmetric | scripts/reflection_padding.py:4-8 | the padded signal is mirror-symmetric about position `p` (the first sample) and about `p + n - 1` (the last), for reach up to `p` |
| ReflectionPadding.TrimReflectPad | scripts/reflection_padding.py:15-22 | trimming `p` from each end of the padded signal gives back the signal exactly |
| ReflectionPadding.TrimIsPythonSlice | scripts/reflection_padding.py:22 | for `p >= 1` the caller's `y[p:-p]` is that trim; for `p = 0` it is `y[0:0]`, which is empty |
| ReflectionPadding.ReflectPadZero | scripts/reflection_padding.py:6-8 | a pad length of 0 returns the signal |
| ReflectionPadding.ReflectPadMinusOne | scripts/reflection_padding.py:6-8 | nothing refuses `p = -1`: the left block is empty and the right holds `n - 1` samples, so the result is `signal + reversed(signal[:-1])`, `2n - 1` long |
| ReflectionPadding.ReflectPadNegative | scripts/reflection_padding.py:6-8 | for `p = -k`, `2 <= k <= n`, both blocks have `n - k` samples, `signal[1:n+1-k]` and `signal[k-1:-1]` reversed |
| ReflectionPadding.ReflectPadNegativeShift | scripts/reflection_padding.py:6-8 | for `2 <= k <= n` a pad length of `-k` gives exactly the padding of width `n - k`, with its mirror layout |
| ReflectionPadding.ReflectPadFarNegative | scripts/reflection_padding.py:6-8 | a pad length of `-k` with `k > n` leaves both blocks empty and returns the signal |
| ReflectionPadding.ReflectPadOverlong | scripts/reflection_padding.py:6-7 | nothing refuses `p >= n >= 1`: each side silently gets the `n - 1` non-endpoint samples and the length is `3n - 2`, not `n + 2p` |
| TextSplit.Split | scripts/client.py:24 | `split(',')` always yields at least one piece |
| TextSplit.SplitJoin | scripts/client.py:24 | joining the pieces with `,` gives back the message; no piece holds `,`; there is one piece more than separators |
| TextSplit.WordsSpec | scripts/client.py:27 | `split()` yields non-empty words without whitespace, and together they are exactly the non-whitespace characters in order |
| TextSplit.WordsBreak | scripts/client.py:27 | any whitespace character ends a word: the words of `a + [c] + b` are those of `a` followed by those of `b`, so words are maximal runs |
| TextSplit.WordsAllSpace | scripts/client.py:27 | a text of whitespace only has no words |
| Client.ParseFields | scripts/client.py:24-29 | a message parses fully exactly when it has at least 3 fields, field 0 has at least 3 words, and the third word and fields 1 and 2 parse; the parsed values are those |
| Client.ExampleFields | scripts/client.py:18-20 | the comment's example message splits into the three fields the comment shows |
| Client.ExampleWords | scripts/client.py:27 | field 0 of the example has the words `0`, `days`, `00:00:00.016000`, so the time text is `00:00:00.016000` |
| Client.ParseExample | scripts/client.py:18-29 | the example message parses completely to its time and two numbers |
| Client.ParseBadX | scripts/client.py:24-29 | the message `0 days 00:00:00.016000,abc,1`, whose x does not parse, binds only the time |
| Client.CompleteKeepsWindow | scripts/client.py:38-46 | a fully parsed message appends one value to the end of each list and drops the oldest past 500; aligned lists of at most 500 stay aligned and at most 500, holding the latest entries |
| Client.NothingParsedUnchanged | scripts/client.py:26-38 | when the time does not parse, `ts_val` is unbound, the handler raises before any append, and all three lists are unchanged |
| Client.PartialParseDesyncs | scripts/client.py:26-40 | when the time parses but x or y does not, `ts` (and `x_data`) are appended before the raise, and the lists lose alignment |
| Client.PartialParseOverflows | scripts/client.py:38-46 | a partial parse skips the length check, so from 500 entries `ts` reaches 501, and the next fully parsed message leaves it at 501 |
| Client.OverflowPersists | scripts/client.py:38-46 | once `ts` holds more than 500 entries, no stream of later messages shrinks it, and a stream of fully parsed messages keeps its length exactly |
| Client.ReceiveAtomic | scripts/client.py:26-46 | corrected handler: only a fully parsed message changes the lists, and it does so as the as-written handler does |
| Client.StreamKeepsLatest | scripts/client.py:38-46 | with the corrected handler, after any stream the lists hold the latest at most 500 fully parsed samples in arrival order, equally long and position-aligned |
| Client.SampleBuffer.constructor | scripts/client.py:11-13 | the three lists start empty |
| Client.SampleBuffer.OnMessage | scripts/client.py:16-46 | the lists become `Receive(old lists, Parse(message))`, and the handler raises on the first unbound value |
| Client.SampleBuffer.OnMessageAtomic | scripts/client.py:16-46 | corrected handler: lists become `ReceiveAtomic(...)`, stay aligned and at most 500 long; reports whether the message was stored |
| RollingWindow.Present | scripts/extract_trend.py:43 | the numbers of a window without NaN, one per position |
| RollingWindow.RollingMean | scripts/extract_trend.py:43 | the rolling mean has the series' length |
| RollingWindow.TrailingWindow | scripts/extract_trend.py:43 | with `center=False`, position `i` is defined iff `i >= w - 1` and `i-w+1 .. i` hold no NaN, and is then the mean of that window |
| RollingWindow.CentredWindow | scripts/extract_trend.py:43 | with a centred odd window `2h+1`, position `i` is defined iff `h <= i < n - h` and `i-h .. i+h` hold no NaN, and is then the mean of that window |
| RollingWindow.CentredEdgesUndefined | scripts/extract_trend.py:43 | with a centred odd window the first and last `(w-1)/2` positions are NaN |
| RollingWindow.TooWideUndefined | scripts/extract_trend.py:43 | a window longer than the series makes every position NaN |
| RollingWindow.WindowOneIsIdentity | scripts/extract_trend.py:43 | a window of 1 returns the series unchanged, NaN included |
| RollingWindow.SumConstant | scripts/extract_trend.py:43 | the sum of `k` copies of `c` is `k * c` |
| RollingWindow.ConstantSeries | scripts/extract_trend.py:43 | a constant series has that constant wherever the mean is defined |
| FourierMask.MaskBins | scripts/extract_trend.py:161 | the masked spectrum keeps the spectrum's length |
| FourierMask.MaskLayout | scripts/extract_trend.py:161 | for `keep >= 1`, bins `j < keep` and `j >= n - keep` are copied and every bin between is zero |
| FourierMask.MaskPassThrough | scripts/extract_trend.py:161 | with `keep = 0` or `2 * keep >= n` the slice is empty and the spectrum passes through unchanged |
| FourierMask.ZeroSlice | scripts/extract_trend.py:160-161 | the in-place slice assignment on the copied array leaves exactly `MaskBins` of the old contents |
| ExtractTrend.Realign | scripts/extract_trend.py:66 | `pd.Series(values, index)` succeeds iff the lengths agree, keeping both; otherwise it fails with a shape mismatch |
| ExtractTrend.RealPart | scripts/extract_trend.py:162 | `.real` keeps the length and takes each bin's real part |
| ExtractTrend.RollingTrend | scripts/extract_trend.py:43 | fails iff the window is negative; otherwise the rolling mean on the series' own index |
| ExtractTrend.RollingWindowOne | scripts/extract_trend.py:43 | the rolling trend with window 1 is the series itself |
| ExtractTrend.LowessTrend | scripts/extract_trend.py:62-66 | succeeds iff LOWESS returns one value per index label; the trend is those values on the series' index |
| ExtractTrend.KalmanTrend | scripts/extract_trend.py:86-91 | an empty series fails on `values[0]`; it succeeds iff the series is non-empty and the filter returns one state mean per label, and a success holds those means on the series' index |
| ExtractTrend.SavgolTrend | scripts/extract_trend.py:113-114 | succeeds iff the library does and returns one value per label, whatever the window; nothing is validated first |
| ExtractTrend.SavgolDefaults | scripts/extract_trend.py:95-102 | the default window 12 (order 2) and window 10 (order 3) fail the doc comment's "odd and greater than polyorder"; 21 with order 3 meets it |
| ExtractTrend.NormalCutoff | scripts/extract_trend.py:137-138 | fails iff `fs == 0`; otherwise the normalised cutoff times `fs` is `2 * cutoff`, i.e. it is `2 * cutoff / fs` |
| ExtractTrend.CutoffBelowNyquist | scripts/extract_trend.py:137-138 | for `fs > 0` the normalised cutoff is below 1 iff the cutoff is below `fs / 2` |
| ExtractTrend.CutoffExample | scripts/extract_trend.py:137-138 | cutoff 6 at `fs` 10 normalises to 1.2, past Nyquist |
| ExtractTrend.LowpassTrend | scripts/extract_trend.py:137-141 | `fs == 0` fails; it succeeds iff `fs != 0`, `butter` designs a filter and `filtfilt` returns one value per label, and a success is that output on the series' index |
| ExtractTrend.FourierTrend | scripts/extract_trend.py:159-163 | it succeeds iff `fft` and `ifft` of the masked spectrum succeed and give one value per label; a success is the real part of that `ifft`, on the series' index |
| ExtractTrend.FourierKeepAll | scripts/extract_trend.py:159-163 | with `keep = 0` or `2 * keep >= n` the trend is the real part of `ifft(fft(values))` |
| ExtractTrend.TrendExtractor.constructor | scripts/extract_trend.py:23-25 | a new extractor holds the series and no cached trend |
| ExtractTrend.TrendExtractor.Rolling | scripts/extract_trend.py:27-45 | returns `RollingTrend`; caches it on success, keeps the old cache on failure; the series is untouched |
| ExtractTrend.TrendExtractor.Lowess | scripts/extract_trend.py:47-68 | returns `LowessTrend`; caches it on success, keeps the old cache on failure; the series is untouched |
| ExtractTrend.TrendExtractor.Kalman | scripts/extract_trend.py:70-93 | returns `KalmanTrend`; caches it on success, keeps the old cache on failure; the series is untouched |
| ExtractTrend.TrendExtractor.Savgol | scripts/extract_trend.py:95-116 | returns `SavgolTrend`; caches it on success, keeps the old cache on failure; the series is untouched |
| ExtractTrend.TrendExtractor.Lowpass | scripts/extract_trend.py:118-143 | returns `LowpassTrend`; caches it on success, keeps the old cache on failure; the series is untouched |
| ExtractTrend.TrendExtractor.Fourier | scripts/extract_trend.py:145-165 | returns `FourierTrend`, masking a copied array in place; caches it on success, keeps the old cache on failure; the series is untouched |
| ExtractTrend.Original | scripts/extract_trend.py:167-177 | module-level: caches the series itself as the trend and returns it unchanged (the identity) |

Every method of `TrendExtractor` may modify only the `trend` field. Its parameters default as in the source (`window := 3, center := true`, `frac := 0.1`, `nIter := 5, nDimObs := 1`, `window := 12, polyorder := 2`, `cutoff := 0.1, fs := 1.0, order := 4`, `keep := 10`); the numerical library is the first parameter because it has none. Each keeps `Valid()`: any cached trend has the series' index and one value per label.

## Findings

| source | as written | input that shows it | evidently intended | confidence | as-written member | corrected member |
|---|---|---|---|---|---|---|
| scripts/client.py:26-46 | the bare `except` only prints, and the appends then run until the first unbound value | a message whose time parses but whose x does not (e.g. `0 days 00:00:00.016000,abc,1`): `ts` gains an entry and `x_data`/`y_data` do not; at 500 entries `ts` goes to 501 and stays there | a malformed message is reported and leaves all three lists unchanged | high (derived from the code; not executed) | `Client.Receive`, `Client.ParseBadX`, `Client.PartialParseDesyncs`, `Client.PartialParseOverflows`, `Client.OverflowPersists` | `Client.ReceiveAtomic`, `Client.StreamKeepsLatest`, `Client.SampleBuffer.OnMessageAtomic` |

## Left out

- The numerical libraries (statsmodels LOWESS, pykalman's EM and filter, SciPy's `savgol_filter`, `butter` and `filtfilt`, NumPy's `fft`/`ifft`) are function-valued parameters. Their numerics, tolerances and own parameter checks are not modelled, so neither is the claim that `ifft(fft(x))` reproduces `x`.
- Floating point: values are `real` and NaN is `None`. No rounding behaviour is modelled.
- ExtractTrend.FourierTrend: FFT bins are complex numbers without NaN, so a series holding NaN cannot give NumPy's all-NaN trend on this path. The `fft` parameter either fails or returns finite bins, and a successful Fourier trend holds no missing value.
- Rolling window 0: pandas accepts it and yields NaN everywhere. The model does the same because a window of 0 is never full. Non-integer windows and the index-conversion failure of `lowess` (`to_timestamp` on a non-period index) are folded into the library parameters or not modelled.
- `datetime.strptime` and `float` are partial-function parameters; their parsing rules are not modelled.
- In scripts/client.py, the WebSocket thread and connection (lines 49-67) and the matplotlib animation (lines 69-88) are network, concurrency and UI. The handler's `print` calls are output only. After a raise, the WebSocket library keeps delivering later messages; the model keeps the lists as the failed call left them.
- The example and plotting code in scripts/reflection_padding.py (lines 10-31, apart from the trim at line 22) and the `__main__` block of scripts/extract_trend.py are demonstration code.
- The demos and assessments directories (echo and random-signal WebSocket servers, listeners and a Node file streamer) are network I/O with no sequential logic beyond a `tail(100)`.
- Python objects are modelled as values: `reflect_pad` builds a new sequence and the input is never modified. `original` makes `trend` and `series` the same object in Python; the model records equal values.
