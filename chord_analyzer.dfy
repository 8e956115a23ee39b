/** The `AudioAnalyzer` of `chord_audio/chord_detector.py`: the rolling
    sample window, the passes over the magnitude spectrum that follow the
    FFT (low-frequency cut, per-octave noise gate, peak picking), the
    history of recent note sets and the stable notes handed to chord
    matching. The FFT, the Hann window and the logarithm are not modelled:
    the spectrum, its frequency grid and the semitone offset of a frequency
    are inputs. */
module ChordAnalyzer {
  import opened Common
  import opened Ranking
  import opened ChordDetector

  const SAMPLE_FREQ: nat := 48000
  /** int(SAMPLE_FREQ * WINDOW_TIME) with WINDOW_TIME = 0.3. */
  const WINDOW_SIZE: nat := 14400
  /** Length of the real FFT of a window: WINDOW_SIZE / 2 + 1. */
  const SPECTRUM_BINS: nat := 7201
  const DELTA_FREQ: real := 48000.0 / 14400.0
  const POWER_THRESH: real := 0.000001
  /** Bins below 62 Hz: int(62 / DELTA_FREQ). */
  const LOW_CUT_BINS: nat := 18
  const OCTAVE_BANDS: seq<real> := [50.0, 100.0, 200.0, 400.0, 800.0, 1600.0, 3200.0, 6400.0, 12800.0, 25600.0]
  /** The band edges as bin indices: int(OCTAVE_BANDS[j] / DELTA_FREQ). */
  const BAND_BINS: seq<nat> := [15, 30, 60, 120, 240, 480, 960, 1920, 3840, 7680]
  const NUM_BANDS: nat := 9
  /** WHITE_NOISE_THRESH = 0.2, squared. */
  const NOISE_RATIO_SQUARED: real := 0.04
  const PEAK_RATIO: real := 0.3
  const MIN_PEAK_FREQ: real := 50.0
  const MAX_PEAKS: nat := 6
  const HISTORY_FRAMES: nat := 4

  /** The bin constants are the integer parts of the frequencies divided by
      the bin width. */
  lemma BinConstants()
    ensures LOW_CUT_BINS == (62.0 / DELTA_FREQ).Floor
    ensures |BAND_BINS| == |OCTAVE_BANDS| == NUM_BANDS + 1
    ensures forall j :: 0 <= j < |BAND_BINS| ==> BAND_BINS[j] == (OCTAVE_BANDS[j] / DELTA_FREQ).Floor
  {
  }

  // ---------------------------------------------------------------------
  // The rolling window

  /** `concatenate((window, block))[len(block):]`. */
  function Shifted(window: seq<real>, block: seq<real>): seq<real> {
    (window + block)[|block|..]
  }

  /** The shift keeps the window length; a block no longer than the window
      gives `old[k:] + block`, a longer one leaves its last samples. */
  lemma ShiftedWindow(window: seq<real>, block: seq<real>)
    ensures |Shifted(window, block)| == |window|
    ensures |block| <= |window| ==> Shifted(window, block) == window[|block|..] + block
    ensures |block| > |window| ==> Shifted(window, block) == block[|block| - |window|..]
  {
    var w := window + block;
    if |block| <= |window| {
      assert w[|block|..] == window[|block|..] + block;
    } else {
      assert w[|block|..] == block[|block| - |window|..];
    }
  }

  /** `any(indata)`: some sample is non-zero. */
  predicate AnyNonZero(block: seq<real>) {
    exists i :: 0 <= i < |block| && block[i] != 0.0
  }

  /** Mean square of the window (`norm(w) ** 2 / len(w)`). */
  function SignalPower(window: seq<real>): real
    requires |window| > 0
  {
    SumSq(window) / |window| as real
  }

  function SumSq(s: seq<real>): (r: real)
    ensures r >= 0.0
  {
    if s == [] then 0.0 else SumSq(s[..|s| - 1]) + s[|s| - 1] * s[|s| - 1]
  }

  // ---------------------------------------------------------------------
  // The low-frequency cut

  function LowCutSpec(s: seq<real>): (r: seq<real>)
    requires |s| >= LOW_CUT_BINS
    ensures |r| == |s|
  {
    seq(|s|, i requires 0 <= i < |s| => if i < LOW_CUT_BINS then 0.0 else s[i])
  }

  /** Zero every bin below 62 Hz, in place. */
  method LowCut(mag: array<real>)
    requires mag.Length >= LOW_CUT_BINS
    modifies mag
    ensures forall i :: 0 <= i < mag.Length ==> mag[i] == if i < LOW_CUT_BINS then 0.0 else old(mag[i])
    ensures mag[..] == LowCutSpec(old(mag[..]))
  {
    for i := 0 to LOW_CUT_BINS
      invariant forall k :: 0 <= k < mag.Length ==> mag[k] == if k < i then 0.0 else old(mag[k])
    {
      mag[i] := 0.0;
    }
  }

  // ---------------------------------------------------------------------
  // The per-octave noise gate

  function Min(a: int, b: int): int {
    if a < b then a else b
  }

  /** `magnitude < 0.2 * sqrt(meanSquare)`, stated without the square root:
      a negative magnitude is always below, a non-negative one is below
      exactly when its square is below 0.04 times the mean square. */
  predicate BelowNoise(m: real, meanSquare: real) {
    m < 0.0 || m * m < NOISE_RATIO_SQUARED * meanSquare
  }

  function MeanSquare(s: seq<real>, lo: nat, hi: nat): real
    requires lo < hi <= |s|
  {
    SumSq(s[lo..hi]) / (hi - lo) as real
  }

  /** One band of the gate: the mean square is taken over the band as it
      stands, then every bin of the band below the noise level is zeroed.
      An empty band changes nothing. */
  function GateBand(s: seq<real>, lo: nat, hi: nat): (r: seq<real>)
    requires hi <= |s|
    ensures |r| == |s|
  {
    if lo >= hi then s
    else
      var ms := MeanSquare(s, lo, hi);
      seq(|s|, i requires 0 <= i < |s| => if lo <= i < hi && BelowNoise(s[i], ms) then 0.0 else s[i])
  }

  function BandEnd(j: nat, n: nat): nat
    requires j < NUM_BANDS
  {
    Min(BAND_BINS[j + 1], n)
  }

  /** The first `j` bands of the gate applied in order. */
  function GateUpTo(s: seq<real>, j: nat): (r: seq<real>)
    requires j <= NUM_BANDS
    ensures |r| == |s|
  {
    if j == 0 then s else GateBand(GateUpTo(s, j - 1), BAND_BINS[j - 1], BandEnd(j - 1, |s|))
  }

  /** The band a bin lies in, or -1 outside all bands. */
  function BandOf(i: int): (b: int)
    ensures -1 <= b < NUM_BANDS
    ensures b >= 0 ==> BAND_BINS[b] <= i < BAND_BINS[b + 1]
    ensures b == -1 ==> i < BAND_BINS[0] || i >= BAND_BINS[NUM_BANDS]
  {
    if i < BAND_BINS[0] || i >= BAND_BINS[NUM_BANDS] then -1
    else BandSearch(i, 0)
  }

  function BandSearch(i: int, j: nat): (b: nat)
    requires j < NUM_BANDS && BAND_BINS[j] <= i < BAND_BINS[NUM_BANDS]
    ensures j <= b < NUM_BANDS && BAND_BINS[b] <= i < BAND_BINS[b + 1]
    decreases NUM_BANDS - j
  {
    if i < BAND_BINS[j + 1] then j else BandSearch(i, j + 1)
  }

  /** Bins from band `j` upward are not touched by the bands before it. */
  lemma {:induction false} GateUpToLeavesHigherBins(s: seq<real>, j: nat, i: nat)
    requires j <= NUM_BANDS && i < |s| && BAND_BINS[j] <= i
    ensures GateUpTo(s, j)[i] == s[i]
  {
    if j > 0 {
      GateUpToLeavesHigherBins(s, j - 1, i);
    }
  }

  /** Bins below all bands are never touched. */
  lemma {:induction false} GateUpToLeavesLowBins(s: seq<real>, j: nat, i: nat)
    requires j <= NUM_BANDS && i < |s| && i < BAND_BINS[0]
    ensures GateUpTo(s, j)[i] == s[i]
  {
    if j > 0 {
      GateUpToLeavesLowBins(s, j - 1, i);
    }
  }

  /** Once band `b` is done, later bands leave its bins alone. */
  lemma {:induction false} GateUpToKeepsDoneBand(s: seq<real>, b: nat, j: nat, i: nat)
    requires b < j <= NUM_BANDS && i < |s| && i < BAND_BINS[b + 1]
    ensures GateUpTo(s, j)[i] == GateUpTo(s, b + 1)[i]
    decreases j
  {
    if j > b + 1 {
      GateUpToKeepsDoneBand(s, b, j - 1, i);
    }
  }

  /** A bin of band `b` ends up zeroed exactly when it is below the noise
      level of that band of the input. */
  lemma GateEffectInBand(s: seq<real>, b: nat, i: nat)
    requires b < NUM_BANDS && BAND_BINS[b] <= i < BAND_BINS[b + 1] && i < |s|
    ensures GateUpTo(s, NUM_BANDS)[i] ==
              if BelowNoise(s[i], MeanSquare(s, BAND_BINS[b], BandEnd(b, |s|))) then 0.0 else s[i]
  {
    BandSeesInput(s, b, i);
    GateStepAt(s, b, i);
    GateUpToKeepsDoneBand(s, b, NUM_BANDS, i);
  }

  /** Band `b` reads the input as it was: the bands before it did not
      touch its bins. */
  lemma BandSeesInput(s: seq<real>, b: nat, i: nat)
    requires b < NUM_BANDS && BAND_BINS[b] <= i < BAND_BINS[b + 1] && i < |s|
    ensures BAND_BINS[b] < BandEnd(b, |s|)
    ensures GateUpTo(s, b)[i] == s[i]
    ensures MeanSquare(GateUpTo(s, b), BAND_BINS[b], BandEnd(b, |s|)) == MeanSquare(s, BAND_BINS[b], BandEnd(b, |s|))
  {
    var lo, hi := BAND_BINS[b], BandEnd(b, |s|);
    var before := GateUpTo(s, b);
    forall k | lo <= k < hi ensures before[k] == s[k] {
      GateUpToLeavesHigherBins(s, b, k);
    }
    assert before[lo..hi] == s[lo..hi];
  }

  /** Bin `i` after band `b` is done, from the spectrum before it. */
  lemma GateStepAt(s: seq<real>, b: nat, i: nat)
    requires b < NUM_BANDS && BAND_BINS[b] <= i < BandEnd(b, |s|)
    ensures var before, lo, hi := GateUpTo(s, b), BAND_BINS[b], BandEnd(b, |s|);
            GateUpTo(s, b + 1)[i] == if BelowNoise(before[i], MeanSquare(before, lo, hi)) then 0.0 else before[i]
  {
    GateBandAt(GateUpTo(s, b), BAND_BINS[b], BandEnd(b, |s|), i);
  }

  lemma GateBandAt(s: seq<real>, lo: nat, hi: nat, i: nat)
    requires lo <= i < hi <= |s|
    ensures GateBand(s, lo, hi)[i] == if BelowNoise(s[i], MeanSquare(s, lo, hi)) then 0.0 else s[i]
  {
  }

  /** The gate as a whole zeroes exactly the bins that lie in a band and are
      below that band's noise level, the mean square being taken over the
      band's bins of the input; every other bin keeps its value. */
  lemma GateEffect(s: seq<real>, i: nat)
    requires i < |s|
    ensures var b := BandOf(i);
            GateUpTo(s, NUM_BANDS)[i] ==
              if b >= 0 && BelowNoise(s[i], MeanSquare(s, BAND_BINS[b], BandEnd(b, |s|))) then 0.0 else s[i]
  {
    var b := BandOf(i);
    if b < 0 {
      if i < BAND_BINS[0] {
        GateUpToLeavesLowBins(s, NUM_BANDS, i);
      } else {
        GateUpToLeavesHigherBins(s, NUM_BANDS, i);
      }
    } else {
      GateEffectInBand(s, b, i);
    }
  }

  /** The noise gate, in place, band after band. */
  method GateBands(mag: array<real>)
    modifies mag
    ensures mag[..] == GateUpTo(old(mag[..]), NUM_BANDS)
  {
    ghost var orig := mag[..];
    var n := mag.Length;
    for j := 0 to NUM_BANDS
      invariant mag[..] == GateUpTo(orig, j)
    {
      var lo := BAND_BINS[j];
      var hi := BAND_BINS[j + 1];
      hi := Min(hi, n);
      GateOneBand(mag, lo, hi);
    }
  }

  /** One band of the gate, in place. With no bins in the band nothing
      changes (the mean square is not a number then, and no comparison
      succeeds). */
  method GateOneBand(mag: array<real>, lo: nat, hi: nat)
    requires hi <= mag.Length
    modifies mag
    ensures mag[..] == GateBand(old(mag[..]), lo, hi)
  {
    if lo < hi {
      var meanSquare := SumSq(mag[lo..hi]) / (hi - lo) as real;
      ghost var before := mag[..];
      for i := lo to hi
        invariant forall k :: 0 <= k < mag.Length ==>
                    mag[k] == if lo <= k < i && BelowNoise(before[k], meanSquare) then 0.0 else before[k]
      {
        if BelowNoise(mag[i], meanSquare) {
          mag[i] := 0.0;
        }
      }
      assert mag[..] == GateBand(before, lo, hi);
    }
  }

  // ---------------------------------------------------------------------
  // Peak picking

  function SeqMax(s: seq<real>): (m: real)
    requires |s| > 0
    ensures m in s
    ensures forall i :: 0 <= i < |s| ==> s[i] <= m
  {
    if |s| == 1 then s[0]
    else
      var m := SeqMax(s[..|s| - 1]);
      if s[|s| - 1] > m then s[|s| - 1] else m
  }

  /** What `argsort` returns: every index once, in ascending order of value
      (the order among equal values is left open, as numpy's default sort
      does not fix it). */
  ghost predicate IsArgsort(s: seq<real>, order: seq<int>) {
    && |order| == |s|
    && (forall k :: 0 <= k < |order| ==> 0 <= order[k] < |s|)
    && (forall k, l :: 0 <= k < l < |order| ==> order[k] != order[l])
    && (forall i :: 0 <= i < |s| ==> i in order)
    && (forall k, l :: 0 <= k < l < |order| ==> s[order[k]] <= s[order[l]])
  }

  function Reverse(xs: seq<int>): (r: seq<int>)
    ensures |r| == |xs|
    ensures forall k :: 0 <= k < |xs| ==> r[k] == xs[|xs| - 1 - k]
  {
    if xs == [] then [] else [xs[|xs| - 1]] + Reverse(xs[..|xs| - 1])
  }

  ghost predicate InRange(xs: seq<int>, n: nat) {
    forall k :: 0 <= k < |xs| ==> 0 <= xs[k] < n
  }

  ghost predicate Distinct(xs: seq<int>) {
    forall k, l :: 0 <= k < l < |xs| ==> xs[k] != xs[l]
  }

  /** Indices in non-increasing order of magnitude. */
  ghost predicate DescendingBy(s: seq<real>, xs: seq<int>)
    requires InRange(xs, |s|)
  {
    forall k, l :: 0 <= k < l < |xs| ==> s[xs[k]] >= s[xs[l]]
  }

  /** `[i for i in xs if s[i] > threshold]`. */
  function AboveThreshold(s: seq<real>, xs: seq<int>, threshold: real): (r: seq<int>)
    requires InRange(xs, |s|)
    ensures InRange(r, |s|)
  {
    if xs == [] then []
    else (if s[xs[0]] > threshold then [xs[0]] else []) + AboveThreshold(s, xs[1..], threshold)
  }

  /** The indices whose frequency exceeds 50 Hz. */
  function AboveMinFreq(freqs: seq<real>, xs: seq<int>): (r: seq<int>)
    requires InRange(xs, |freqs|)
    ensures InRange(r, |freqs|)
  {
    if xs == [] then []
    else
      var last := xs[|xs| - 1];
      AboveMinFreq(freqs, xs[..|xs| - 1]) + (if freqs[last] > MIN_PEAK_FREQ then [last] else [])
  }

  lemma {:induction false} AboveThresholdMembers(s: seq<real>, xs: seq<int>, threshold: real)
    requires InRange(xs, |s|)
    ensures forall x :: x in AboveThreshold(s, xs, threshold) <==> x in xs && s[x] > threshold
  {
    if xs != [] {
      AboveThresholdMembers(s, xs[1..], threshold);
      assert xs == [xs[0]] + xs[1..];
    }
  }

  lemma {:induction false} AboveMinFreqMembers(freqs: seq<real>, xs: seq<int>)
    requires InRange(xs, |freqs|)
    ensures forall x :: x in AboveMinFreq(freqs, xs) <==> x in xs && freqs[x] > MIN_PEAK_FREQ
  {
    if xs != [] {
      AboveMinFreqMembers(freqs, xs[..|xs| - 1]);
      assert xs == xs[..|xs| - 1] + [xs[|xs| - 1]];
    }
  }

  /** The first six of a list of bins (`[:6]`). */
  function FirstPeaks(xs: seq<int>): (r: seq<int>)
    ensures |r| <= MAX_PEAKS && r <= xs
    ensures |xs| <= MAX_PEAKS ==> r == xs
  {
    if |xs| <= MAX_PEAKS then xs else xs[..MAX_PEAKS]
  }

  /** The bins above 0.3 of the maximum in descending magnitude. */
  function StrongBins(s: seq<real>, order: seq<int>): (r: seq<int>)
    requires |s| > 0 && IsArgsort(s, order)
    ensures InRange(r, |s|)
  {
    var rev := Reverse(order);
    assert InRange(rev, |s|);
    AboveThreshold(s, rev, SeqMax(s) * PEAK_RATIO)
  }

  /** The bins whose frequencies are reported: the first six bins, in
      descending magnitude, that are above 0.3 of the maximum and above
      50 Hz. */
  function PeakBins(s: seq<real>, freqs: seq<real>, order: seq<int>): (r: seq<int>)
    requires |s| > 0 && |freqs| == |s| && IsArgsort(s, order)
    ensures InRange(r, |s|)
  {
    FirstPeaks(AboveMinFreq(freqs, StrongBins(s, order)))
  }

  function FreqsOf(freqs: seq<real>, bins: seq<int>): (r: seq<real>)
    requires InRange(bins, |freqs|)
    ensures |r| == |bins|
  {
    if bins == [] then [] else FreqsOf(freqs, bins[..|bins| - 1]) + [freqs[bins[|bins| - 1]]]
  }

  lemma {:induction false} AboveMinFreqAppend(freqs: seq<real>, a: seq<int>, b: seq<int>)
    requires InRange(a, |freqs|) && InRange(b, |freqs|)
    ensures InRange(a + b, |freqs|)
    ensures AboveMinFreq(freqs, a + b) == AboveMinFreq(freqs, a) + AboveMinFreq(freqs, b)
  {
    if b == [] {
      assert a + b == a;
    } else {
      var init := b[..|b| - 1];
      assert (a + b)[..|a + b| - 1] == a + init;
      assert (a + b)[|a + b| - 1] == b[|b| - 1];
      AboveMinFreqAppend(freqs, a, init);
    }
  }

  /** Peak picking after the noise gate: the first six frequencies above
      50 Hz among the bins above 0.3 of the maximum, in descending
      magnitude. */
  method SelectPeaks(mag: seq<real>, freqs: seq<real>, order: seq<int>) returns (peakFreqs: seq<real>)
    requires |mag| > 0 && |freqs| == |mag| && IsArgsort(mag, order)
    ensures peakFreqs == FreqsOf(freqs, PeakBins(mag, freqs, order))
  {
    var rev := Reverse(order);
    assert InRange(rev, |mag|);
    var peakThreshold := SeqMax(mag) * PEAK_RATIO;
    var peakIndices := AboveThreshold(mag, rev, peakThreshold);
    assert peakIndices == StrongBins(mag, order);
    peakFreqs := CollectPeakFreqs(freqs, peakIndices);
  }

  /** Once six bins qualify, the rest of the list does not matter. */
  lemma EnoughPeaks(freqs: seq<real>, xs: seq<int>, k: nat)
    requires InRange(xs, |freqs|) && k <= |xs|
    requires |AboveMinFreq(freqs, xs[..k])| == MAX_PEAKS
    ensures FirstPeaks(AboveMinFreq(freqs, xs)) == AboveMinFreq(freqs, xs[..k])
  {
    var front, back := xs[..k], xs[k..];
    assert xs == front + back;
    AboveMinFreqAppend(freqs, front, back);
    var a, b := AboveMinFreq(freqs, front), AboveMinFreq(freqs, back);
    assert AboveMinFreq(freqs, xs) == a + b;
    if |b| > 0 {
      assert (a + b)[..MAX_PEAKS] == a;
    } else {
      assert a + b == a;
    }
  }

  /** The loop of peak picking: walk the strong bins, keep the frequencies
      above 50 Hz and stop at six. */
  method CollectPeakFreqs(freqs: seq<real>, peakIndices: seq<int>) returns (peakFreqs: seq<real>)
    requires InRange(peakIndices, |freqs|)
    ensures peakFreqs == FreqsOf(freqs, FirstPeaks(AboveMinFreq(freqs, peakIndices)))
  {
    peakFreqs := [];
    ghost var bins: seq<int> := [];
    var k := 0;
    while k < |peakIndices|
      invariant 0 <= k <= |peakIndices|
      invariant bins == AboveMinFreq(freqs, peakIndices[..k])
      invariant |bins| < MAX_PEAKS
      invariant peakFreqs == FreqsOf(freqs, bins)
    {
      var i := peakIndices[k];
      var freq := freqs[i];
      assert peakIndices[..k + 1][..k] == peakIndices[..k];
      if freq > MIN_PEAK_FREQ {
        assert (bins + [i])[..|bins|] == bins;
        peakFreqs := peakFreqs + [freq];
        bins := bins + [i];
      }
      k := k + 1;
      if |peakFreqs| >= MAX_PEAKS {
        EnoughPeaks(freqs, peakIndices, k);
        break;
      }
    }
    assert peakIndices[..|peakIndices|] == peakIndices;
  }

  lemma {:induction false} AboveThresholdKeeps(s: seq<real>, xs: seq<int>, threshold: real)
    requires InRange(xs, |s|) && Distinct(xs) && DescendingBy(s, xs)
    ensures Distinct(AboveThreshold(s, xs, threshold)) && DescendingBy(s, AboveThreshold(s, xs, threshold))
  {
    if xs != [] {
      var x, rest := xs[0], xs[1..];
      AboveThresholdKeeps(s, rest, threshold);
      AboveThresholdMembers(s, rest, threshold);
      var tail := AboveThreshold(s, rest, threshold);
      forall k | 0 <= k < |tail| ensures tail[k] != x && s[tail[k]] <= s[x] {
        assert tail[k] in rest;
        var m :| 0 <= m < |rest| && rest[m] == tail[k];
        assert xs[m + 1] == tail[k];
      }
      if s[x] > threshold {
        assert AboveThreshold(s, xs, threshold) == [x] + tail;
        ConsKeeps(s, x, tail);
      } else {
        assert AboveThreshold(s, xs, threshold) == tail;
      }
    }
  }

  /** Putting an index in front of a distinct descending list keeps it so,
      when it is new and no smaller than any of them. */
  lemma ConsKeeps(s: seq<real>, x: int, tail: seq<int>)
    requires 0 <= x < |s| && InRange(tail, |s|) && Distinct(tail) && DescendingBy(s, tail)
    requires forall k :: 0 <= k < |tail| ==> tail[k] != x && s[tail[k]] <= s[x]
    ensures InRange([x] + tail, |s|) && Distinct([x] + tail) && DescendingBy(s, [x] + tail)
  {
    var r := [x] + tail;
    assert forall k :: 1 <= k < |r| ==> r[k] == tail[k - 1];
  }

  lemma {:induction false} AboveMinFreqKeeps(s: seq<real>, freqs: seq<real>, xs: seq<int>)
    requires |freqs| == |s| && InRange(xs, |s|) && Distinct(xs) && DescendingBy(s, xs)
    ensures Distinct(AboveMinFreq(freqs, xs)) && DescendingBy(s, AboveMinFreq(freqs, xs))
  {
    if xs != [] {
      var init, last := xs[..|xs| - 1], xs[|xs| - 1];
      AboveMinFreqKeeps(s, freqs, init);
      AboveMinFreqMembers(freqs, init);
      var front := AboveMinFreq(freqs, init);
      forall k | 0 <= k < |front| ensures front[k] != last && s[front[k]] >= s[last] {
        assert front[k] in init;
        var m :| 0 <= m < |init| && init[m] == front[k];
        assert xs[m] == front[k];
      }
    }
  }

  /** Reversing an ascending argsort lists every bin once, in descending
      magnitude. */
  lemma ReversedArgsort(s: seq<real>, order: seq<int>)
    requires IsArgsort(s, order)
    ensures InRange(Reverse(order), |s|) && Distinct(Reverse(order)) && DescendingBy(s, Reverse(order))
    ensures forall i :: 0 <= i < |s| ==> i in Reverse(order)
  {
    var rev := Reverse(order);
    forall i | 0 <= i < |s| ensures i in rev {
      assert i in order;
      var m :| 0 <= m < |order| && order[m] == i;
      assert rev[|order| - 1 - m] == i;
    }
  }

  /** The strong bins are exactly the bins above 0.3 of the maximum, each
      once, in descending magnitude. */
  lemma StrongBinsProperties(s: seq<real>, order: seq<int>)
    requires |s| > 0 && IsArgsort(s, order)
    ensures Distinct(StrongBins(s, order)) && DescendingBy(s, StrongBins(s, order))
    ensures forall i :: i in StrongBins(s, order) <==> 0 <= i < |s| && s[i] > PEAK_RATIO * SeqMax(s)
  {
    var rev := Reverse(order);
    ReversedArgsort(s, order);
    var thr := SeqMax(s) * PEAK_RATIO;
    AboveThresholdKeeps(s, rev, thr);
    AboveThresholdMembers(s, rev, thr);
    assert StrongBins(s, order) == AboveThreshold(s, rev, thr);
  }

  /** What peak picking reports: at most six distinct bins, each above 0.3
      of the maximum and above 50 Hz, in non-increasing magnitude; when
      fewer than six are reported, no qualifying bin was left out, and a
      qualifying bin that was left out is no stronger than any reported. */
  lemma PeakBinsProperties(s: seq<real>, freqs: seq<real>, order: seq<int>)
    requires |s| > 0 && |freqs| == |s| && IsArgsort(s, order)
    ensures var p := PeakBins(s, freqs, order);
            && |p| <= MAX_PEAKS
            && InRange(p, |s|)
            && Distinct(p)
            && DescendingBy(s, p)
            && (forall k :: 0 <= k < |p| ==> s[p[k]] > PEAK_RATIO * SeqMax(s) && freqs[p[k]] > MIN_PEAK_FREQ)
            && (|p| < MAX_PEAKS ==>
                  forall i :: 0 <= i < |s| && s[i] > PEAK_RATIO * SeqMax(s) && freqs[i] > MIN_PEAK_FREQ ==> i in p)
  {
    var strong := StrongBins(s, order);
    StrongBinsProperties(s, order);
    var cands := AboveMinFreq(freqs, strong);
    AboveMinFreqKeeps(s, freqs, strong);
    AboveMinFreqMembers(freqs, strong);
    var p := PeakBins(s, freqs, order);
    assert p == FirstPeaks(cands);
    assert forall k :: 0 <= k < |p| ==> p[k] == cands[k];
    forall k | 0 <= k < |p| ensures s[p[k]] > PEAK_RATIO * SeqMax(s) && freqs[p[k]] > MIN_PEAK_FREQ {
      assert p[k] in cands;
    }
  }

  /** A qualifying bin that was not reported is no stronger than any reported bin: the six kept are the strongest. */
  lemma PeakBinsStrongest(s: seq<real>, freqs: seq<real>, order: seq<int>)
    requires |s| > 0 && |freqs| == |s| && IsArgsort(s, order)
    ensures var p := PeakBins(s, freqs, order);
            forall i :: 0 <= i < |s| && s[i] > PEAK_RATIO * SeqMax(s) && freqs[i] > MIN_PEAK_FREQ && i !in p ==>
              forall k :: 0 <= k < |p| ==> s[p[k]] >= s[i]
  {
    var strong := StrongBins(s, order);
    StrongBinsProperties(s, order);
    var cands := AboveMinFreq(freqs, strong);
    AboveMinFreqKeeps(s, freqs, strong);
    AboveMinFreqMembers(freqs, strong);
    var p := PeakBins(s, freqs, order);
    assert p == FirstPeaks(cands);
    forall i | 0 <= i < |s| && s[i] > PEAK_RATIO * SeqMax(s) && freqs[i] > MIN_PEAK_FREQ && i !in p
      ensures forall k :: 0 <= k < |p| ==> s[p[k]] >= s[i]
    {
      assert i in cands;
      PrefixDominates(s, cands, p, i);
    }
  }

  /** In a list in non-increasing magnitude, an entry past a prefix is no
      stronger than any entry of the prefix. */
  lemma PrefixDominates(s: seq<real>, xs: seq<int>, p: seq<int>, i: int)
    requires InRange(xs, |s|) && DescendingBy(s, xs) && p <= xs && i in xs && i !in p
    ensures InRange(p, |s|)
    ensures forall k :: 0 <= k < |p| ==> s[p[k]] >= s[i]
  {
    var m :| 0 <= m < |xs| && xs[m] == i;
    assert m >= |p|;
    forall k | 0 <= k < |p| ensures s[p[k]] >= s[i] {
      assert p[k] == xs[k] && k < m;
    }
  }

  // ---------------------------------------------------------------------
  // Note history and stable notes

  /** `set(find_closest_note_name(f) for f in peak_freqs)`; `semitones`
      stands for 12 * log2(f / 440). */
  function DetectedNotes(peakFreqs: seq<real>, semitones: real -> real): set<string> {
    set f | f in peakFreqs :: FindClosestNoteName(semitones(f))
  }

  /** Append a frame, evicting the oldest beyond four. */
  function PushFrame(history: seq<set<string>>, frame: set<string>): seq<set<string>> {
    var h := history + [frame];
    if |h| > HISTORY_FRAMES then h[1..] else h
  }

  /** The number of frames that contain `note` (each frame holds a note at
      most once, so this is `all_notes.count(note)`). */
  function Occurrences(history: seq<set<string>>, note: string): nat {
    if history == [] then 0
    else Occurrences(history[..|history| - 1], note) + (if note in history[|history| - 1] then 1 else 0)
  }

  function AllNotes(history: seq<set<string>>): set<string> {
    if history == [] then {} else AllNotes(history[..|history| - 1]) + history[|history| - 1]
  }

  lemma {:induction false} OccurringNotesAreListed(history: seq<set<string>>, note: string)
    requires Occurrences(history, note) > 0
    ensures note in AllNotes(history)
  {
    var init := history[..|history| - 1];
    if note !in history[|history| - 1] {
      OccurringNotesAreListed(init, note);
    }
  }

  /** The notes present in at least two retained frames. */
  function StableNotes(history: seq<set<string>>): (r: set<string>)
    ensures forall note :: note in r <==> Occurrences(history, note) >= 2
  {
    var r := set note | note in AllNotes(history) && Occurrences(history, note) >= 2;
    assert forall note :: Occurrences(history, note) >= 2 ==> note in r by {
      forall note | Occurrences(history, note) >= 2 ensures note in r {
        OccurringNotesAreListed(history, note);
      }
    }
    r
  }

  /** The history never holds more than four frames; the new frame is the
      last one and, at capacity, exactly the oldest frame is dropped. */
  lemma PushFrameBounded(history: seq<set<string>>, frame: set<string>)
    requires |history| <= HISTORY_FRAMES
    ensures |PushFrame(history, frame)| <= HISTORY_FRAMES
    ensures PushFrame(history, frame)[|PushFrame(history, frame)| - 1] == frame
    ensures |history| < HISTORY_FRAMES ==> PushFrame(history, frame) == history + [frame]
    ensures |history| == HISTORY_FRAMES ==> PushFrame(history, frame) == history[1..] + [frame]
  {
  }

  /** What `process_audio` reports to the listener. */
  datatype Report =
    | Listening                                            // power below the threshold
    | NothingSent                                          // returned early, or no candidate
    | Top4(top4Chords: seq<string>, primary: string)

  function Names(top: seq<Candidate>): (r: seq<string>)
    ensures |r| == |top|
    ensures forall k :: 0 <= k < |top| ==> r[k] == top[k].name
  {
    if top == [] then [] else Names(top[..|top| - 1]) + [top[|top| - 1].name]
  }

  /** A list of the elements of a set, in some order (the order of
      `note_counts.items()`, which the program does not fix). */
  method ListOfSet(s: set<string>) returns (l: seq<string>)
    ensures forall x :: x in l <==> x in s
  {
    l := [];
    var rest := s;
    while rest != {}
      invariant rest <= s
      invariant forall x :: x in l <==> x in s - rest
      decreases |rest|
    {
      var x :| x in rest;
      l := l + [x];
      rest := rest - {x};
    }
  }

  class AudioAnalyzer {
    var windowSamples: seq<real>
    var noteHistory: seq<set<string>>
    var running: bool
    /** The chord template table, read once. */
    const chordTable: seq<Template>

    ghost predicate Valid()
      reads this
    {
      |windowSamples| == WINDOW_SIZE && |noteHistory| <= HISTORY_FRAMES
    }

    constructor (table: seq<Template>)
      ensures Valid()
      ensures windowSamples == seq(WINDOW_SIZE, _ => 0.0) && noteHistory == [] && !running
      ensures chordTable == table
    {
      windowSamples := seq(WINDOW_SIZE, _ => 0.0);
      noteHistory := [];
      running := false;
      chordTable := table;
    }

    method Stop()
      modifies this`running
      ensures !running
    {
      running := false;
    }

    /** The audio callback: a block arriving while running and without a
        status flag, and with some non-zero sample, is shifted into the
        window and an analysis is scheduled. */
    method Callback(block: seq<real>, status: bool) returns (scheduled: bool)
      requires Valid()
      modifies this`windowSamples
      ensures Valid()
      ensures scheduled == (running && !status && AnyNonZero(block))
      ensures windowSamples == if scheduled then Shifted(old(windowSamples), block) else old(windowSamples)
    {
      scheduled := false;
      if !running {
        return;
      }
      if status {
        return;
      }
      if AnyNonZero(block) {
        windowSamples := windowSamples + block;
        windowSamples := windowSamples[|block|..];
        scheduled := true;
      }
    }

    /** Record a frame's notes: a frame with at most one distinct note is
        ignored; otherwise it is appended (evicting the oldest beyond four)
        and the notes seen in at least two retained frames are returned. */
    method RecordFrame(detected: set<string>) returns (stable: Option<set<string>>)
      requires Valid()
      modifies this`noteHistory
      ensures Valid()
      ensures |detected| <= 1 ==> stable == None && noteHistory == old(noteHistory)
      ensures |detected| > 1 ==>
                noteHistory == PushFrame(old(noteHistory), detected) &&
                stable == Some(StableNotes(noteHistory))
    {
      if |detected| <= 1 {
        return None;
      }
      noteHistory := noteHistory + [detected];
      if |noteHistory| > HISTORY_FRAMES {
        noteHistory := noteHistory[1..];
      }
      stable := Some(StableNotes(noteHistory));
    }

    /** `process_audio` after the FFT: `mag` is the magnitude spectrum of the
        windowed samples, `freqs` its frequency grid and `order` the
        `argsort` of the gated spectrum. */
    method ProcessAudio(mag: array<real>, freqs: seq<real>, order: seq<int>, semitones: real -> real)
      returns (report: Report)
      requires Valid()
      requires mag.Length == SPECTRUM_BINS && |freqs| == SPECTRUM_BINS
      requires IsArgsort(GateUpTo(LowCutSpec(mag[..]), NUM_BANDS), order)
      modifies mag, this`noteHistory
      ensures Valid()
      ensures SignalPower(windowSamples) < POWER_THRESH ==>
                report == Listening && mag[..] == old(mag[..]) && noteHistory == old(noteHistory)
      ensures SignalPower(windowSamples) >= POWER_THRESH ==>
                mag[..] == GateUpTo(LowCutSpec(old(mag[..])), NUM_BANDS) &&
                var notes := DetectedNotes(FreqsOf(freqs, PeakBins(mag[..], freqs, order)), semitones);
                noteHistory == (if |notes| <= 1 then old(noteHistory) else PushFrame(old(noteHistory), notes)) &&
                var top := Take(SortByScoreDesc(Candidates(chordTable, StableNotes(noteHistory))), 4);
                report == if |notes| <= 1 || StableNotes(noteHistory) == {} || |top| == 0 then NothingSent
                          else Top4(Names(top), top[0].name)
    {
      if SignalPower(windowSamples) < POWER_THRESH {
        return Listening;
      }
      LowCut(mag);
      GateBands(mag);
      var peakFreqs := SelectPeaks(mag[..], freqs, order);
      var detected := DetectedNotes(peakFreqs, semitones);
      var stable := RecordFrame(detected);
      if stable.None? {
        return NothingSent;
      }
      if stable.value == {} {
        return NothingSent;
      }
      var stableList := ListOfSet(stable.value);
      assert DetectedSet(stableList) == stable.value;
      var top := DetectTop4Chords(stableList, chordTable);
      if top == [] {
        return NothingSent;
      }
      var names := Names(top);
      report := Top4(names, names[0]);
    }
  }

  /** The window shift of the callback keeps the window length. */
  lemma CallbackKeepsWindowLength(window: seq<real>, block: seq<real>)
    requires |window| == WINDOW_SIZE
    ensures |Shifted(window, block)| == WINDOW_SIZE
  {
    ShiftedWindow(window, block);
  }
}
