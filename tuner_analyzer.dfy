/** The tuner's `AudioAnalyzer` of `tuner_audio/audio_analyzer.py`: note
    numbers and names, and one iteration of its read loop after the FFT
    (buffer shift, Harmonic Product Spectrum, 60 Hz cut, arg-max, enqueue).
    The microphone read, the Hann window, the zero padding and the FFT are
    not modelled: the magnitude spectrum and its frequency grid are inputs,
    and so is `log2`. */
module TunerAnalyzer {
  import opened Common
  import opened ProtectedQueue

  const SAMPLING_RATE: nat := 48000
  const CHUNK_SIZE: nat := 1024
  const BUFFER_TIMES: nat := 50
  const BUFFER_SIZE: nat := 51200
  const NUM_HPS: nat := 3
  const A4_FREQ: real := 440.0
  const LOW_CUT_FREQ: real := 60.0

  const NOTE_NAMES: seq<string> := ["C", "C#", "D", "D#", "E", "F", "F#", "G", "G#", "A", "A#", "B"]

  // ---------------------------------------------------------------------
  // Note numbers and names

  /** `frequency_to_number`: 0 for a zero frequency (instead of the
      logarithm of 0), otherwise the MIDI-style note number with A4 = 69. */
  function FrequencyToNumber(freq: real, log2: real -> real): (number: real)
    ensures freq == 0.0 ==> number == 0.0
  {
    if freq == 0.0 then 0.0 else 12.0 * log2(freq / A4_FREQ) + 69.0
  }

  /** With a logarithm for which doubling adds 1, an octave up adds 12 to
      the note number. */
  lemma OctaveAddsTwelve(f: real, log2: real -> real)
    requires f > 0.0 && forall x :: x > 0.0 ==> log2(2.0 * x) == log2(x) + 1.0
    ensures FrequencyToNumber(2.0 * f, log2) == FrequencyToNumber(f, log2) + 12.0
  {
    assert (2.0 * f) / A4_FREQ == 2.0 * (f / A4_FREQ);
  }

  /** `number_to_note_name`: the name of the rounded note number, mod 12. */
  function NumberToNoteName(number: real): (name: string)
    ensures name in NOTE_NAMES
  {
    NOTE_NAMES[RoundHalfEven(number) % 12]
  }

  /** The name is the one of the nearest whole note number. */
  lemma NearestNoteName(number: real, k: int)
    requires number - 0.5 < k as real < number + 0.5
    ensures NumberToNoteName(number) == NOTE_NAMES[k % 12]
  {
    assert RoundHalfEven(number) == k;
  }

  function FrequencyToNoteName(freq: real, log2: real -> real): (name: string)
    ensures name in NOTE_NAMES
  {
    NumberToNoteName(FrequencyToNumber(freq, log2))
  }

  /** A frequency and the one an octave above have the same name. */
  lemma OctaveSameName(f: real, log2: real -> real)
    requires f > 0.0 && forall x :: x > 0.0 ==> log2(2.0 * x) == log2(x) + 1.0
    ensures FrequencyToNoteName(2.0 * f, log2) == FrequencyToNoteName(f, log2)
  {
    OctaveAddsTwelve(f, log2);
    NoteNamePeriodic(FrequencyToNumber(f, log2), 1);
  }

  /** Note number 69 is "A" (and 60 is middle "C"). */
  lemma NamedNumbers()
    ensures NumberToNoteName(69.0) == "A"
    ensures NumberToNoteName(60.0) == "C"
  {
    RoundOfInteger(69);
    RoundOfInteger(60);
  }

  /** Names repeat every octave. */
  lemma NoteNamePeriodic(number: real, k: int)
    ensures NumberToNoteName(number + (12 * k) as real) == NumberToNoteName(number)
  {
    ModShift12(RoundHalfEven(number), k);
    TwelveIsEven(k);
    RoundShiftEven(number, 12 * k);
  }

  /** With a logarithm that maps 1 to 0, A440 is note number 69 and named
      "A"; a zero frequency is note 0, named "C". */
  lemma ConcertPitchName(log2: real -> real)
    requires log2(1.0) == 0.0
    ensures FrequencyToNumber(A4_FREQ, log2) == 69.0
    ensures FrequencyToNoteName(A4_FREQ, log2) == "A"
    ensures FrequencyToNoteName(0.0, log2) == "C"
  {
    NamedNumbers();
    RoundOfInteger(0);
  }

  // ---------------------------------------------------------------------
  // The buffer shift

  /** The buffer after `buffer[:-CHUNK] = buffer[CHUNK:]` followed by
      `buffer[-CHUNK:] = data`: a block of CHUNK samples fills the tail, a
      single sample is broadcast over it, and any other length makes the
      second assignment fail after the first has been done. */
  function BufferAfter(b: seq<real>, data: seq<real>): seq<real>
    requires |b| >= CHUNK_SIZE
  {
    b[CHUNK_SIZE..] +
      if |data| == CHUNK_SIZE then data
      else if |data| == 1 then seq(CHUNK_SIZE, _ => data[0])
      else b[|b| - CHUNK_SIZE..]
  }

  predicate AcceptedBlock(data: seq<real>) {
    |data| == CHUNK_SIZE || |data| == 1
  }

  /** The shift keeps the buffer length and, for a full block, yields
      `old[CHUNK:] + data`. */
  lemma BufferAfterShape(b: seq<real>, data: seq<real>)
    requires |b| >= CHUNK_SIZE
    ensures |BufferAfter(b, data)| == |b|
    ensures |data| == CHUNK_SIZE ==> BufferAfter(b, data) == b[CHUNK_SIZE..] + data
    ensures BufferAfter(b, data)[..|b| - CHUNK_SIZE] == b[CHUNK_SIZE..]
  {
  }

  // ---------------------------------------------------------------------
  // Harmonic Product Spectrum

  /** `int(ceil(n / i))`, the length of `orig[::i]`. */
  function CeilDiv(n: nat, i: nat): nat
    requires i > 0
  {
    (n + i - 1) / i
  }

  lemma {:induction false} MulMonotone(a: int, b: int, i: nat)
    requires a <= b
    ensures a * i <= b * i
  {
    if i > 0 {
      MulMonotone(a, b, i - 1);
      assert a * i == a * (i - 1) + a;
      assert b * i == b * (i - 1) + b;
    }
  }

  lemma MulLessCancel(a: int, b: int, i: nat)
    requires a * i < b * i
    ensures a < b
  {
    if b <= a {
      MulMonotone(b, a, i);
    }
  }

  /** `orig[::i]` reaches bin `k` exactly when `k * i < n`. */
  lemma CeilDivBins(n: nat, i: nat, k: nat)
    requires i > 0
    ensures k < CeilDiv(n, i) <==> k * i < n
    ensures CeilDiv(n, i) <= n
  {
    var c := CeilDiv(n, i);
    var rem := (n + i - 1) % i;
    assert n + i - 1 == c * i + rem && 0 <= rem < i;
    if k < c {
      MulMonotone(k, c - 1, i);
      assert (c - 1) * i == c * i - i;
    } else {
      MulMonotone(c, k, i);
    }
    MulMonotone(1, i, n);
    assert (n + 1) * i == n * i + i;
    MulLessCancel(c, n + 1, i);
  }

  /** The integer form is the ceiling of `n / i` taken on reals. */
  lemma CeilDivIsCeiling(n: nat, i: nat)
    requires i > 0
    ensures CeilDiv(n, i) as real - 1.0 < n as real / i as real <= CeilDiv(n, i) as real
  {
    var c := CeilDiv(n, i);
    var rem := (n + i - 1) % i;
    assert n + i - 1 == c * i + rem && 0 <= rem < i;
    assert (c - 1) * i == c * i - i;
    CastMul(c, i);
    CastMul(c - 1, i);
    RealDivBounds(n as real, c as real - 1.0, c as real, i as real);
  }

  lemma CastMul(a: int, b: int)
    ensures (a * b) as real == a as real * b as real
  {
  }

  lemma RealDivBounds(x: real, lo: real, hi: real, z: real)
    requires z > 0.0 && lo * z < x <= hi * z
    ensures lo < x / z <= hi
  {
    var q := x / z;
    assert q * z == x;
    if q <= lo {
      RealMulMonotone(q, lo, z);
    }
    if q > hi {
      RealMulMonotone(hi, q, z);
    }
  }

  lemma RealMulMonotone(a: real, b: real, x: real)
    requires a <= b && x >= 0.0
    ensures a * x <= b * x
  {
    assert b * x - a * x == (b - a) * x;
  }

  /** The factor bin `k` gets in round `i`: `orig[k * i]` if that bin
      exists, otherwise none. */
  function HpsFactor(orig: seq<real>, k: nat, i: nat): real {
    if k * i < |orig| then orig[k * i] else 1.0
  }

  /** The product of the factors of rounds 2 through `rounds`. */
  function HpsProduct(orig: seq<real>, k: nat, rounds: nat): real {
    if rounds < 2 then 1.0 else HpsProduct(orig, k, rounds - 1) * HpsFactor(orig, k, rounds)
  }

  /** The spectrum after rounds 2 through `rounds`, every round reading the
      untouched copy. */
  function HpsSpec(orig: seq<real>, rounds: nat): (r: seq<real>)
    ensures |r| == |orig|
  {
    seq(|orig|, k requires 0 <= k < |orig| => orig[k] * HpsProduct(orig, k, rounds))
  }

  /** After the three-fold HPS, bin `k` is the original bin times the
      original bins `2k` and `3k` where those exist. */
  lemma HpsBins(orig: seq<real>, k: nat)
    requires k < |orig|
    ensures HpsSpec(orig, NUM_HPS)[k] ==
              orig[k] * ((if 2 * k < |orig| then orig[2 * k] else 1.0) * (if 3 * k < |orig| then orig[3 * k] else 1.0))
  {
    assert HpsProduct(orig, k, 2) == HpsFactor(orig, k, 2);
    assert HpsProduct(orig, k, 3) == HpsFactor(orig, k, 2) * HpsFactor(orig, k, 3);
  }

  /** The HPS in place: `mag[:ceil(n/i)] *= orig[::i]` for i = 2, 3. */
  method Hps(mag: array<real>)
    modifies mag
    ensures mag[..] == HpsSpec(old(mag[..]), NUM_HPS)
  {
    var orig := mag[..];
    assert mag[..] == HpsSpec(orig, 1);
    for i := 2 to NUM_HPS + 1
      invariant mag[..] == HpsSpec(orig, i - 1)
    {
      HpsRound(mag, orig, i);
    }
  }

  /** Round `i` of the HPS. */
  method HpsRound(mag: array<real>, orig: seq<real>, i: nat)
    requires i >= 2 && |orig| == mag.Length && mag[..] == HpsSpec(orig, i - 1)
    modifies mag
    ensures mag[..] == HpsSpec(orig, i)
  {
    var hpsLen := CeilDiv(mag.Length, i);
    CeilDivBins(mag.Length, i, 0);
    for k := 0 to hpsLen
      invariant forall j :: 0 <= j < mag.Length ==>
                  mag[j] == if j < k then HpsSpec(orig, i)[j] else HpsSpec(orig, i - 1)[j]
    {
      HpsStep(orig, i, k);
      mag[k] := mag[k] * orig[k * i];
    }
    forall j | hpsLen <= j < mag.Length ensures HpsSpec(orig, i)[j] == HpsSpec(orig, i - 1)[j] {
      CeilDivBins(mag.Length, i, j);
    }
    assert mag[..] == HpsSpec(orig, i);
  }

  lemma HpsStep(orig: seq<real>, i: nat, k: nat)
    requires i >= 2 && k < CeilDiv(|orig|, i)
    ensures k * i < |orig| && k < |orig|
    ensures HpsSpec(orig, i)[k] == HpsSpec(orig, i - 1)[k] * orig[k * i]
  {
    CeilDivBins(|orig|, i, k);
    var p := HpsProduct(orig, k, i - 1);
    assert HpsProduct(orig, k, i) == p * orig[k * i];
    assert (orig[k] * p) * orig[k * i] == orig[k] * (p * orig[k * i]);
  }

  // ---------------------------------------------------------------------
  // The 60 Hz cut

  /** The first index whose frequency is above 60 Hz. */
  function FirstAboveCut(freqs: seq<real>): (r: Option<nat>)
    ensures r.Some? ==> r.value < |freqs| && freqs[r.value] > LOW_CUT_FREQ
    ensures r.Some? ==> forall j :: 0 <= j < r.value ==> freqs[j] <= LOW_CUT_FREQ
    ensures r.None? ==> forall j :: 0 <= j < |freqs| ==> freqs[j] <= LOW_CUT_FREQ
  {
    if freqs == [] then None
    else if freqs[0] > LOW_CUT_FREQ then Some(0)
    else match FirstAboveCut(freqs[1..]) {
      case None => None
      case Some(i) => Some(i + 1)
    }
  }

  /** The stop of a Python slice `[:e]` on a sequence of length `n`. */
  function SliceStop(e: int, n: nat): (r: nat)
    ensures r <= n
    ensures 0 <= e <= n ==> r == e
    ensures e < 0 ==> r == if n + e < 0 then 0 else n + e
  {
    if e < 0 then (if n + e < 0 then 0 else n + e)
    else if e > n then n
    else e
  }

  /** How many leading bins `magnitude_data[:i - 1] = 0` zeroes. */
  function CutStop(freqs: seq<real>, n: nat): nat {
    match FirstAboveCut(freqs) {
      case None => 0
      case Some(i) => SliceStop(i - 1, n)
    }
  }

  function CutSpec(s: seq<real>, freqs: seq<real>): (r: seq<real>)
    ensures |r| == |s|
  {
    seq(|s|, k requires 0 <= k < |s| => if k < CutStop(freqs, |s|) then 0.0 else s[k])
  }

  /** The cut stops one bin short: with `i` the first bin above 60 Hz, the
      bins before `i - 1` are zeroed but bin `i - 1`, whose frequency is at
      most 60 Hz, keeps its value, as does every bin from `i` on. If bin 0
      is already above 60 Hz, `[:-1]` zeroes all bins but the last. */
  lemma CutKeepsBinBeforeCut(s: seq<real>, freqs: seq<real>)
    requires FirstAboveCut(freqs).Some?
    ensures var i := FirstAboveCut(freqs).value;
            && (1 <= i <= |s| ==> CutStop(freqs, |s|) == i - 1)
            && (1 <= i <= |s| ==> CutSpec(s, freqs)[i - 1] == s[i - 1] && freqs[i - 1] <= LOW_CUT_FREQ)
            && (i == 0 && |s| > 0 ==> CutStop(freqs, |s|) == |s| - 1)
  {
  }

  /** The cut in place: find the first bin above 60 Hz and zero the slice
      before the bin preceding it. */
  method LowCut(mag: array<real>, freqs: seq<real>)
    modifies mag
    ensures mag[..] == CutSpec(old(mag[..]), freqs)
  {
    var i := 0;
    while i < |freqs|
      invariant 0 <= i <= |freqs|
      invariant forall j :: 0 <= j < i ==> freqs[j] <= LOW_CUT_FREQ
      invariant forall k :: 0 <= k < mag.Length ==> mag[k] == old(mag[k])
    {
      if freqs[i] > LOW_CUT_FREQ {
        assert FirstAboveCut(freqs) == Some(i) by {
          FirstAboveIsFirst(freqs, i);
        }
        var stop := SliceStop(i - 1, mag.Length);
        for k := 0 to stop
          invariant forall j :: 0 <= j < mag.Length ==> mag[j] == if j < k then 0.0 else old(mag[j])
        {
          mag[k] := 0.0;
        }
        assert CutStop(freqs, mag.Length) == stop;
        assert mag[..] == CutSpec(old(mag[..]), freqs);
        return;
      }
      i := i + 1;
    }
    assert FirstAboveCut(freqs) == None;
    assert CutStop(freqs, mag.Length) == 0;
    assert mag[..] == CutSpec(old(mag[..]), freqs);
  }

  lemma {:induction false} FirstAboveIsFirst(freqs: seq<real>, i: nat)
    requires i < |freqs| && freqs[i] > LOW_CUT_FREQ
    requires forall j :: 0 <= j < i ==> freqs[j] <= LOW_CUT_FREQ
    ensures FirstAboveCut(freqs) == Some(i)
  {
    if i > 0 {
      FirstAboveIsFirst(freqs[1..], i - 1);
    }
  }

  // ---------------------------------------------------------------------
  // Arg-max

  /** `np.argmax`: the first index holding the maximum. */
  function ArgMaxSpec(s: seq<real>): (k: nat)
    requires |s| > 0
    ensures k < |s|
    ensures forall j :: 0 <= j < |s| ==> s[j] <= s[k]
    ensures forall j :: 0 <= j < k ==> s[j] < s[k]
  {
    if |s| == 1 then 0
    else
      var k := ArgMaxSpec(s[..|s| - 1]);
      if s[|s| - 1] > s[k] then |s| - 1 else k
  }

  /** The arg-max; `None` for an empty spectrum, where numpy raises. */
  method ArgMax(mag: array<real>) returns (r: Option<nat>)
    ensures mag.Length == 0 ==> r == None
    ensures mag.Length > 0 ==> r == Some(ArgMaxSpec(mag[..]))
  {
    if mag.Length == 0 {
      return None;
    }
    var best := 0;
    for j := 1 to mag.Length
      invariant best == ArgMaxSpec(mag[..j])
    {
      assert mag[..j + 1][..j] == mag[..j];
      if mag[j] > mag[best] {
        best := j;
      }
    }
    assert mag[..mag.Length] == mag[..];
    r := Some(best);
  }

  // ---------------------------------------------------------------------
  // The analyzer

  class AudioAnalyzer {
    const buffer: array<real>
    const queue: ProtectedList<real>
    var running: bool

    ghost predicate Valid()
      reads this, queue
    {
      buffer.Length == BUFFER_SIZE && queue.Valid()
    }

    constructor (queue: ProtectedList<real>)
      requires queue.Valid()
      ensures Valid()
      ensures fresh(buffer) && buffer[..] == seq(BUFFER_SIZE, _ => 0.0)
      ensures this.queue == queue && !running
    {
      this.queue := queue;
      buffer := new real[BUFFER_SIZE](_ => 0.0);
      running := false;
    }

    /** Shift a block of samples into the buffer; `ok` is false when the
        block could not be stored, which raises in the source and ends the
        iteration. */
    method ShiftIn(data: seq<real>) returns (ok: bool)
      requires Valid()
      modifies buffer
      ensures ok == AcceptedBlock(data)
      ensures buffer[..] == BufferAfter(old(buffer[..]), data)
    {
      var n := buffer.Length;
      for k := 0 to n - CHUNK_SIZE
        invariant forall j :: 0 <= j < n ==> buffer[j] == if j < k then old(buffer[j + CHUNK_SIZE]) else old(buffer[j])
      {
        buffer[k] := buffer[k + CHUNK_SIZE];
      }
      ok := AcceptedBlock(data);
      if !ok {
        assert buffer[..] == BufferAfter(old(buffer[..]), data);
        return;
      }
      for k := 0 to CHUNK_SIZE
        invariant forall j :: 0 <= j < n - CHUNK_SIZE ==> buffer[j] == old(buffer[j + CHUNK_SIZE])
        invariant forall j :: n - CHUNK_SIZE <= j < n - CHUNK_SIZE + k ==>
                    buffer[j] == if |data| == 1 then data[0] else data[j - (n - CHUNK_SIZE)]
      {
        buffer[n - CHUNK_SIZE + k] := if |data| == 1 then data[0] else data[k];
      }
      assert buffer[..] == BufferAfter(old(buffer[..]), data);
    }

    /** One iteration of `run`: `spectrum` is the half spectrum of the
        windowed, zero-padded buffer and `freqs` the full FFT frequency
        grid. Returns the value put on the queue, if any. */
    method Step(data: seq<real>, spectrum: array<real>, freqs: seq<real>) returns (put: Option<real>)
      requires Valid()
      requires spectrum != buffer && |freqs| == 2 * spectrum.Length
      modifies buffer, spectrum, queue
      ensures Valid()
      ensures buffer[..] == BufferAfter(old(buffer[..]), data)
      ensures !AcceptedBlock(data) ==>
                put == None && spectrum[..] == old(spectrum[..]) && queue.elements == old(queue.elements)
      ensures AcceptedBlock(data) ==>
                spectrum[..] == CutSpec(HpsSpec(old(spectrum[..]), NUM_HPS), freqs) &&
                (spectrum.Length == 0 ==> put == None && queue.elements == old(queue.elements)) &&
                (spectrum.Length > 0 ==>
                   put == Some(RoundTo2(freqs[ArgMaxSpec(spectrum[..])])) &&
                   queue.elements == Pushed(old(queue.elements), put.value, queue.bufferSize))
    {
      var ok := ShiftIn(data);
      if !ok {
        return None;
      }
      Hps(spectrum);
      LowCut(spectrum, freqs);
      var k := ArgMax(spectrum);
      if k.None? {
        return None;
      }
      var f := RoundTo2(freqs[k.value]);
      queue.Put(f);
      put := Some(f);
    }
  }
}
