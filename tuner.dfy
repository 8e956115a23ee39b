/** The `Tuner` of `function/tuner.py`: the floor filter and rolling mean
    applied to the frequencies the analyzer puts on the queue, and the
    skipping of empty readings in its run loop. Client handling, threads and
    the websocket are not modelled. */
module Tuner {
  import opened Common
  import opened ProtectedQueue
  import TunerAnalyzer

  const MIN_FREQ: real := 50.0
  const ROLLING_AVG_WINDOW: nat := 3

  function Sum(s: seq<real>): real {
    if s == [] then 0.0 else Sum(s[..|s| - 1]) + s[|s| - 1]
  }

  /** `np.mean`. */
  function Mean(s: seq<real>): real
    requires |s| > 0
  {
    Sum(s) / |s| as real
  }

  lemma {:induction false} SumBounds(s: seq<real>, lo: real, hi: real)
    requires forall k :: 0 <= k < |s| ==> lo <= s[k] <= hi
    ensures |s| as real * lo <= Sum(s) <= |s| as real * hi
  {
    if s != [] {
      SumBounds(s[..|s| - 1], lo, hi);
    }
  }

  /** The mean lies between any lower and upper bound of the values. */
  lemma MeanBounds(s: seq<real>, lo: real, hi: real)
    requires |s| > 0
    requires forall k :: 0 <= k < |s| ==> lo <= s[k] <= hi
    ensures lo <= Mean(s) <= hi
  {
    SumBounds(s, lo, hi);
    var n := |s| as real;
    assert Mean(s) * n == Sum(s);
  }

  /** The window after accepting `freq`: appended, oldest evicted beyond
      three values. */
  function Rolled(window: seq<real>, freq: real): seq<real> {
    var w := window + [freq];
    if |w| > ROLLING_AVG_WINDOW then w[1..] else w
  }

  /** The rolled window holds at most three values, the newest last, and
      evicts exactly the oldest value when full. */
  lemma RolledShape(window: seq<real>, freq: real)
    requires |window| <= ROLLING_AVG_WINDOW
    ensures 0 < |Rolled(window, freq)| <= ROLLING_AVG_WINDOW
    ensures Rolled(window, freq)[|Rolled(window, freq)| - 1] == freq
    ensures |window| == ROLLING_AVG_WINDOW ==> Rolled(window, freq) == window[1..] + [freq]
    ensures |window| < ROLLING_AVG_WINDOW ==> Rolled(window, freq) == window + [freq]
  {
  }

  /** Rolling a value of at least 50 into a window of such values gives a
      mean of at least 50 that lies between the window's extremes. */
  lemma RolledMeanBounds(window: seq<real>, freq: real)
    requires |window| <= ROLLING_AVG_WINDOW && freq >= MIN_FREQ
    requires forall k :: 0 <= k < |window| ==> window[k] >= MIN_FREQ
    ensures 0 < |Rolled(window, freq)| <= ROLLING_AVG_WINDOW
    ensures forall k :: 0 <= k < |Rolled(window, freq)| ==> Rolled(window, freq)[k] >= MIN_FREQ
    ensures var w := Rolled(window, freq);
            MIN_FREQ <= Mean(w) && SeqMinOf(w) <= Mean(w) <= SeqMaxOf(w)
  {
    var w := Rolled(window, freq);
    assert forall k :: 0 <= k < |w| ==> w[k] >= MIN_FREQ;
    MeanBounds(w, MIN_FREQ, SeqMaxOf(w));
    MeanBounds(w, SeqMinOf(w), SeqMaxOf(w));
  }

  /** What the loop sends for a stable frequency. */
  datatype Reading = Reading(frequency: real, note: string)

  class Tuner {
    var lastFreqs: seq<real>
    const queue: ProtectedList<real>

    /** The window never exceeds three values and holds only values that
        passed the floor. */
    ghost predicate Valid()
      reads this, queue
    {
      && |lastFreqs| <= ROLLING_AVG_WINDOW
      && (forall k :: 0 <= k < |lastFreqs| ==> lastFreqs[k] >= MIN_FREQ)
      && queue.Valid()
    }

    /** `Tuner()` with its queue of capacity 8. */
    constructor ()
      ensures Valid()
      ensures lastFreqs == [] && fresh(queue) && queue.elements == [] && queue.bufferSize == DEFAULT_BUFFER_SIZE
    {
      lastFreqs := [];
      queue := new ProtectedList.Default();
    }

    /** Below 50 Hz nothing is recorded; otherwise the frequency joins the
        window of the last three and their mean is returned, which is at
        least 50 and lies between the smallest and the largest of them. */
    method GetStableFrequency(freq: real) returns (stable: Option<real>)
      requires Valid()
      modifies this`lastFreqs
      ensures Valid()
      ensures freq < MIN_FREQ ==> stable == None && lastFreqs == old(lastFreqs)
      ensures freq >= MIN_FREQ ==> lastFreqs == Rolled(old(lastFreqs), freq) && stable == Some(Mean(lastFreqs))
      ensures stable.Some? ==> stable.value >= MIN_FREQ
      ensures stable.Some? ==> SeqMinOf(lastFreqs) <= stable.value <= SeqMaxOf(lastFreqs)
    {
      if freq < MIN_FREQ {
        return None;
      }
      ghost var before := lastFreqs;
      lastFreqs := lastFreqs + [freq];
      if |lastFreqs| > ROLLING_AVG_WINDOW {
        lastFreqs := lastFreqs[1..];
      }
      assert lastFreqs == Rolled(before, freq);
      RolledMeanBounds(before, freq);
      var mean := Mean(lastFreqs);
      stable := Some(mean);
    }

    /** One pass of the run loop: take a value from the queue; an empty
        queue or a zero value is skipped, otherwise the stable frequency and
        its note name are produced. */
    method Step(log2: real -> real) returns (sent: Option<Reading>)
      requires Valid()
      modifies this`lastFreqs, queue
      ensures Valid()
      ensures old(queue.elements) == [] ==> sent == None && lastFreqs == old(lastFreqs) && queue.elements == []
      ensures old(queue.elements) != [] ==> queue.elements == old(queue.elements)[1..]
      ensures old(queue.elements) != [] && old(queue.elements)[0] == 0.0 ==>
                sent == None && lastFreqs == old(lastFreqs)
      ensures old(queue.elements) != [] && old(queue.elements)[0] != 0.0 ==>
                var freq := old(queue.elements)[0];
                (freq < MIN_FREQ ==> sent == None && lastFreqs == old(lastFreqs)) &&
                (freq >= MIN_FREQ ==>
                   lastFreqs == Rolled(old(lastFreqs), freq) &&
                   sent == Some(Reading(Mean(lastFreqs), TunerAnalyzer.FrequencyToNoteName(Mean(lastFreqs), log2))))
    {
      var freq := queue.Get();
      if freq.None? || freq.value == 0.0 {
        return None;
      }
      var stable := GetStableFrequency(freq.value);
      if stable.None? || stable.value == 0.0 {
        return None;
      }
      var note := TunerAnalyzer.FrequencyToNoteName(stable.value, log2);
      sent := Some(Reading(stable.value, note));
    }
  }

  function SeqMinOf(s: seq<real>): (m: real)
    requires |s| > 0
    ensures m in s
    ensures forall k :: 0 <= k < |s| ==> m <= s[k]
  {
    if |s| == 1 then s[0]
    else
      var m := SeqMinOf(s[..|s| - 1]);
      if s[|s| - 1] < m then s[|s| - 1] else m
  }

  function SeqMaxOf(s: seq<real>): (m: real)
    requires |s| > 0
    ensures m in s
    ensures forall k :: 0 <= k < |s| ==> s[k] <= m
  {
    if |s| == 1 then s[0]
    else
      var m := SeqMaxOf(s[..|s| - 1]);
      if s[|s| - 1] > m then s[|s| - 1] else m
  }
}
