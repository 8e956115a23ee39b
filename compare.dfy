/** The similarity arithmetic of `function/compare.py`: set-based (Jaccard)
    similarity of two feature lists, the quantisation of MIDI pitches, and
    the weighted combination of the pitch, rhythm and interval scores.
    Parsing with music21 is not modelled: a note arrives with the MIDI
    number music21 would give it, or none when it cannot be parsed. */
module Compare {
  import opened Common

  function Elements<T(==)>(xs: seq<T>): set<T> {
    set x | x in xs
  }

  /** `len(set1 & set2) / len(set1 | set2)`, and 0 when both are empty. */
  function Similarity<T(==)>(list1: seq<T>, list2: seq<T>): real {
    SetSimilarity(Elements(list1), Elements(list2))
  }

  function SetSimilarity<T(==)>(a: set<T>, b: set<T>): real {
    if a + b == {} then 0.0 else |a * b| as real / |a + b| as real
  }

  lemma IntersectionWithinUnion<T>(a: set<T>, b: set<T>)
    ensures |a * b| <= |a + b|
    ensures |a * b| == |a + b| ==> a == b
  {
    var i, u := a * b, a + b;
    assert u == i + (u - i);
    assert i !! (u - i);
    assert |u| == |i| + |u - i|;
    if |i| == |u| {
      assert u - i == {};
      forall x | x in a ensures x in b {
        assert x in u;
      }
      forall x | x in b ensures x in a {
        assert x in u;
      }
    }
  }

  /** The similarity lies in [0, 1] and does not depend on the order of
      its arguments. */
  lemma SimilarityBounds<T>(list1: seq<T>, list2: seq<T>)
    ensures 0.0 <= Similarity(list1, list2) <= 1.0
    ensures Similarity(list1, list2) == Similarity(list2, list1)
  {
    var a, b := Elements(list1), Elements(list2);
    IntersectionWithinUnion(a, b);
    if a + b != {} {
      RatioInUnit(|a * b| as real, |a + b| as real);
    }
    assert a * b == b * a && a + b == b + a;
  }

  /** The similarity is 1 exactly when both lists hold the same,
      non-empty, set of elements. */
  lemma SimilarityOne<T>(list1: seq<T>, list2: seq<T>)
    ensures Similarity(list1, list2) == 1.0 <==> Elements(list1) == Elements(list2) != {}
  {
    var a, b := Elements(list1), Elements(list2);
    IntersectionWithinUnion(a, b);
    if a + b != {} {
      var i, u := |a * b| as real, |a + b| as real;
      assert u > 0.0;
      if i / u == 1.0 {
        assert i == u;
      }
      if a == b {
        assert a * b == a + b;
      }
    }
  }

  /** Order and repetition do not matter: lists with the same elements
      have the same similarity to any list. */
  lemma SimilarityIgnoresOrder<T>(list1: seq<T>, other1: seq<T>, list2: seq<T>)
    requires forall x :: x in list1 <==> x in other1
    ensures Similarity(list1, list2) == Similarity(other1, list2)
  {
    assert Elements(list1) == Elements(other1);
  }

  // ---------------------------------------------------------------------
  // Pitch quantisation

  /** A note name as given, with the MIDI number it parses to, if any. */
  datatype NoteText = NoteText(text: string, midi: Option<int>)

  /** An entry of `normalize_pitches`: a quantised MIDI number, or the
      original text when parsing (or the division) failed. */
  datatype Normalized = Quantized(value: int) | Raw(text: string)

  /** `round(m / t) * t`. */
  function Quantize(m: int, t: int): int
    requires t != 0
  {
    RoundHalfEven(m as real / t as real) * t
  }

  /** Quantisation gives a multiple of the tolerance within half a
      tolerance of the input; with tolerance 1 it is the identity. */
  lemma QuantizeProperties(m: int, t: int)
    requires t != 0
    ensures Quantize(m, t) % t == 0
    ensures t > 0 ==> -(t as real) / 2.0 <= (Quantize(m, t) - m) as real <= t as real / 2.0
    ensures Quantize(m, 1) == m
  {
    ModOfMultiple(RoundHalfEven(m as real / t as real), t);
    if t > 0 {
      QuantizeClose(m, t);
    }
    QuantizeUnit(m);
  }

  lemma QuantizeClose(m: int, t: int)
    requires t > 0
    ensures -(t as real) / 2.0 <= (Quantize(m, t) - m) as real <= t as real / 2.0
  {
    var q := RoundHalfEven(m as real / t as real);
    assert Quantize(m, t) == q * t;
    ScaledRoundingError(m as real, t as real, q as real);
    CastProduct(q, t);
  }

  /** A value within half a unit of `m / t`, scaled by `t`, is within half
      of `t` of `m`. */
  lemma ScaledRoundingError(m: real, t: real, q: real)
    requires t > 0.0 && -(1.0 / 2.0) <= q - m / t <= 1.0 / 2.0
    ensures -t / 2.0 <= q * t - m <= t / 2.0
  {
    var e := q - m / t;
    RealBoundScale(e, t);
    assert (m / t) * t == m;
    assert e * t == q * t - (m / t) * t;
  }

  lemma CastProduct(a: int, b: int)
    ensures (a * b) as real == a as real * b as real
  {
  }

  lemma QuantizeUnit(m: int)
    ensures Quantize(m, 1) == m
  {
    assert m as real / 1 as real == m as real;
    RoundOfInteger(m);
  }

  lemma ModOfMultiple(q: int, t: int)
    requires t != 0
    ensures (q * t) % t == 0
  {
    var d, r := (q * t) / t, (q * t) % t;
    assert q * t == d * t + r && 0 <= r;
    assert r == (q - d) * t;
    if q - d > 0 {
      MulAwayFromZero(q - d, t);
    } else if q - d < 0 {
      MulAwayFromZero(d - q, t);
    }
  }

  lemma MulAwayFromZero(k: int, t: int)
    requires k >= 1 && t != 0
    ensures t > 0 ==> k * t >= t
    ensures t < 0 ==> k * t <= t
  {
    if t > 0 {
      assert k * t == t + (k - 1) * t;
    } else {
      assert k * t == t + (k - 1) * t;
    }
  }

  lemma RealBoundScale(d: real, t: real)
    requires t > 0.0 && -(1.0 / 2.0) <= d <= 1.0 / 2.0
    ensures -t / 2.0 <= d * t <= t / 2.0
  {
    NonNegProduct(1.0 / 2.0 - d, t);
    NonNegProduct(d + 1.0 / 2.0, t);
    assert (1.0 / 2.0 - d) * t == t / 2.0 - d * t;
    assert (d + 1.0 / 2.0) * t == d * t + t / 2.0;
  }

  lemma NonNegProduct(a: real, b: real)
    requires a >= 0.0 && b >= 0.0
    ensures a * b >= 0.0
  {
  }

  function NormalizeOne(n: NoteText, tolerance: int): Normalized {
    if n.midi.None? || tolerance == 0 then Raw(n.text) else Quantized(Quantize(n.midi.value, tolerance))
  }

  /** `normalize_pitches`: one entry per note, in order, quantised when
      the note parses and the tolerance is non-zero, otherwise the note's
      own text. */
  method NormalizePitches(notes: seq<NoteText>, tolerance: int) returns (normalized: seq<Normalized>)
    ensures |normalized| == |notes|
    ensures forall k :: 0 <= k < |notes| ==> normalized[k] == NormalizeOne(notes[k], tolerance)
  {
    normalized := [];
    for k := 0 to |notes|
      invariant |normalized| == k
      invariant forall j :: 0 <= j < k ==> normalized[j] == NormalizeOne(notes[j], tolerance)
    {
      var n := notes[k];
      if n.midi.Some? && tolerance != 0 {
        normalized := normalized + [Quantized(Quantize(n.midi.value, tolerance))];
      } else {
        normalized := normalized + [Raw(n.text)];
      }
    }
  }

  /** With tolerance 1, every parsed note becomes its own MIDI number. */
  lemma NormalizeUnitTolerance(n: NoteText)
    requires n.midi.Some?
    ensures NormalizeOne(n, 1) == Quantized(n.midi.value)
  {
    QuantizeProperties(n.midi.value, 1);
  }

  // ---------------------------------------------------------------------
  // The combined score

  const PITCH_WEIGHT: real := 0.5
  const RHYTHM_WEIGHT: real := 0.3
  const INTERVAL_WEIGHT: real := 0.2

  function FinalSimilarity(pitch: real, rhythm: real, intervals: real): real {
    pitch * PITCH_WEIGHT + rhythm * RHYTHM_WEIGHT + intervals * INTERVAL_WEIGHT
  }

  /** The weights sum to 1, so the combination of scores in [0, 1] is in
      [0, 1], and it is 1 exactly when all three scores are 1. */
  lemma FinalSimilarityBounds(pitch: real, rhythm: real, intervals: real)
    requires 0.0 <= pitch <= 1.0 && 0.0 <= rhythm <= 1.0 && 0.0 <= intervals <= 1.0
    ensures 0.0 <= FinalSimilarity(pitch, rhythm, intervals) <= 1.0
    ensures FinalSimilarity(pitch, rhythm, intervals) == 1.0 <==> pitch == 1.0 && rhythm == 1.0 && intervals == 1.0
  {
  }

  /** The four numbers `compare_midi_files_with_tolerance` returns. */
  datatype Result = Result(pitchSimilarity: real, rhythmSimilarity: real, intervalSimilarity: real, finalSimilarity: real)

  function CompareFeatures<P(==), R(==), I(==)>(notes1: seq<P>, notes2: seq<P>, rhythms1: seq<R>, rhythms2: seq<R>,
                                    intervals1: seq<I>, intervals2: seq<I>): Result
  {
    var p := Similarity(notes1, notes2);
    var r := Similarity(rhythms1, rhythms2);
    var i := Similarity(intervals1, intervals2);
    Result(RoundTo3(p), RoundTo3(r), RoundTo3(i), RoundTo3(FinalSimilarity(p, r, i)))
  }

  /** Three-decimal rounding keeps a score in [0, 1]. */
  lemma RoundTo3Unit(x: real)
    requires 0.0 <= x <= 1.0
    ensures 0.0 <= RoundTo3(x) <= 1.0
  {
    RoundMonotone(0.0, x * 1000.0);
    RoundMonotone(x * 1000.0, 1000.0);
    RoundOfInteger(0);
    RoundOfInteger(1000);
  }

  /** Every reported number is in [0, 1], within 0.0005 of the exact
      score, and the comparison is symmetric in the two files. */
  lemma CompareFeaturesProperties<P, R, I>(notes1: seq<P>, notes2: seq<P>, rhythms1: seq<R>, rhythms2: seq<R>,
                                           intervals1: seq<I>, intervals2: seq<I>)
    ensures var res := CompareFeatures(notes1, notes2, rhythms1, rhythms2, intervals1, intervals2);
            && 0.0 <= res.pitchSimilarity <= 1.0
            && 0.0 <= res.rhythmSimilarity <= 1.0
            && 0.0 <= res.intervalSimilarity <= 1.0
            && 0.0 <= res.finalSimilarity <= 1.0
            && -(1.0 / 2000.0) <= res.finalSimilarity - FinalSimilarity(Similarity(notes1, notes2), Similarity(rhythms1, rhythms2), Similarity(intervals1, intervals2)) <= 1.0 / 2000.0
    ensures CompareFeatures(notes1, notes2, rhythms1, rhythms2, intervals1, intervals2) ==
            CompareFeatures(notes2, notes1, rhythms2, rhythms1, intervals2, intervals1)
  {
    var p, r, i := Similarity(notes1, notes2), Similarity(rhythms1, rhythms2), Similarity(intervals1, intervals2);
    SimilarityBounds(notes1, notes2);
    SimilarityBounds(rhythms1, rhythms2);
    SimilarityBounds(intervals1, intervals2);
    FinalSimilarityBounds(p, r, i);
    RoundTo3Unit(p);
    RoundTo3Unit(r);
    RoundTo3Unit(i);
    RoundTo3Unit(FinalSimilarity(p, r, i));
  }
}
