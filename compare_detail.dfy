/** The element-wise comparison of `function/compare_detail.py`: the
    clamped mismatch score of two feature sequences and the list of the
    positions where they differ. Feature extraction and the music21 pitch
    names are not modelled: the sequences are given, and the name of a MIDI
    number is a parameter. */
module CompareDetail {
  import opened Common

  function Abs(x: real): real {
    if x < 0.0 then -x else x
  }

  function MinLen(a: seq<real>, b: seq<real>): nat {
    if |a| < |b| then |a| else |b|
  }

  predicate Differs(a: seq<real>, b: seq<real>, tolerance: real, i: nat)
    requires i < |a| && i < |b|
  {
    Abs(a[i] - b[i]) > tolerance
  }

  /** The number of positions below `n` where the sequences differ by more
      than the tolerance. */
  function Mismatches(a: seq<real>, b: seq<real>, tolerance: real, n: nat): (r: nat)
    requires n <= |a| && n <= |b|
    ensures r <= n
  {
    if n == 0 then 0
    else Mismatches(a, b, tolerance, n - 1) + if Differs(a, b, tolerance, n - 1) then 1 else 0
  }

  /** `max(100 - mismatches, 0) / 100` over the common length. */
  function ClampedScore(mismatches: nat): (r: real)
    ensures 0.0 <= r <= 1.0
    ensures r == 1.0 <==> mismatches == 0
  {
    var score := 100.0 - mismatches as real;
    (if score < 0.0 then 0.0 else score) / 100.0
  }

  /** `compare_sequences`: start at 100, lose a point per differing
      position of the common prefix, clamp at 0 and scale to [0, 1]. */
  method CompareSequences(seq1: seq<real>, seq2: seq<real>, tolerance: real) returns (r: real)
    ensures r == ClampedScore(Mismatches(seq1, seq2, tolerance, MinLen(seq1, seq2)))
  {
    var minLen := MinLen(seq1, seq2);
    var score := 100.0;
    for i := 0 to minLen
      invariant score == 100.0 - Mismatches(seq1, seq2, tolerance, i) as real
    {
      if Abs(seq1[i] - seq2[i]) > tolerance {
        score := score - 1.0;
      }
    }
    if score < 0.0 {
      score := 0.0;
    }
    r := score / 100.0;
  }

  lemma {:induction false} MismatchesOfPrefix(a: seq<real>, b: seq<real>, a': seq<real>, b': seq<real>, tolerance: real, n: nat)
    requires n <= |a| && n <= |b| && n <= |a'| && n <= |b'|
    requires a[..n] == a'[..n] && b[..n] == b'[..n]
    ensures Mismatches(a, b, tolerance, n) == Mismatches(a', b', tolerance, n)
  {
    if n > 0 {
      assert a[..n - 1] == a'[..n - 1] && b[..n - 1] == b'[..n - 1];
      assert a[n - 1] == a[..n][n - 1] && b[n - 1] == b[..n][n - 1];
      MismatchesOfPrefix(a, b, a', b', tolerance, n - 1);
    }
  }

  /** Positions past the shorter sequence never matter: the score is the
      score of the two common-length prefixes. */
  lemma ScoreIgnoresTail(a: seq<real>, b: seq<real>, tolerance: real)
    ensures var m := MinLen(a, b);
            Mismatches(a, b, tolerance, m) == Mismatches(a[..m], b[..m], tolerance, m)
  {
    var m := MinLen(a, b);
    assert a[..m][..m] == a[..m] && b[..m][..m] == b[..m];
    MismatchesOfPrefix(a, b, a[..m], b[..m], tolerance, m);
  }

  lemma {:induction false} NoMismatchesWhenEqual(a: seq<real>, b: seq<real>, tolerance: real, n: nat)
    requires n <= |a| && n <= |b| && tolerance >= 0.0
    requires forall i :: 0 <= i < n ==> a[i] == b[i]
    ensures Mismatches(a, b, tolerance, n) == 0
  {
    if n > 0 {
      NoMismatchesWhenEqual(a, b, tolerance, n - 1);
    }
  }

  // ---------------------------------------------------------------------
  // The difference list

  /** A value as reported: unchanged, as the pitch name of a MIDI number,
      or as a duration formatted with two decimals and the seconds unit. */
  datatype Shown = Plain(value: real) | PitchName(name: string) | Seconds(value: real)

  /** One record: the 1-based position, the two values and the time. */
  datatype Difference = Difference(number: nat, value1: Shown, value2: Shown, time: real)

  function Show(x: real, feature: string, pitchName: real -> string): Shown {
    if feature == "pitch" then PitchName(pitchName(x))
    else if feature == "rhythm" then Seconds(x)
    else Plain(x)
  }

  function RecordAt(a: seq<real>, b: seq<real>, i: nat, feature: string, pitchName: real -> string): Difference
    requires i < |a| && i < |b|
  {
    Difference(i + 1, Show(a[i], feature, pitchName), Show(b[i], feature, pitchName), RoundTo2(i as real * 0.5))
  }

  /** The records for the differing positions below `n`, in order. */
  function Differences(a: seq<real>, b: seq<real>, tolerance: real, feature: string, pitchName: real -> string, n: nat): seq<Difference>
    requires n <= |a| && n <= |b|
  {
    if n == 0 then []
    else
      Differences(a, b, tolerance, feature, pitchName, n - 1) +
        if Differs(a, b, tolerance, n - 1) then [RecordAt(a, b, n - 1, feature, pitchName)] else []
  }

  /** `get_differences`. */
  method GetDifferences(seq1: seq<real>, seq2: seq<real>, tolerance: real, feature: string, pitchName: real -> string)
    returns (differences: seq<Difference>)
    ensures differences == Differences(seq1, seq2, tolerance, feature, pitchName, MinLen(seq1, seq2))
  {
    var minLen := MinLen(seq1, seq2);
    differences := [];
    for i := 0 to minLen
      invariant differences == Differences(seq1, seq2, tolerance, feature, pitchName, i)
    {
      if Abs(seq1[i] - seq2[i]) > tolerance {
        var val1 := Plain(seq1[i]);
        var val2 := Plain(seq2[i]);
        if feature == "pitch" {
          val1 := PitchName(pitchName(seq1[i]));
          val2 := PitchName(pitchName(seq2[i]));
        } else if feature == "rhythm" {
          val1 := Seconds(seq1[i]);
          val2 := Seconds(seq2[i]);
        }
        differences := differences + [Difference(i + 1, val1, val2, RoundTo2(i as real * 0.5))];
      }
    }
  }

  /** The time of position `i` is exactly `i / 2`: rounding to two decimals
      changes nothing. */
  lemma TimeIsHalfIndex(i: nat)
    ensures RoundTo2(i as real * 0.5) == i as real / 2.0
  {
    assert i as real * 0.5 * 100.0 == (50 * i) as real;
    RoundOfInteger(50 * i);
  }

  /** There is one record per differing position: as many records as
      mismatches. */
  lemma {:induction false} DifferencesCount(a: seq<real>, b: seq<real>, tolerance: real, feature: string, pitchName: real -> string, n: nat)
    requires n <= |a| && n <= |b|
    ensures |Differences(a, b, tolerance, feature, pitchName, n)| == Mismatches(a, b, tolerance, n)
  {
    if n > 0 {
      DifferencesCount(a, b, tolerance, feature, pitchName, n - 1);
    }
  }

  /** Every record is the record of a differing position below `n`,
      numbered one past that position. */
  lemma {:induction false} DifferenceSound(a: seq<real>, b: seq<real>, tolerance: real, feature: string, pitchName: real -> string, n: nat, k: nat)
    requires n <= |a| && n <= |b| && k < |Differences(a, b, tolerance, feature, pitchName, n)|
    ensures var r := Differences(a, b, tolerance, feature, pitchName, n)[k];
            && 1 <= r.number <= n
            && Differs(a, b, tolerance, r.number - 1)
            && r == RecordAt(a, b, r.number - 1, feature, pitchName)
  {
    var prev := Differences(a, b, tolerance, feature, pitchName, n - 1);
    if k < |prev| {
      DifferenceSound(a, b, tolerance, feature, pitchName, n - 1, k);
    }
  }

  /** The records are numbered in increasing order. */
  lemma {:induction false} DifferencesOrdered(a: seq<real>, b: seq<real>, tolerance: real, feature: string, pitchName: real -> string, n: nat, k: nat, l: nat)
    requires n <= |a| && n <= |b| && k < l < |Differences(a, b, tolerance, feature, pitchName, n)|
    ensures Differences(a, b, tolerance, feature, pitchName, n)[k].number < Differences(a, b, tolerance, feature, pitchName, n)[l].number
  {
    var prev := Differences(a, b, tolerance, feature, pitchName, n - 1);
    if l < |prev| {
      DifferencesOrdered(a, b, tolerance, feature, pitchName, n - 1, k, l);
    } else {
      DifferenceSound(a, b, tolerance, feature, pitchName, n - 1, k);
    }
  }

  /** Every differing position below `n` has its record. */
  lemma {:induction false} DifferencesComplete(a: seq<real>, b: seq<real>, tolerance: real, feature: string, pitchName: real -> string, n: nat, i: nat)
    requires n <= |a| && n <= |b| && i < n && Differs(a, b, tolerance, i)
    ensures RecordAt(a, b, i, feature, pitchName) in Differences(a, b, tolerance, feature, pitchName, n)
  {
    var prev := Differences(a, b, tolerance, feature, pitchName, n - 1);
    if i < n - 1 {
      DifferencesComplete(a, b, tolerance, feature, pitchName, n - 1, i);
    }
  }

  lemma {:induction false} DifferencesOfPrefix(a: seq<real>, b: seq<real>, a': seq<real>, b': seq<real>, tolerance: real,
                                               feature: string, pitchName: real -> string, n: nat)
    requires n <= |a| && n <= |b| && n <= |a'| && n <= |b'|
    requires a[..n] == a'[..n] && b[..n] == b'[..n]
    ensures Differences(a, b, tolerance, feature, pitchName, n) == Differences(a', b', tolerance, feature, pitchName, n)
  {
    if n > 0 {
      assert a[..n - 1] == a'[..n - 1] && b[..n - 1] == b'[..n - 1];
      assert a[n - 1] == a[..n][n - 1] && b[n - 1] == b[..n][n - 1];
      DifferencesOfPrefix(a, b, a', b', tolerance, feature, pitchName, n - 1);
    }
  }

  /** Positions past the shorter sequence never appear in the difference
      list either: it is the list of the two common-length prefixes. */
  lemma DifferencesIgnoreTail(a: seq<real>, b: seq<real>, tolerance: real, feature: string, pitchName: real -> string)
    ensures var m := MinLen(a, b);
            Differences(a, b, tolerance, feature, pitchName, m) == Differences(a[..m], b[..m], tolerance, feature, pitchName, m)
  {
    var m := MinLen(a, b);
    assert a[..m][..m] == a[..m] && b[..m][..m] == b[..m];
    DifferencesOfPrefix(a, b, a[..m], b[..m], tolerance, feature, pitchName, m);
  }

  /** The score and the difference list agree: the score is the clamped
      count of the records. */
  lemma ScoreCountsDifferences(a: seq<real>, b: seq<real>, tolerance: real, feature: string, pitchName: real -> string)
    ensures var m := MinLen(a, b);
            ClampedScore(Mismatches(a, b, tolerance, m)) == ClampedScore(|Differences(a, b, tolerance, feature, pitchName, m)|)
  {
    DifferencesCount(a, b, tolerance, feature, pitchName, MinLen(a, b));
  }

  /** Sequences that agree on the common prefix (with a non-negative
      tolerance) score 1.0 and have no differences. */
  lemma EqualPrefixPerfect(a: seq<real>, b: seq<real>, tolerance: real, feature: string, pitchName: real -> string)
    requires tolerance >= 0.0
    requires forall i :: 0 <= i < MinLen(a, b) ==> a[i] == b[i]
    ensures ClampedScore(Mismatches(a, b, tolerance, MinLen(a, b))) == 1.0
    ensures Differences(a, b, tolerance, feature, pitchName, MinLen(a, b)) == []
  {
    NoMismatchesWhenEqual(a, b, tolerance, MinLen(a, b));
    DifferencesCount(a, b, tolerance, feature, pitchName, MinLen(a, b));
  }

  /** For labels other than "pitch" and "rhythm" the values are reported
      unchanged. */
  lemma OtherLabelsPlain(a: seq<real>, b: seq<real>, i: nat, feature: string, pitchName: real -> string)
    requires i < |a| && i < |b| && feature != "pitch" && feature != "rhythm"
    ensures RecordAt(a, b, i, feature, pitchName).value1 == Plain(a[i])
    ensures RecordAt(a, b, i, feature, pitchName).value2 == Plain(b[i])
  {
  }
}
