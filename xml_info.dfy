/** The chord timeline of `function/xml_info.py`: the tempo of a score,
    the display name of each chord symbol and its start time in seconds.
    Parsing with music21 is not modelled: the score arrives as the sequence
    of elements its recursive walk would visit, each with the attributes the
    code reads. */
module XmlInfo {
  import opened Common

  /** An element of the walk: a metronome mark (its number, if any), a
      chord symbol (root name if any, kind, measure number and offset in
      the measure, in beats), or anything else. */
  datatype Element =
    | MetronomeMark(number: Option<real>)
    | ChordSymbol(root: Option<string>, kind: string, measure: int, offset: real)
    | Other

  const DEFAULT_BPM: real := 76.0
  const BEATS_PER_MEASURE: int := 4

  // ---------------------------------------------------------------------
  // Tempo

  /** A metronome mark whose number is present and not zero. */
  predicate TruthyMark(e: Element) {
    e.MetronomeMark? && e.number.Some? && e.number.value != 0.0
  }

  /** The number of the first truthy metronome mark, or 76. */
  function FirstBpm(els: seq<Element>): (bpm: real)
    ensures bpm != 0.0
  {
    if els == [] then DEFAULT_BPM
    else if TruthyMark(els[0]) then els[0].number.value
    else FirstBpm(els[1..])
  }

  /** The tempo is 76 exactly when no mark has a usable number (or the
      first one is 76); otherwise it is the number of the first such mark. */
  lemma {:induction false} FirstBpmCharacterised(els: seq<Element>)
    ensures (forall k :: 0 <= k < |els| ==> !TruthyMark(els[k])) ==> FirstBpm(els) == DEFAULT_BPM
    ensures forall k :: 0 <= k < |els| && TruthyMark(els[k]) && (forall j :: 0 <= j < k ==> !TruthyMark(els[j])) ==>
              FirstBpm(els) == els[k].number.value
  {
    if els != [] {
      FirstBpmCharacterised(els[1..]);
      if !TruthyMark(els[0]) {
        forall k | 0 <= k < |els| && TruthyMark(els[k]) && (forall j :: 0 <= j < k ==> !TruthyMark(els[j]))
          ensures FirstBpm(els) == els[k].number.value
        {
          assert k >= 1;
          assert els[1..][k - 1] == els[k];
          assert forall j :: 0 <= j < k - 1 ==> els[1..][j] == els[j + 1];
        }
      }
    }
  }

  // ---------------------------------------------------------------------
  // Chord names

  const KIND_MAP: map<string, string> := map[
    "major" := "major",
    "minor" := "minor",
    "dominant" := "7",
    "dominant-seventh" := "7",
    "major-seventh" := "maj7",
    "minor-seventh" := "m7",
    "diminished" := "dim",
    "diminished-seventh" := "dim7",
    "augmented" := "aug",
    "suspended-second" := "sus2",
    "suspended-fourth" := "sus4",
    "power" := "5",
    "fifth" := "5"
  ]

  /** `kind_map.get(kind, kind)`. */
  function KindName(kind: string): string {
    if kind in KIND_MAP then KIND_MAP[kind] else kind
  }

  /** Both dominant spellings read "7", both fifth spellings "5", and a kind
      the table does not know is shown as it is. */
  lemma KindNames(kind: string)
    ensures KindName("dominant") == KindName("dominant-seventh") == "7"
    ensures KindName("power") == KindName("fifth") == "5"
    ensures KindName("suspended-fourth") == "sus4"
    ensures kind !in KIND_MAP ==> KindName(kind) == kind
  {
  }

  /** The whitespace `str.strip` removes (its ASCII part): tab, line feed,
      vertical tab, form feed, carriage return, the four separators
      U+001C to U+001F, and space. */
  predicate IsSpace(c: char) {
    c == ' ' || c == '\t' || c == '\n' || c == '\r' || c == '\U{B}' || c == '\U{C}' ||
    c == '\U{1C}' || c == '\U{1D}' || c == '\U{1E}' || c == '\U{1F}'
  }

  function StripRight(s: string): (r: string)
    ensures |r| <= |s|
  {
    if s == [] || !IsSpace(s[|s| - 1]) then s else StripRight(s[..|s| - 1])
  }

  function StripLeft(s: string): (r: string)
    ensures |r| <= |s|
  {
    if s == [] || !IsSpace(s[0]) then s else StripLeft(s[1..])
  }

  /** `str.strip()`: the part of `s` between its leading and trailing
      whitespace. */
  function Strip(s: string): (r: string)
    ensures |r| <= |s|
  {
    StripLeft(StripRight(s))
  }

  /** Right stripping keeps a prefix that ends in a non-space and drops
      only whitespace. */
  lemma {:induction false} StripRightSpec(s: string)
    ensures var r := StripRight(s);
            && r == s[..|r|]
            && (r == [] || !IsSpace(r[|r| - 1]))
            && forall k :: |r| <= k < |s| ==> IsSpace(s[k])
  {
    if s != [] && IsSpace(s[|s| - 1]) {
      var init := s[..|s| - 1];
      StripRightSpec(init);
      var r := StripRight(init);
      assert s[..|r|] == init[..|r|];
    }
  }

  /** Left stripping keeps a suffix that starts with a non-space and drops
      only whitespace. */
  lemma {:induction false} StripLeftSpec(s: string)
    ensures var r := StripLeft(s);
            && r == s[|s| - |r|..]
            && (r == [] || !IsSpace(r[0]))
            && forall k :: 0 <= k < |s| - |r| ==> IsSpace(s[k])
  {
    if s != [] && IsSpace(s[0]) {
      StripLeftSpec(s[1..]);
      var r := StripLeft(s[1..]);
      assert s[1..][|s| - 1 - |r|..] == s[|s| - |r|..];
      forall k | 0 <= k < |s| - |r| ensures IsSpace(s[k]) {
        if k > 0 {
          assert s[k] == s[1..][k - 1];
        }
      }
    }
  }

  /** The stripped string is a piece of `s` with neither leading nor
      trailing whitespace, and only whitespace lies around it. */
  lemma StripSpec(s: string)
    ensures var r, i := Strip(s), |StripRight(s)| - |Strip(s)|;
            && 0 <= i && i + |r| <= |s| && r == s[i..i + |r|]
            && (r == [] || (!IsSpace(r[0]) && !IsSpace(r[|r| - 1])))
            && (forall k :: 0 <= k < i ==> IsSpace(s[k]))
            && (forall k :: i + |r| <= k < |s| ==> IsSpace(s[k]))
  {
    StripRightSpec(s);
    var right := StripRight(s);
    StripLeftSpec(right);
    var r := StripLeft(right);
    var i := |right| - |r|;
    assert right == s[..|right|];
    assert r == right[i..];
    assert r == s[i..i + |r|];
    if r != [] {
      assert r[|r| - 1] == right[|right| - 1];
    }
    forall k | 0 <= k < i ensures IsSpace(s[k]) {
      assert s[k] == right[k];
    }
  }

  /** A string with no whitespace at either end is its own stripped form. */
  lemma StripClean(s: string)
    requires s != [] && !IsSpace(s[0]) && !IsSpace(s[|s| - 1])
    ensures Strip(s) == s
  {
    assert StripRight(s) == s;
  }

  /** Trailing whitespace is dropped. */
  lemma StripTrailing(s: string, c: char)
    requires s != [] && !IsSpace(s[0]) && !IsSpace(s[|s| - 1]) && IsSpace(c)
    ensures Strip(s + [c]) == s
  {
    assert (s + [c])[..|s + [c]| - 1] == s;
    StripClean(s);
  }

  function RootName(root: Option<string>): string {
    if root.Some? then root.value else "Unknown"
  }

  predicate IsDominantKind(kind: string) {
    kind == "dominant" || kind == "dominant-seventh"
  }

  predicate IsSusFourKind(kind: string) {
    kind == "suspended-fourth"
  }

  /** The chord's display name as the code builds it, including the
      7sus4 case it tests for. */
  function ChordNameAsWritten(root: Option<string>, kind: string): string {
    if IsDominantKind(kind) && IsSusFourKind(kind) then
      RootName(root) + " 7sus4"
    else
      ChordName(root, kind)
  }

  /** The name the code produces: the root and the mapped kind, stripped. */
  function ChordName(root: Option<string>, kind: string): string {
    Strip(RootName(root) + " " + KindName(kind))
  }

  /** The 7sus4 case never applies, since one kind cannot be a dominant and
      a suspended fourth at once. */
  lemma SevenSusFourUnreachable(root: Option<string>, kind: string)
    ensures !(IsDominantKind(kind) && IsSusFourKind(kind))
    ensures ChordNameAsWritten(root, kind) == ChordName(root, kind)
  {
    if IsSusFourKind(kind) {
      assert kind[0] == 's';
    }
  }

  /** A known kind gives the root, a space and the short kind; an empty
      kind gives the bare root; a missing root reads "Unknown". */
  lemma ChordNames(root: Option<string>, kind: string)
    requires root.Some? ==> root.value != [] && !IsSpace(root.value[0]) && !IsSpace(root.value[|root.value| - 1])
    ensures kind in KIND_MAP ==> ChordName(root, kind) == RootName(root) + " " + KIND_MAP[kind]
    ensures kind == "" ==> ChordName(root, kind) == RootName(root)
    ensures root.None? && kind in KIND_MAP ==> ChordName(root, kind) == "Unknown " + KIND_MAP[kind]
  {
    var r := RootName(root);
    var s := r + " " + KindName(kind);
    if kind in KIND_MAP {
      var v := KIND_MAP[kind];
      assert v != [] && !IsSpace(v[|v| - 1]);
      assert s[0] == r[0] && s[|s| - 1] == v[|v| - 1];
      StripClean(s);
    } else if kind == "" {
      assert s == r + [' '];
      StripTrailing(r, ' ');
    }
  }

  // ---------------------------------------------------------------------
  // Start times

  /** `((measure - 1) * 4 + offset) * (60 / bpm)`: four beats to every
      measure, measures numbered from 1. */
  function StartTime(measure: int, offset: real, bpm: real): real
    requires bpm != 0.0
  {
    (((measure - 1) * BEATS_PER_MEASURE) as real + offset) * (60.0 / bpm)
  }

  /** The first beat of measure 1 is at 0; each beat lasts `60 / bpm`
      seconds and each measure four beats; at a positive tempo a chord in a
      later measure (offsets within the measure's four beats) starts later. */
  lemma StartTimeProperties(measure: int, offset: real, bpm: real, measure': int, offset': real)
    requires bpm > 0.0
    ensures StartTime(1, 0.0, bpm) == 0.0
    ensures StartTime(measure, offset + 1.0, bpm) == StartTime(measure, offset, bpm) + 60.0 / bpm
    ensures StartTime(measure + 1, offset, bpm) == StartTime(measure, offset, bpm) + 240.0 / bpm
    ensures measure < measure' && 0.0 <= offset < 4.0 && 0.0 <= offset' ==>
              StartTime(measure, offset, bpm) < StartTime(measure', offset', bpm)
  {
    var spb := 60.0 / bpm;
    assert spb > 0.0;
    assert StartTime(measure + 1, offset, bpm) == StartTime(measure, offset, bpm) + 4.0 * spb;
    if measure < measure' && 0.0 <= offset < 4.0 && 0.0 <= offset' {
      var b := ((measure - 1) * 4) as real + offset;
      var b' := ((measure' - 1) * 4) as real + offset';
      assert b < b';
      RealMulStrict(b, b', spb);
    }
  }

  lemma RealMulStrict(a: real, b: real, c: real)
    requires a < b && c > 0.0
    ensures a * c < b * c
  {
  }

  // ---------------------------------------------------------------------
  // The timeline

  /** One entry of the response: the chord's name and its start time
      rounded to two decimals. */
  datatype ChordTime = ChordTime(chord: string, time: real)

  function EntryOf(e: Element, bpm: real): ChordTime
    requires e.ChordSymbol? && bpm != 0.0
  {
    ChordTime(ChordName(e.root, e.kind), RoundTo2(StartTime(e.measure, e.offset, bpm)))
  }

  /** The entries of the chord symbols among the first `n` elements. */
  function Chords(els: seq<Element>, bpm: real, n: nat): seq<ChordTime>
    requires n <= |els| && bpm != 0.0
  {
    if n == 0 then []
    else Chords(els, bpm, n - 1) + if els[n - 1].ChordSymbol? then [EntryOf(els[n - 1], bpm)] else []
  }

  /** The number of chord symbols among the first `n` elements. */
  function ChordCount(els: seq<Element>, n: nat): nat
    requires n <= |els|
  {
    if n == 0 then 0 else ChordCount(els, n - 1) + if els[n - 1].ChordSymbol? then 1 else 0
  }

  /** One entry per chord symbol, in the order of the walk: the `k`-th
      entry belongs to the `k`-th chord symbol. */
  lemma {:induction false} ChordsMatchSymbols(els: seq<Element>, bpm: real, n: nat, i: nat)
    requires n <= |els| && bpm != 0.0 && i < n && els[i].ChordSymbol?
    ensures |Chords(els, bpm, n)| == ChordCount(els, n)
    ensures ChordCount(els, i) < |Chords(els, bpm, n)|
    ensures Chords(els, bpm, n)[ChordCount(els, i)] == EntryOf(els[i], bpm)
  {
    ChordsLength(els, bpm, n);
    if i < n - 1 {
      ChordsMatchSymbols(els, bpm, n - 1, i);
    } else {
      ChordsLength(els, bpm, n - 1);
    }
  }

  lemma {:induction false} ChordsLength(els: seq<Element>, bpm: real, n: nat)
    requires n <= |els| && bpm != 0.0
    ensures |Chords(els, bpm, n)| == ChordCount(els, n)
  {
    if n > 0 {
      ChordsLength(els, bpm, n - 1);
    }
  }

  /** The tempo loop: the first metronome mark with a usable number. */
  method FindBpm(els: seq<Element>) returns (bpm: real)
    ensures bpm == FirstBpm(els)
  {
    bpm := DEFAULT_BPM;
    var i := 0;
    while i < |els|
      invariant 0 <= i <= |els|
      invariant FirstBpm(els) == FirstBpm(els[i..])
      invariant bpm == DEFAULT_BPM
    {
      var e := els[i];
      assert els[i..][1..] == els[i + 1..];
      if e.MetronomeMark? && e.number.Some? && e.number.value != 0.0 {
        bpm := e.number.value;
        return;
      }
      i := i + 1;
    }
  }

  /** The chord loop: one entry per chord symbol, in walk order. */
  method CollectChords(els: seq<Element>, bpm: real) returns (chords: seq<ChordTime>)
    requires bpm != 0.0
    ensures chords == Chords(els, bpm, |els|)
  {
    var secondsPerBeat := 60.0 / bpm;
    chords := [];
    for k := 0 to |els|
      invariant chords == Chords(els, bpm, k)
    {
      var e := els[k];
      if e.ChordSymbol? {
        var root, kindRaw := e.root, e.kind;
        var name;
        SevenSusFourUnreachable(root, kindRaw);
        if IsDominantKind(kindRaw) && IsSusFourKind(kindRaw) {
          name := RootName(root) + " 7sus4";
        } else {
          name := Strip(RootName(root) + " " + KindName(kindRaw));
        }
        var beats := ((e.measure - 1) * BEATS_PER_MEASURE) as real + e.offset;
        var startTime := beats * secondsPerBeat;
        assert startTime == StartTime(e.measure, e.offset, bpm);
        assert ChordTime(name, RoundTo2(startTime)) == EntryOf(els[k], bpm);
        chords := chords + [ChordTime(name, RoundTo2(startTime))];
      }
    }
  }

  /** `get_chord_timing` after the file is parsed: the tempo of the first
      usable metronome mark (76 without one), then one entry per chord
      symbol in walk order. */
  method GetChordTiming(els: seq<Element>) returns (bpm: real, chords: seq<ChordTime>)
    ensures bpm == FirstBpm(els)
    ensures chords == Chords(els, bpm, |els|)
  {
    bpm := FindBpm(els);
    chords := CollectChords(els, bpm);
  }
}
