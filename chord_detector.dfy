/** Chord recognition of `chord_audio/chord_detector.py`: naming a pitch by
    its semitone offset from concert A, and scoring every chord template of
    the static table against a set of detected pitch-class names. */
module ChordDetector {
  import opened Common
  import opened Ranking

  /** Pitch classes, starting from concert A (440 Hz). */
  const ALL_NOTES: seq<string> := ["A", "A#", "B", "C", "C#", "D", "D#", "E", "F", "F#", "G", "G#"]

  /** `find_closest_note_name`, given the pitch's offset from concert A in
      fractional semitones, 12 * log2(pitch / 440) (the logarithm itself is
      not modelled): round to the nearest semitone, then index the table
      modulo 12. */
  function FindClosestNoteName(semitones: real): (name: string)
    ensures name in ALL_NOTES
  {
    ALL_NOTES[RoundHalfEven(semitones) % 12]
  }

  /** On a whole number of semitones the name is the table entry at that
      index modulo 12. */
  lemma NoteNameOfSemitoneIndex(i: int)
    ensures FindClosestNoteName(i as real) == ALL_NOTES[i % 12]
  {
    RoundOfInteger(i);
  }

  /** The name is periodic by the octave. */
  lemma NoteNameOctavePeriodic(x: real, k: int)
    ensures FindClosestNoteName(x + (12 * k) as real) == FindClosestNoteName(x)
  {
    TwelveIsEven(k);
    RoundShiftEven(x, 12 * k);
    ModShift12(RoundHalfEven(x), k);
  }

  /** 440 Hz and the A an octave above and below are all named "A". */
  lemma ConcertPitchIsA()
    ensures FindClosestNoteName(0.0) == "A"
    ensures FindClosestNoteName(12.0) == "A"
    ensures FindClosestNoteName(-12.0) == "A"
  {
    NoteNameOfSemitoneIndex(0);
    NoteNameOfSemitoneIndex(12);
    NoteNameOfSemitoneIndex(-12);
  }

  // ---------------------------------------------------------------------
  // The chord template table

  /** One `{"note", "weight", "role"}` entry; `weight` and `role` may be
      absent from the table. */
  datatype NoteInfo = NoteInfo(note: string, weight: Option<real>, role: Option<string>)

  /** One `(root, chord type)` entry of the table with its notes. The table
      is a list of these in the order the nested dictionary iterates. */
  datatype Template = Template(root: string, chordType: string, notes: seq<NoteInfo>)

  const ROOT_BONUS: real := 0.12
  const ALL_MATCHED_BONUS: real := 0.3
  const EXACT_THREE_BONUS: real := 0.1
  const MORE_THAN_THREE_BONUS: real := 0.03
  const POWER_CHORD_PENALTY: real := 0.1

  /** Chord types that must match at least three notes. */
  const SUS_DIM_AUG: seq<string> := ["sus2", "sus4", "7sus4", "dim", "dim7", "aug"]

  /** `note_info.get("weight", 1.0)`. */
  function Weight(n: NoteInfo): real {
    if n.weight.Some? then n.weight.value else 1.0
  }

  function TotalWeight(notes: seq<NoteInfo>): real {
    if notes == [] then 0.0 else TotalWeight(notes[..|notes| - 1]) + Weight(notes[|notes| - 1])
  }

  /** Sum of the weights of the template notes found in `d`. */
  function MatchedWeight(notes: seq<NoteInfo>, d: set<string>): real {
    if notes == [] then 0.0
    else MatchedWeight(notes[..|notes| - 1], d) + (if notes[|notes| - 1].note in d then Weight(notes[|notes| - 1]) else 0.0)
  }

  /** Number of template notes found in `d`. */
  function MatchedCount(notes: seq<NoteInfo>, d: set<string>): nat {
    if notes == [] then 0
    else MatchedCount(notes[..|notes| - 1], d) + (if notes[|notes| - 1].note in d then 1 else 0)
  }

  /** The set of note names of a template (`required_notes`). */
  function NoteSet(notes: seq<NoteInfo>): set<string> {
    if notes == [] then {} else NoteSet(notes[..|notes| - 1]) + {notes[|notes| - 1].note}
  }

  /** Every template note is in `d` (the `all_matched` flag). */
  predicate AllPresent(notes: seq<NoteInfo>, d: set<string>) {
    forall i :: 0 <= i < |notes| ==> notes[i].note in d
  }

  /** The root bonus applies when some matched template note is the root. */
  predicate RootMatched(t: Template, d: set<string>) {
    t.root in d && t.root in NoteSet(t.notes)
  }

  /** The note of the first entry whose role is "third", if any. */
  function ThirdNote(notes: seq<NoteInfo>): (r: Option<string>)
    ensures r.Some? ==> exists i :: 0 <= i < |notes| && notes[i].role == Some("third") && notes[i].note == r.value
    ensures r.None? ==> forall i :: 0 <= i < |notes| ==> notes[i].role != Some("third")
  {
    if notes == [] then None
    else if notes[0].role == Some("third") then Some(notes[0].note)
    else
      var r := ThirdNote(notes[1..]);
      assert forall i :: 1 <= i < |notes| ==> notes[i] == notes[1..][i - 1];
      r
  }

  /** The weighted match ratio, root bonus included before the division. */
  function MatchScore(t: Template, d: set<string>): real
    requires TotalWeight(t.notes) != 0.0
  {
    (MatchedWeight(t.notes, d) + (if RootMatched(t, d) then ROOT_BONUS else 0.0)) / TotalWeight(t.notes)
  }

  /** The score after the type-specific gate, or None if the gate drops the
      template. */
  function GatedScore(t: Template, d: set<string>): Option<real>
    requires TotalWeight(t.notes) != 0.0
  {
    var base := MatchScore(t, d);
    var matched := MatchedCount(t.notes, d);
    if t.chordType in SUS_DIM_AUG then
      if matched < 3 then None
      else if matched == 3 then Some(base + EXACT_THREE_BONUS)
      else Some(base + MORE_THAN_THREE_BONUS)
    else if t.chordType == "5" then
      if matched < 2 then None
      else if !(NoteSet(t.notes) <= d) then None
      else Some(base - POWER_CHORD_PENALTY)
    else
      if matched < 2 then None
      else
        var third := ThirdNote(t.notes);
        // `if third_note and ...`: an empty name is falsy in Python
        if third.Some? && third.value != "" && third.value !in d then None
        else Some(base)
  }

  /** The candidate one template contributes, if any. */
  function Evaluate(t: Template, d: set<string>): (c: Option<Candidate>)
    ensures TotalWeight(t.notes) == 0.0 ==> c.None?
    ensures c.Some? ==> c.value.name == t.root + " " + t.chordType
  {
    if TotalWeight(t.notes) == 0.0 then None
    else
      var g := GatedScore(t, d);
      if g.None? then None
      else Some(Candidate(t.root + " " + t.chordType,
                          if AllPresent(t.notes, d) then g.value + ALL_MATCHED_BONUS else g.value))
  }

  /** The candidates of a whole table, in table order. */
  function Candidates(table: seq<Template>, d: set<string>): seq<Candidate> {
    if table == [] then []
    else
      var c := Evaluate(table[|table| - 1], d);
      Candidates(table[..|table| - 1], d) + (if c.Some? then [c.value] else [])
  }

  // ---------------------------------------------------------------------
  // The scoring loop and the top-4 selection

  /** The body of the loop over one template: accumulates weight, matched
      weight, the matched count, the `all_matched` flag and a root bonus
      given at most once, then applies the gates. */
  method ScoreTemplate(t: Template, d: set<string>) returns (c: Option<Candidate>)
    ensures c == Evaluate(t, d)
  {
    var score, totalWeight := 0.0, 0.0;
    var matchedNotes: nat := 0;
    var allMatched, rootBonusGiven := true, false;
    for i := 0 to |t.notes|
      invariant totalWeight == TotalWeight(t.notes[..i])
      invariant matchedNotes == MatchedCount(t.notes[..i], d)
      invariant allMatched <==> AllPresent(t.notes[..i], d)
      invariant rootBonusGiven <==> t.root in d && t.root in NoteSet(t.notes[..i])
      invariant score == MatchedWeight(t.notes[..i], d) + (if rootBonusGiven then ROOT_BONUS else 0.0)
    {
      var info := t.notes[i];
      assert t.notes[..i + 1][..i] == t.notes[..i];
      assert t.notes[..i + 1][i] == info;
      var weight := Weight(info);
      totalWeight := totalWeight + weight;
      if info.note in d {
        score := score + weight;
        matchedNotes := matchedNotes + 1;
        if !rootBonusGiven && info.note == t.root {
          score := score + ROOT_BONUS;
          rootBonusGiven := true;
        }
      } else {
        allMatched := false;
      }
    }
    assert t.notes[..|t.notes|] == t.notes;
    if totalWeight == 0.0 {
      return None;
    }
    var matchScore := score / totalWeight;
    if t.chordType in SUS_DIM_AUG {
      if matchedNotes < 3 {
        return None;
      } else if matchedNotes == 3 {
        matchScore := matchScore + EXACT_THREE_BONUS;
      } else {
        matchScore := matchScore + MORE_THAN_THREE_BONUS;
      }
    } else if t.chordType == "5" {
      if matchedNotes < 2 {
        return None;
      }
      if !(NoteSet(t.notes) <= d) {
        return None;
      }
      matchScore := matchScore - POWER_CHORD_PENALTY;
    } else {
      if matchedNotes < 2 {
        return None;
      }
      var third := ThirdNote(t.notes);
      if third.Some? && third.value != "" && third.value !in d {
        return None;
      }
    }
    if allMatched {
      matchScore := matchScore + ALL_MATCHED_BONUS;
    }
    c := Some(Candidate(t.root + " " + t.chordType, matchScore));
  }

  /** The set of detected names (`set(detected_notes)`). */
  function DetectedSet(detectedNotes: seq<string>): set<string> {
    set n | n in detectedNotes
  }

  /** `detect_top4_chords`: score every template against the set of the
      detected names, sort the survivors stably by descending score and keep
      the first four. */
  method DetectTop4Chords(detectedNotes: seq<string>, table: seq<Template>) returns (top: seq<Candidate>)
    ensures top == Take(SortByScoreDesc(Candidates(table, DetectedSet(detectedNotes))), 4)
    ensures Top4Correct(top, table, DetectedSet(detectedNotes))
  {
    var d := DetectedSet(detectedNotes);
    var candidates: seq<Candidate> := [];
    for j := 0 to |table|
      invariant candidates == Candidates(table[..j], d)
    {
      assert table[..j + 1][..j] == table[..j];
      var c := ScoreTemplate(table[j], d);
      if c.Some? {
        candidates := candidates + [c.value];
      }
    }
    assert table[..|table|] == table;
    top := Take(SortByScoreDesc(candidates), 4);
    Top4Properties(table, d);
  }

  /** What the top-4 list promises: at most four candidates, in
      non-increasing score order, each the candidate of a table template and
      named `"<root> <type>"`, and none left out scoring higher than one
      kept. */
  ghost predicate Top4Correct(top: seq<Candidate>, table: seq<Template>, d: set<string>) {
    && |top| <= 4
    && SortedDesc(top)
    && (forall k :: 0 <= k < |top| ==>
          exists t :: t in table && Evaluate(t, d) == Some(top[k]) && top[k].name == t.root + " " + t.chordType)
    && (forall c, k :: (c in multiset(Candidates(table, d)) - multiset(top) && 0 <= k < |top|) ==>
          c.score <= top[k].score)
  }

  lemma Top4Properties(table: seq<Template>, d: set<string>)
    ensures Top4Correct(Take(SortByScoreDesc(Candidates(table, d)), 4), table, d)
  {
    var cands := Candidates(table, d);
    TopNBest(cands, 4);
    TopFromTable(table, d, Take(SortByScoreDesc(cands), 4));
  }

  lemma TopFromTable(table: seq<Template>, d: set<string>, top: seq<Candidate>)
    requires multiset(top) <= multiset(Candidates(table, d))
    ensures forall k :: 0 <= k < |top| ==>
              exists t :: t in table && Evaluate(t, d) == Some(top[k]) && top[k].name == t.root + " " + t.chordType
  {
    forall k | 0 <= k < |top|
      ensures exists t :: t in table && Evaluate(t, d) == Some(top[k]) && top[k].name == t.root + " " + t.chordType
    {
      assert top[k] in multiset(top);
      assert top[k] in multiset(Candidates(table, d));
      CandidateOrigin(table, d, top[k]);
    }
  }

  // ---------------------------------------------------------------------
  // Properties of the scoring rules

  /** Every candidate comes from one table template. */
  lemma {:induction false} CandidateOrigin(table: seq<Template>, d: set<string>, c: Candidate)
    requires c in Candidates(table, d)
    ensures exists t :: t in table && Evaluate(t, d) == Some(c) && c.name == t.root + " " + t.chordType
  {
    var init := table[..|table| - 1];
    var e := Evaluate(table[|table| - 1], d);
    if c in Candidates(init, d) {
      CandidateOrigin(init, d, c);
      var t :| t in init && Evaluate(t, d) == Some(c) && c.name == t.root + " " + t.chordType;
      assert t in table;
    } else {
      assert e == Some(c);
    }
  }

  /** The equal-score candidates among the top four are the first ones of
      that score in table order: ties keep template order. */
  lemma TopTiesKeepTableOrder(table: seq<Template>, d: set<string>, v: real)
    ensures WithScore(Take(SortByScoreDesc(Candidates(table, d)), 4), v) <= WithScore(Candidates(table, d), v)
  {
    var cands := Candidates(table, d);
    var sorted := SortByScoreDesc(cands);
    var top := Take(sorted, 4);
    SortByScoreDescCorrect(cands);
    assert WithScore(sorted, v) == WithScore(cands, v);
    assert sorted == top + sorted[|top|..];
    WithScoreAppend(top, sorted[|top|..], v);
  }

  lemma {:induction false} NoteSetMembers(notes: seq<NoteInfo>, x: string)
    ensures x in NoteSet(notes) <==> exists i :: 0 <= i < |notes| && notes[i].note == x
  {
    if notes != [] {
      var init := notes[..|notes| - 1];
      NoteSetMembers(init, x);
      if x in NoteSet(init) {
        var i :| 0 <= i < |init| && init[i].note == x;
        assert notes[i].note == x;
      }
      if exists i :: 0 <= i < |notes| && notes[i].note == x {
        var i :| 0 <= i < |notes| && notes[i].note == x;
        if i < |notes| - 1 {
          assert init[i].note == x;
        }
      }
    }
  }

  /** The `all_matched` flag agrees with the subset test of the power-chord
      gate. */
  lemma AllPresentIffSubset(notes: seq<NoteInfo>, d: set<string>)
    ensures AllPresent(notes, d) <==> NoteSet(notes) <= d
  {
    forall x ensures x in NoteSet(notes) <==> exists i :: 0 <= i < |notes| && notes[i].note == x {
      NoteSetMembers(notes, x);
    }
  }

  /** Every note matches exactly when the matched count is the template
      size. */
  lemma {:induction false} AllPresentIffFullCount(notes: seq<NoteInfo>, d: set<string>)
    ensures MatchedCount(notes, d) <= |notes|
    ensures AllPresent(notes, d) <==> MatchedCount(notes, d) == |notes|
  {
    if notes != [] {
      var init := notes[..|notes| - 1];
      AllPresentIffFullCount(init, d);
      assert forall i :: 0 <= i < |init| ==> init[i] == notes[i];
    }
  }

  /** With non-negative weights the matched weight lies between 0 and the
      total weight. */
  lemma {:induction false} MatchedWeightBounds(notes: seq<NoteInfo>, d: set<string>)
    requires forall i :: 0 <= i < |notes| ==> Weight(notes[i]) >= 0.0
    ensures 0.0 <= MatchedWeight(notes, d) <= TotalWeight(notes)
  {
    if notes != [] {
      var init := notes[..|notes| - 1];
      assert forall i :: 0 <= i < |init| ==> init[i] == notes[i];
      MatchedWeightBounds(init, d);
    }
  }

  /** The root bonus adds 0.12/total weight to the ratio, and only then. */
  lemma RootBonusContribution(t: Template, d: set<string>)
    requires TotalWeight(t.notes) != 0.0
    ensures MatchScore(t, d) == MatchedWeight(t.notes, d) / TotalWeight(t.notes) +
                                 (if RootMatched(t, d) then ROOT_BONUS / TotalWeight(t.notes) else 0.0)
  {
  }

  /** With non-negative weights the base ratio lies in [0, 1 + 0.12/total]. */
  lemma MatchScoreBounds(t: Template, d: set<string>)
    requires forall i :: 0 <= i < |t.notes| ==> Weight(t.notes[i]) >= 0.0
    requires TotalWeight(t.notes) != 0.0
    ensures 0.0 <= MatchScore(t, d) <= 1.0 + ROOT_BONUS / TotalWeight(t.notes)
  {
    MatchedWeightBounds(t.notes, d);
    RootBonusContribution(t, d);
    var w, tw := MatchedWeight(t.notes, d), TotalWeight(t.notes);
    assert tw > 0.0;
    RatioInUnit(w, tw);
  }

  /** sus2/sus4/7sus4/dim/dim7/aug survive exactly with three or more
      matches and gain 0.1 at exactly three, 0.03 above. */
  lemma SusDimAugGate(t: Template, d: set<string>)
    requires t.chordType in SUS_DIM_AUG
    ensures Evaluate(t, d).Some? <==> TotalWeight(t.notes) != 0.0 && MatchedCount(t.notes, d) >= 3
    ensures Evaluate(t, d).Some? ==>
              Evaluate(t, d).value.score ==
                MatchScore(t, d) + (if MatchedCount(t.notes, d) == 3 then EXACT_THREE_BONUS else MORE_THAN_THREE_BONUS)
                + (if MatchedCount(t.notes, d) == |t.notes| then ALL_MATCHED_BONUS else 0.0)
  {
    AllPresentIffFullCount(t.notes, d);
  }

  /** A power chord survives exactly when all (at least two) of its notes
      are present, and then it always gets the all-matched bonus on top of
      the penalty: a net +0.2. */
  lemma PowerChordGate(t: Template, d: set<string>)
    requires t.chordType == "5"
    ensures Evaluate(t, d).Some? <==>
              TotalWeight(t.notes) != 0.0 && |t.notes| >= 2 && AllPresent(t.notes, d)
    ensures Evaluate(t, d).Some? ==>
              Evaluate(t, d).value.score == MatchScore(t, d) - POWER_CHORD_PENALTY + ALL_MATCHED_BONUS
  {
    AllPresentIffSubset(t.notes, d);
    AllPresentIffFullCount(t.notes, d);
    assert "5" !in SUS_DIM_AUG;
  }

  /** Every other type needs two matches and, if it has a note with role
      "third", that note (the first such) must have been detected unless its
      name is empty. A surviving chord scores the base ratio, plus 0.3 when
      every note matched. */
  lemma ThirdGate(t: Template, d: set<string>)
    requires t.chordType !in SUS_DIM_AUG && t.chordType != "5"
    ensures Evaluate(t, d).Some? <==>
              && TotalWeight(t.notes) != 0.0
              && MatchedCount(t.notes, d) >= 2
              && (ThirdNote(t.notes).None? || ThirdNote(t.notes).value == "" || ThirdNote(t.notes).value in d)
    ensures Evaluate(t, d).Some? ==>
              Evaluate(t, d).value.score ==
                MatchScore(t, d) + (if MatchedCount(t.notes, d) == |t.notes| then ALL_MATCHED_BONUS else 0.0)
    ensures Evaluate(t, d).Some? ==> MatchedCount(t.notes, d) >= 2
    ensures (exists i :: 0 <= i < |t.notes| && t.notes[i].role == Some("third") && t.notes[i].note != "" &&
              t.notes[i].note !in d &&
              forall j :: 0 <= j < i ==> t.notes[j].role != Some("third"))
            ==> Evaluate(t, d).None?
  {
    AllPresentIffFullCount(t.notes, d);
    if exists i :: 0 <= i < |t.notes| && t.notes[i].role == Some("third") && t.notes[i].note != "" &&
                   t.notes[i].note !in d && forall j :: 0 <= j < i ==> t.notes[j].role != Some("third") {
      var i :| 0 <= i < |t.notes| && t.notes[i].role == Some("third") && t.notes[i].note != "" &&
               t.notes[i].note !in d && forall j :: 0 <= j < i ==> t.notes[j].role != Some("third");
      FirstThird(t.notes, i);
    }
  }

  lemma {:induction false} FirstThird(notes: seq<NoteInfo>, i: int)
    requires 0 <= i < |notes| && notes[i].role == Some("third")
    requires forall j :: 0 <= j < i ==> notes[j].role != Some("third")
    ensures ThirdNote(notes) == Some(notes[i].note)
  {
    if i > 0 {
      FirstThird(notes[1..], i - 1);
    }
  }
}
