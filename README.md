# Guitar practice back-end: the music-analysis core in Dafny

The back-end listens to a guitar and compares and describes scores. This
project models the arithmetic that runs once a spectrum has been computed or
a file has been parsed, and proves what that arithmetic promises.

- **Chord recognition** (`chord_audio/chord_detector.py`). The stream
  callback keeps a rolling sample window. After the FFT, the magnitude
  spectrum is cut below 62 Hz and gated per octave band against 0.2 of the
  band's RMS. Up to six peaks above 0.3 of the maximum and above 50 Hz are
  named by pitch class. A four-frame history yields the notes seen in at
  least two frames. `detect_top4_chords` then scores every chord template
  (weighted match ratio, root bonus, per-family gates) and keeps the four
  best after a stable sort.
- **Tuner** (`tuner_audio/audio_analyzer.py`, `tuner_audio/threading_helper.py`,
  `function/tuner.py`). The analyzer loop shifts a sample buffer, applies a
  three-fold Harmonic Product Spectrum (HPS) in place, cuts the bins below
  60 Hz, and puts the arg-max frequency, rounded to two decimals, on a
  bounded FIFO of capacity 8. The tuner takes values from the FIFO, drops
  those below 50 Hz and reports the mean of the last three.
- **Score comparison** (`function/compare.py`, `function/compare_detail.py`).
  Jaccard similarity on the sets of features, pitch quantisation
  `round(m / t) * t`, the weighted 0.5/0.3/0.2 combination rounded to three
  decimals, the clamped mismatch score and the ordered list of differences.
- **Naming rules** (`function/convert.py`, `function/xml_info.py`). Choosing
  a free upload name (`name.mp3`, then `name_1.mp3`, `name_2.mp3`, …), listing
  the `.mp3` files, the tempo of a score (first metronome mark, else 76), chord
  kind names, and the measure/offset to seconds formula.

Layout: one module per source file, plus `Common` (Python's `None` as
`Option`, and Python's `round`, which rounds halves to even) and `Ranking`
(the stable descending sort and `[:n]`). State that the source updates in
place is a `class` or an `array` in the model:

- `AudioAnalyzer.window_samples` and `note_history`;
- the tuner analyzer's buffer and spectrum;
- `ProtectedList.elements`;
- `Tuner.last_freqs`.

Each method is proved against a specification function, and the lemmas state
the properties of those functions. Floating-point values are modelled as
exact reals.

Where the system's design description and the code disagree, the model
follows the code:

- The chord path has no cumulative weighted note tally and no top-5 note
  selection. The stable notes go to chord matching unfiltered.
- There is no debouncer of chord changes. Each processed frame with stable
  notes sends its top four.
- The note history holds exactly four frames.

## Model

| member | source | states |
|---|---|---|
| Common.RoundHalfEven | function/compare.py:22 | Python `round`: the result is within 1/2 of the input, and an exact tie goes to the even neighbour |
| Common.RoundTo2 | tuner_audio/audio_analyzer.py:107 | `round(x, 2)` has at most two decimals (a whole number of hundredths) and is within 1/200 of `x` |
| Common.RoundTo3 | function/compare.py:68-73 | `round(x, 3)` has at most three decimals (a whole number of thousandths) and is within 1/2000 of `x` |
| Common.RoundShiftEven | tuner_audio/audio_analyzer.py:59 | rounding commutes with a shift by an even integer (so by 12) |
| ProtectedQueue.ProtectedList.constructor | tuner_audio/threading_helper.py:8-11 | a new queue is empty with the given capacity |
| ProtectedQueue.ProtectedList.Default | tuner_audio/threading_helper.py:8 | the default capacity is 8 |
| ProtectedQueue.ProtectedList.Put | tuner_audio/threading_helper.py:13-17 | the new contents are `Pushed(old, x)`: append, then drop the oldest beyond the capacity; the length bound is kept |
| ProtectedQueue.ProtectedList.Get | tuner_audio/threading_helper.py:19-23 | an empty queue gives `None` and stays empty; otherwise the oldest element is returned and removed |
| ProtectedQueue.PushedShape | tuner_audio/threading_helper.py:13-17 | after `put` the length is at most the capacity and the newest value is last; below capacity it is `old + [x]`, at capacity `old[1:] + [x]` |
| ProtectedQueue.PushedAllKeepsLatest | tuner_audio/threading_helper.py:13-17 | a series of puts into an empty queue leaves exactly the latest `buffer_size` values, in the order put |
| Ranking.Take | chord_audio/chord_detector.py:88 | `s[:n]` is the prefix of length `min(n, len(s))` |
| Ranking.SortByScoreDescCorrect | chord_audio/chord_detector.py:87 | the sort is a permutation of its input, in non-increasing score order, and keeps equal-score candidates in input order (stability) |
| Ranking.InsertStable | chord_audio/chord_detector.py:87 | one insertion step appends the new candidate behind all earlier candidates of the same score |
| Ranking.TopNBest | chord_audio/chord_detector.py:87-88 | the first `n` after sorting: at most `n`, best first, drawn from the input, and no left-out candidate scores above a kept one |
| Ranking.TakeKeepsBest | chord_audio/chord_detector.py:88 | cutting a sorted list keeps it sorted, and every dropped candidate scores at most as high as every kept one |
| ChordDetector.FindClosestNoteName | chord_audio/chord_detector.py:24-27 | the name is an entry of the 12-name table |
| ChordDetector.NoteNameOfSemitoneIndex | chord_audio/chord_detector.py:18-26 | for a whole semitone index `i` the name is `ALL_NOTES[i % 12]` |
| ChordDetector.NoteNameOctavePeriodic | chord_audio/chord_detector.py:25-26 | the name repeats every 12 semitones |
| ChordDetector.ConcertPitchIsA | chord_audio/chord_detector.py:18-26 | offsets 0, 12 and -12 from 440 Hz are all named "A" |
| ChordDetector.Weight | chord_audio/chord_detector.py:43 | a template entry's weight, 1.0 when it has none |
| ChordDetector.RootMatched | chord_audio/chord_detector.py:46-51 | the root bonus is earned when the root is one of the template's notes and was detected; it is added once however often the root appears |
| ChordDetector.MatchScore | chord_audio/chord_detector.py:41-58 | matched weight, plus 0.12 when the root matched, divided by the total weight |
| ChordDetector.GatedScore | chord_audio/chord_detector.py:60-81 | the per-type gate: sus/dim/aug types need three matches (+0.1 at exactly three, +0.03 above), "5" needs two matches and every note (−0.1), any other type needs two matches and its "third" detected when it has a non-empty one |
| ChordDetector.ThirdNote | chord_audio/chord_detector.py:77 | the note of the first template entry whose role is "third", or none when no entry has that role |
| ChordDetector.Evaluate | chord_audio/chord_detector.py:55-85 | a template of total weight 0 gives no candidate; a candidate is named `"<root> <type>"` |
| ChordDetector.Candidates | chord_audio/chord_detector.py:33-85 | one `("<root> <type>", score)` pair per surviving template, in table order |
| ChordDetector.ScoreTemplate | chord_audio/chord_detector.py:35-85 | the accumulator loop over one template computes exactly `Evaluate` |
| ChordDetector.DetectTop4Chords | chord_audio/chord_detector.py:29-88 | the result is the first four of the stable descending sort of all candidates, with the `Top4Correct` guarantees |
| ChordDetector.Top4Properties | chord_audio/chord_detector.py:84-88 | at most 4 pairs, non-increasing scores, each produced by a table template and named after it, and none left out scores above one kept |
| ChordDetector.TopFromTable | chord_audio/chord_detector.py:84-85 | every candidate kept from the candidate list was produced by some template of the table |
| ChordDetector.CandidateOrigin | chord_audio/chord_detector.py:33-85 | each candidate on the list comes from one template of the table |
| ChordDetector.TopTiesKeepTableOrder | chord_audio/chord_detector.py:87-88 | among the top four, the candidates of equal score appear in table order and are the first such candidates in the table |
| ChordDetector.NoteSetMembers | chord_audio/chord_detector.py:70 | `required_notes` holds exactly the template's note names |
| ChordDetector.AllPresentIffSubset | chord_audio/chord_detector.py:53-71 | the `all_matched` flag is true exactly when `required_notes` is a subset of the detected notes |
| ChordDetector.AllPresentIffFullCount | chord_audio/chord_detector.py:46-53 | the matched count never exceeds the number of entries, and equals it exactly when all entries match |
| ChordDetector.MatchedWeightBounds | chord_audio/chord_detector.py:43-47 | with non-negative weights the matched weight lies between 0 and the total weight |
| ChordDetector.RootBonusContribution | chord_audio/chord_detector.py:49-58 | the score is matched weight over total weight, plus 0.12 over total weight exactly when a matched entry is the root (so the bonus counts at most once) |
| ChordDetector.MatchScoreBounds | chord_audio/chord_detector.py:58 | with non-negative weights the ratio is in `[0, 1 + 0.12/total]` |
| ChordDetector.SusDimAugGate | chord_audio/chord_detector.py:60-82 | sus2/sus4/7sus4/dim/dim7/aug survive exactly with three or more matches, gaining 0.1 at three and 0.03 above (plus 0.3 when all matched) |
| ChordDetector.PowerChordGate | chord_audio/chord_detector.py:67-82 | a "5" survives exactly when it has at least two entries and all its notes are detected; it then scores ratio − 0.1 + 0.3 |
| ChordDetector.ThirdGate | chord_audio/chord_detector.py:74-83 | any other type survives exactly when its total weight is non-zero, it has two matches, and its first "third" note is absent, empty or detected; it then scores the ratio, plus 0.3 when every note matched |
| ChordDetector.FirstThird | chord_audio/chord_detector.py:77 | the `next(...)` lookup finds the first entry whose role is "third" |
| ChordAnalyzer.BinConstants | chord_audio/chord_detector.py:16-17 | the cut bin 18 and the band edges are the integer parts of 62 Hz and the octave frequencies over Δf = 48000/14400 |
| ChordAnalyzer.Shifted | chord_audio/chord_detector.py:111-112 | the window with the block appended and as many samples dropped from the front |
| ChordAnalyzer.ShiftedWindow | chord_audio/chord_detector.py:111-112 | the shift keeps the window length and yields `old[len(block):] + block` (only the block's tail when the block is longer) |
| ChordAnalyzer.CallbackKeepsWindowLength | chord_audio/chord_detector.py:111-112 | the window stays at 14400 samples |
| ChordAnalyzer.LowCutSpec | chord_audio/chord_detector.py:138-139 | the spectrum with bins 0 to 17 zeroed and the rest unchanged |
| ChordAnalyzer.LowCut | chord_audio/chord_detector.py:138-139 | in place, exactly bins `[0, 18)` become 0 and every other bin is unchanged |
| ChordAnalyzer.BandOf | chord_audio/chord_detector.py:142-144 | a bin lies in band `b` exactly when it is between that band's edges, and in none outside bins 15 to 7680 |
| ChordAnalyzer.BelowNoise | chord_audio/chord_detector.py:147-149 | `m < 0.2·sqrt(mean square)`, compared on squares: a negative magnitude is always below |
| ChordAnalyzer.GateBand | chord_audio/chord_detector.py:143-150 | one band: the mean square over the band as it stands, then every bin of the band below the noise level zeroed; an empty band is unchanged |
| ChordAnalyzer.GateUpTo | chord_audio/chord_detector.py:142-150 | the first `j` bands gated one after another, each band's end capped at the spectrum length |
| ChordAnalyzer.GateBandAt | chord_audio/chord_detector.py:148-150 | inside one band, a bin becomes 0 exactly when it is below 0.2 of the band's RMS |
| ChordAnalyzer.GateUpToLeavesHigherBins | chord_audio/chord_detector.py:142-150 | bands processed so far do not touch the bins of later bands |
| ChordAnalyzer.GateUpToLeavesLowBins | chord_audio/chord_detector.py:142-150 | bins below the first band are never touched |
| ChordAnalyzer.GateUpToKeepsDoneBand | chord_audio/chord_detector.py:142-150 | once a band is gated, the bands after it leave its bins alone |
| ChordAnalyzer.BandSeesInput | chord_audio/chord_detector.py:143-146 | each band's RMS is taken over the band's bins of the spectrum before gating |
| ChordAnalyzer.GateStepAt | chord_audio/chord_detector.py:146-150 | the value of a bin after its band's step, in terms of the spectrum before that step |
| ChordAnalyzer.GateEffectInBand | chord_audio/chord_detector.py:142-150 | after all bands, a bin of band `b` is 0 exactly when below 0.2 of that band's RMS on the input, and unchanged otherwise |
| ChordAnalyzer.GateEffect | chord_audio/chord_detector.py:140-150 | the whole gate zeroes exactly the in-band bins below their band's noise level; every other bin keeps its value |
| ChordAnalyzer.GateBands | chord_audio/chord_detector.py:142-150 | the nested in-place loops compute exactly the band-by-band gate |
| ChordAnalyzer.GateOneBand | chord_audio/chord_detector.py:143-150 | one band in place; an empty band changes nothing |
| ChordAnalyzer.SeqMax | chord_audio/chord_detector.py:152 | `np.max` is an element that bounds all others |
| ChordAnalyzer.Reverse | chord_audio/chord_detector.py:153 | `[::-1]` reverses the index list |
| ChordAnalyzer.ReversedArgsort | chord_audio/chord_detector.py:153 | the reversed argsort lists every bin exactly once, in non-increasing magnitude |
| ChordAnalyzer.AboveThresholdMembers | chord_audio/chord_detector.py:153 | the comprehension keeps exactly the listed bins above the threshold |
| ChordAnalyzer.AboveThresholdKeeps | chord_audio/chord_detector.py:153 | filtering keeps the list distinct and in non-increasing magnitude |
| ChordAnalyzer.AboveMinFreqMembers | chord_audio/chord_detector.py:155-158 | exactly the listed bins whose frequency is above 50 Hz are kept |
| ChordAnalyzer.AboveMinFreqKeeps | chord_audio/chord_detector.py:155-158 | the frequency filter keeps the list distinct and in non-increasing magnitude |
| ChordAnalyzer.AboveMinFreqAppend | chord_audio/chord_detector.py:155-158 | the frequency filter distributes over concatenation (the loop's invariant step) |
| ChordAnalyzer.FirstPeaks | chord_audio/chord_detector.py:159-160 | at most six, a prefix of the list, and the whole list when it is short |
| ChordAnalyzer.EnoughPeaks | chord_audio/chord_detector.py:159-160 | once six bins qualify, the rest of the index list does not change the result (the `break`) |
| ChordAnalyzer.CollectPeakFreqs | chord_audio/chord_detector.py:154-160 | the loop with `break` returns the frequencies of the first six qualifying bins |
| ChordAnalyzer.SelectPeaks | chord_audio/chord_detector.py:152-160 | peak picking returns the frequencies of `PeakBins` |
| ChordAnalyzer.StrongBinsProperties | chord_audio/chord_detector.py:152-153 | the strong bins are exactly the bins above 0.3 of the maximum, each once, in non-increasing magnitude |
| ChordAnalyzer.PeakBinsProperties | chord_audio/chord_detector.py:152-161 | at most six distinct bins, each above 0.3 of the maximum and above 50 Hz, in non-increasing magnitude; with fewer than six, no qualifying bin was left out |
| ChordAnalyzer.PeakBinsStrongest | chord_audio/chord_detector.py:152-161 | a bin above 0.3 of the maximum and above 50 Hz that was not reported is no stronger than any reported bin: the six reported are the strongest qualifying ones |
| ChordAnalyzer.PrefixDominates | chord_audio/chord_detector.py:153-161 | in a list in descending magnitude, an entry past the kept prefix is no stronger than any kept entry (the `break` keeps the strongest) |
| ChordAnalyzer.DetectedNotes | chord_audio/chord_detector.py:162 | the set of nearest note names of the peak frequencies |
| ChordAnalyzer.OccurringNotesAreListed | chord_audio/chord_detector.py:171-172 | a note counted in some frame is among the flattened notes |
| ChordAnalyzer.Occurrences | chord_audio/chord_detector.py:171-172 | the number of retained frames holding the note, which is `all_notes.count(note)` since a frame holds a note at most once |
| ChordAnalyzer.StableNotes | chord_audio/chord_detector.py:171-173 | a note is stable exactly when it occurs in at least two retained frames |
| ChordAnalyzer.PushFrame | chord_audio/chord_detector.py:167-169 | the frame appended, and the oldest frame dropped beyond four |
| ChordAnalyzer.PushFrameBounded | chord_audio/chord_detector.py:167-169 | the history never exceeds four frames, the new frame is last, and a full history drops exactly its oldest frame |
| ChordAnalyzer.Names | chord_audio/chord_detector.py:179 | the names of the top candidates, in order |
| ChordAnalyzer.ListOfSet | chord_audio/chord_detector.py:162 | `list(set(...))` holds exactly the set's elements |
| ChordAnalyzer.AudioAnalyzer.constructor | chord_audio/chord_detector.py:92-96 | a zero window of 14400 samples, an empty history, not running |
| ChordAnalyzer.AudioAnalyzer.Stop | chord_audio/chord_detector.py:99-100 | the analyzer is no longer running |
| ChordAnalyzer.AudioAnalyzer.Callback | chord_audio/chord_detector.py:102-117 | a block is taken, and analysis scheduled, exactly when running, with no status and some non-zero sample; the window is then shifted, otherwise unchanged |
| ChordAnalyzer.AudioAnalyzer.RecordFrame | chord_audio/chord_detector.py:164-173 | a frame of at most one note leaves the history untouched; otherwise it is pushed (oldest evicted beyond four) and the stable notes are returned |
| ChordAnalyzer.AudioAnalyzer.ProcessAudio | chord_audio/chord_detector.py:119-190 | below the power threshold: "listening", nothing changed; otherwise the spectrum is cut and gated in place, the frame recorded, and the top four names and primary are reported when there are stable notes and candidates |
| TunerAnalyzer.FrequencyToNumber | tuner_audio/audio_analyzer.py:45-47 | a zero frequency gives note number 0 instead of a logarithm of 0 |
| TunerAnalyzer.OctaveAddsTwelve | tuner_audio/audio_analyzer.py:48 | with a logarithm for which doubling adds 1, a frequency an octave up has a note number 12 higher |
| TunerAnalyzer.NumberToNoteName | tuner_audio/audio_analyzer.py:56-59 | the result is one of the twelve names |
| TunerAnalyzer.NearestNoteName | tuner_audio/audio_analyzer.py:56-59 | a number strictly within 1/2 of the whole number `k` is named `NOTE_NAMES[k % 12]`: the name of the nearest note |
| TunerAnalyzer.FrequencyToNoteName | tuner_audio/audio_analyzer.py:62-65 | the result is one of the twelve names |
| TunerAnalyzer.OctaveSameName | tuner_audio/audio_analyzer.py:62-65 | a positive frequency and the frequency an octave above get the same name |
| TunerAnalyzer.NamedNumbers | tuner_audio/audio_analyzer.py:57-59 | 69 is "A" and 60 is "C" |
| TunerAnalyzer.NoteNamePeriodic | tuner_audio/audio_analyzer.py:59 | the name of `n + 12k` is the name of `n` |
| TunerAnalyzer.ConcertPitchName | tuner_audio/audio_analyzer.py:44-65 | 440 Hz is number 69, named "A"; a zero frequency gives number 0, named "C" |
| TunerAnalyzer.BufferAfterShape | tuner_audio/audio_analyzer.py:78-79 | the shift keeps the buffer length, its head is `old[CHUNK:]`, and a full block gives `old[CHUNK:] + data` |
| TunerAnalyzer.AcceptedBlock | tuner_audio/audio_analyzer.py:78-79 | the blocks the slice assignment accepts: exactly CHUNK samples, or one sample that numpy broadcasts |
| TunerAnalyzer.AudioAnalyzer.constructor | tuner_audio/audio_analyzer.py:20-25 | a zero buffer of 1024·50 samples, the given queue, not running |
| TunerAnalyzer.AudioAnalyzer.ShiftIn | tuner_audio/audio_analyzer.py:78-79 | in place: the buffer becomes `BufferAfter(old, data)`; the block is accepted exactly when it has 1024 samples or one |
| TunerAnalyzer.CeilDivBins | tuner_audio/audio_analyzer.py:94-95 | `orig[::i]` reaches bin `k` exactly when `k·i < n`, and its length is at most `n` |
| TunerAnalyzer.CeilDivIsCeiling | tuner_audio/audio_analyzer.py:94 | the integer form is the ceiling of `n / i` |
| TunerAnalyzer.HpsBins | tuner_audio/audio_analyzer.py:92-95 | after the HPS, bin `k` is `orig[k]·orig[2k]·orig[3k]`, a factor being left out where its index passes the end |
| TunerAnalyzer.HpsStep | tuner_audio/audio_analyzer.py:95 | a round multiplies a bin in range by the pre-HPS copy's bin `k·i` |
| TunerAnalyzer.Hps | tuner_audio/audio_analyzer.py:92-95 | the in-place loop computes `HpsSpec`, every round reading the pre-HPS copy |
| TunerAnalyzer.HpsRound | tuner_audio/audio_analyzer.py:94-95 | one in-place round, from the previous round's spectrum |
| TunerAnalyzer.FirstAboveCut | tuner_audio/audio_analyzer.py:101-102 | the first index whose frequency is above 60 Hz, or none |
| TunerAnalyzer.FirstAboveIsFirst | tuner_audio/audio_analyzer.py:101-102 | an index above 60 Hz preceded only by indices at or below it is the one found |
| TunerAnalyzer.SliceStop | tuner_audio/audio_analyzer.py:103 | the stop of a Python slice `[:e]`, negative stops counting from the end |
| TunerAnalyzer.CutKeepsBinBeforeCut | tuner_audio/audio_analyzer.py:101-104 | with `i` the first bin above 60 Hz, bins `[0, i-1)` are zeroed and bin `i-1` is kept; with `i == 0` all but the last bin are zeroed |
| TunerAnalyzer.LowCut | tuner_audio/audio_analyzer.py:101-104 | the in-place cut computes `CutSpec` |
| TunerAnalyzer.ArgMaxSpec | tuner_audio/audio_analyzer.py:107 | `np.argmax`: an index holding the maximum, before which every value is smaller |
| TunerAnalyzer.ArgMax | tuner_audio/audio_analyzer.py:107 | the loop finds `ArgMaxSpec`; none for an empty spectrum |
| TunerAnalyzer.AudioAnalyzer.Step | tuner_audio/audio_analyzer.py:74-107 | a rejected block ends the iteration after the first shift; otherwise HPS and cut in place, and the rounded frequency of the arg-max is put on the queue |
| Tuner.Mean | function/tuner.py:73 | `np.mean`: the sum over the count, for a non-empty window |
| Tuner.MeanBounds | function/tuner.py:73 | the mean lies between any lower and upper bound of the values |
| Tuner.Rolled | function/tuner.py:69-71 | the frequency appended, and the oldest value dropped beyond three |
| Tuner.RolledShape | function/tuner.py:69-71 | at most three values, the newest last; a full window drops exactly its oldest value |
| Tuner.RolledMeanBounds | function/tuner.py:66-73 | the rolled window keeps only values of at least 50, and its mean is at least 50 and between its minimum and maximum |
| Tuner.Tuner.constructor | function/tuner.py:19-23 | an empty window and a fresh empty queue of capacity 8 |
| Tuner.Tuner.GetStableFrequency | function/tuner.py:64-73 | below 50: `None`, window unchanged; otherwise the window is rolled and its mean returned, at least 50 and between the window's minimum and maximum |
| Tuner.Tuner.Step | function/tuner.py:92-96 | an empty queue or a zero value is skipped with the window unchanged; otherwise the frequency is filtered and, if stable, reported with its note name |
| Compare.Similarity | function/compare.py:49-54 | `len(A ∩ B) / len(A ∪ B)` over the element sets of the two lists, and 0 when both are empty |
| Compare.IntersectionWithinUnion | function/compare.py:52-54 | the intersection is no larger than the union, and as large only when the sets are equal |
| Compare.SimilarityBounds | function/compare.py:49-54 | the similarity is in `[0, 1]` and symmetric |
| Compare.SimilarityOne | function/compare.py:49-54 | the similarity is 1 exactly when both lists have the same non-empty set of elements |
| Compare.SimilarityIgnoresOrder | function/compare.py:51 | lists with the same elements have the same similarity to any list |
| Compare.Quantize | function/compare.py:22 | `round(m / t) * t` with Python's half-even `round`, for a non-zero tolerance |
| Compare.QuantizeProperties | function/compare.py:22 | `round(m/t)·t` is a multiple of `t`, within `t/2` of `m` when `t > 0`, and `m` itself when `t = 1` |
| Compare.NormalizeOne | function/compare.py:20-24 | one note: its MIDI number quantised when it parses and the tolerance is non-zero, otherwise (the bare `except`, which also catches the division by zero) the note's own text |
| Compare.NormalizePitches | function/compare.py:16-25 | one entry per note, in order: quantised when the note parses and `t ≠ 0`, otherwise the note's text |
| Compare.NormalizeUnitTolerance | function/compare.py:22 | with tolerance 1 a parsed note becomes its own MIDI number |
| Compare.FinalSimilarity | function/compare.py:66 | `0.5·pitch + 0.3·rhythm + 0.2·intervals` |
| Compare.FinalSimilarityBounds | function/compare.py:66 | the weighted combination of three scores in `[0, 1]` is in `[0, 1]`, and 1 exactly when all three are 1 |
| Compare.RoundTo3Unit | function/compare.py:68-73 | three-decimal rounding keeps a score in `[0, 1]` |
| Compare.CompareFeatures | function/compare.py:62-73 | the three similarities of the note, rhythm and interval lists and their weighted combination, each rounded to three decimals |
| Compare.CompareFeaturesProperties | function/compare.py:56-73 | the four reported numbers are in `[0, 1]`, the final one within 0.0005 of the exact combination, and swapping the files changes nothing |
| CompareDetail.Mismatches | function/compare_detail.py:170-172 | the number of mismatches is at most the number of positions compared |
| CompareDetail.ClampedScore | function/compare_detail.py:173-174 | the score is in `[0, 1]`, and 1 exactly when nothing mismatches |
| CompareDetail.CompareSequences | function/compare_detail.py:167-174 | the loop computes the clamped score of the mismatches over the common length |
| CompareDetail.ScoreIgnoresTail | function/compare_detail.py:168 | positions past the shorter sequence do not affect the score |
| CompareDetail.NoMismatchesWhenEqual | function/compare_detail.py:170-172 | equal values never count as mismatches when the tolerance is non-negative |
| CompareDetail.GetDifferences | function/compare_detail.py:177-202 | the loop builds exactly `Differences` over the common length |
| CompareDetail.DifferencesIgnoreTail | function/compare_detail.py:178 | positions past the shorter sequence do not affect the difference list |
| CompareDetail.TimeIsHalfIndex | function/compare_detail.py:200 | the time of position `i` is exactly `i/2` |
| CompareDetail.DifferencesCount | function/compare_detail.py:180-201 | there are as many records as mismatches |
| CompareDetail.DifferenceSound | function/compare_detail.py:180-201 | every record belongs to a differing position below the common length and is numbered one past it |
| CompareDetail.DifferencesOrdered | function/compare_detail.py:180-201 | the records are numbered in increasing order |
| CompareDetail.DifferencesComplete | function/compare_detail.py:180-201 | every differing position has its record |
| CompareDetail.ScoreCountsDifferences | function/compare_detail.py:167-202 | the score is the clamped count of the records |
| CompareDetail.EqualPrefixPerfect | function/compare_detail.py:170-181 | sequences equal on the common prefix score 1.0 and have no differences |
| CompareDetail.OtherLabelsPlain | function/compare_detail.py:182-193 | for labels other than "pitch" and "rhythm" the values are reported unchanged |
| Convert.InitialName | function/convert.py:28 | the name ends in ".mp3"; it is the upload's name if that already does, otherwise that name plus ".mp3" |
| Convert.LastIndexOf | function/convert.py:33 | the index found holds the character, or is -1 |
| Convert.LastIndexPin | function/convert.py:33 | a position holding the character with no later occurrence is exactly what LastIndexOf returns, so it finds the last one, as `rfind` |
| Convert.SplitExt | function/convert.py:33 | `splitext` cuts the path in two pieces that concatenate back to it |
| Convert.SplitExtOfExtension | function/convert.py:33 | a stem with a non-dot in its file part followed by a one-dot extension splits into exactly those two |
| Convert.NatToStringInjective | function/convert.py:35 | different counters give different numerals |
| Convert.Candidate | function/convert.py:35 | `f"{base_name}_{counter}{ext}"` |
| Convert.CandidatesDistinct | function/convert.py:35 | candidate names for different counters differ, and none is the plain `base + ext` |
| Convert.CandidatesOfMp3Name | function/convert.py:33-35 | for a stored `stem.mp3` the candidates are `stem_k.mp3` |
| Convert.UploadName | function/convert.py:28-37 | the chosen name is not in use; it is the initial name when that is free, otherwise `base_k ext` for the least free `k ≥ 1`, with `k` at most the number of existing names (so the loop ends) |
| Convert.GetSongs | function/convert.py:20-23 | the listing's names ending in ".mp3", in listing order, each as a song titled by its name with artist "Unknown" and difficulty "Custom" |
| Convert.GetSongsAppend | function/convert.py:21-22 | listing order is kept |
| Convert.GetSongsExact | function/convert.py:21-22 | exactly the ".mp3" entries become songs, titled by their file name, by "Unknown", of difficulty "Custom" |
| XmlInfo.FirstBpm | function/xml_info.py:18-22 | the tempo is never zero |
| XmlInfo.FirstBpmCharacterised | function/xml_info.py:18-22 | 76 when no metronome mark has a non-zero number; otherwise the number of the first such mark |
| XmlInfo.FindBpm | function/xml_info.py:18-22 | the loop with `break` finds `FirstBpm` |
| XmlInfo.KindName | function/xml_info.py:53 | `kind_map.get(kind, kind)` |
| XmlInfo.KindNames | function/xml_info.py:26-53 | both dominant spellings read "7", "power" and "fifth" read "5", "suspended-fourth" reads "sus4", and unknown kinds pass through |
| XmlInfo.Strip | function/xml_info.py:54 | `str.strip()`: the part between the leading and the trailing whitespace |
| XmlInfo.StripSpec | function/xml_info.py:54 | `strip()` returns the piece of the string between its leading and trailing whitespace, with neither at its ends |
| XmlInfo.StripClean | function/xml_info.py:54 | a string without whitespace at its ends is its own stripped form |
| XmlInfo.StripTrailing | function/xml_info.py:54 | a trailing whitespace character is dropped |
| XmlInfo.SevenSusFourUnreachable | function/xml_info.py:47-51 | the 7sus4 branch is never taken, so the name is always the mapped, stripped one |
| XmlInfo.ChordName | function/xml_info.py:46-54 | the root name, or "Unknown", a space and the mapped kind, stripped |
| XmlInfo.ChordNames | function/xml_info.py:46-54 | a known kind gives `root + " " + short kind`, an empty kind gives the root alone, and with no root a known kind gives `"Unknown " + short kind` |
| XmlInfo.StartTime | function/xml_info.py:57-60 | `((measure − 1)·4 + offset)·(60 / bpm)` |
| XmlInfo.StartTimeProperties | function/xml_info.py:57-60 | measure 1 beat 0 starts at 0; one beat adds `60/bpm`, one measure `240/bpm`; a later measure starts later |
| XmlInfo.EntryOf | function/xml_info.py:62-65 | one response entry: the chord name and the start time rounded to two decimals |
| XmlInfo.ChordsMatchSymbols | function/xml_info.py:43-65 | one entry per chord symbol, in walk order: the entry of the `i`-th element is at the count of chord symbols before it |
| XmlInfo.ChordsLength | function/xml_info.py:62-65 | there are as many entries as chord symbols |
| XmlInfo.CollectChords | function/xml_info.py:42-65 | the loop builds exactly `Chords` |
| XmlInfo.GetChordTiming | function/xml_info.py:17-67 | the tempo is `FirstBpm` and the chords are the entries of all chord symbols at that tempo |

## Left out

- The FFT, Hann window, zero padding, `np.linalg.norm`, `log2` and `sqrt`. Spectra, frequency grids, the semitone offset of a pitch and `log2` are inputs. The band RMS test is compared on squares, which is the same for non-negative magnitudes.
- `number_to_frequency` (tuner_audio/audio_analyzer.py:51-54): nothing in the modelled core calls it.
- Audio devices and threads: `sounddevice`/`PyAudio` streams, `Thread`, `time.sleep`, `start`/`stop`/`run` loops and the lock of `ProtectedList`. The queue is modelled sequentially.
- Delivery: websocket `send_json`, client sets, `asyncio` scheduling and printing. `ProcessAudio` returns the report it would send, and `Callback` returns whether it schedules the analysis.
- `chord_notes.json` loading: the template table is a constructor parameter.
- music21 parsing, `extract_*`, `Pitch(...).nameWithOctave` and `interval.Interval`: features, MIDI numbers and score elements are given; the pitch name of a MIDI number is a parameter.
- `function/chordprac.py`, `function/db.py`, `function/db_run.py`, `function/record.py`, `function/music_record.py`, `function/mxlConverter.py`, `compare_midi.py` and `main.py`: web, database, subprocess and routing code outside the analysis core.
- The Klangio calls, `delete_song`, `get_song_file`, the file copy and `os.path.join` in `function/convert.py`. The upload directory is the set of names it holds.
- Floating point: values are exact reals, so binary rounding error is not modelled.
- argsort tie order: numpy's order among equal magnitudes is unspecified, so the model takes any ascending argsort as an input.
- Common.RoundTo2: rounds the exact real, not the binary float Python rounds, so outputs may differ in ties that binary floats cannot represent.
- Common.RoundTo3: the same as RoundTo2, at three decimals.
- CompareDetail.GetDifferences: the rhythm values are `Seconds(v)`, not the formatted `"{v:.2f}초"` string.
- XmlInfo.StripSpec: whitespace is the ten ASCII characters Python's `str.isspace` accepts (tab, line feed, vertical tab, form feed, carriage return, U+001C to U+001F and space); the non-ASCII spaces Python's `strip` also removes (such as U+0085, U+00A0 and U+3000) are not whitespace in the model.
- XmlInfo.GetChordTiming: the HTTP 404 response for a missing score file and the HTTP 500 response for any exception while parsing (for example a chord symbol without a measure number, which makes the start-time arithmetic fail on None) are left out; the model takes a parsed score whose chord symbols all have a measure number.
- TunerAnalyzer.FrequencyToNumber: the message written to stderr for a zero frequency is left out.
- Tuner.Tuner.Step: the `if stable_freq:` test can never fail after the floor filter, since the mean is at least 50; the model keeps the test.
- ChordAnalyzer.GateOneBand: an empty band would divide by zero in Python (a NaN average that no bin is below); the model leaves the band unchanged, which is the same outcome.
- TunerAnalyzer.AudioAnalyzer.Step: the exception handler's stderr message is left out; a block of another length ends the iteration after the first half of the shift, as in the source.
