# Guitar tabs: pitches, tab parsing, chords, fretboard and layout in Dafny

This project models the logic core of an Obsidian plugin that renders guitar
tablature and chord diagrams. It covers five parts:

- **Pitch, interval and tuning tables** (`Pitches`, `Intervals`, `Tunings`).
  - MIDI number ↔ note name through the 24-entry sharp/flat table; note names are parsed as `[A-G][b#]?` followed by optional octave digits.
  - Semitone count ↔ interval name, with the `bb7` fallback.
  - The standard, drop-D and ukulele tunings as MIDI data.
- **The tab parser** (`Parsing`). A line-by-line state machine over
  `{tuning, capo, duration}`:
  - `TUNING: `, `CAPO: ` and `DURATION: ` lines update the state;
  - blank lines open a new measure;
  - every other line is a beat, whose tokens map to strings by position;
  - measures without beats are dropped at the end.

  The parser is a method (`ParseTab`) with a loop. It is proved equal to a
  fold (`ParseLines`) of a one-line step (`StepLine`), and the properties are
  proved about that fold.
- **Chord detection** (`Chords`). The sounding pitches are deduplicated by
  MIDI number and sorted. Each one is tried as root, in ascending order, and
  its mod-12 offset signature is looked up in a chord table. `collectChords`
  is a nested loop, proved equal to its specification.
- **Fretboard utilities and the chord diagram** (`FretUtils`, `ChordDiagram`).
  - Standard-tuning test.
  - Fretted range (a min/max loop).
  - Barre detection (a loop over the notes).
  - The diagram's fret window, nut, marks and barre row, without the SVG.
- **Layout** (`Layout`).
  - Beam classification within a beat group.
  - Placement of measures and events along one staff with a running x, where `LayoutTrack` is a loop method proved equal to `LayoutTrackSpec`.
  - Staff lines and note heights.
  - Widths are exact rationals (`real`).

Supporting modules:
- `Wrappers`: Option and Result.
- `MusicTypes`: the records of `src/music/types.ts`.
- `JsBuiltins`: the JavaScript string and number operations the code relies on: `trim`, ASCII `toUpperCase`, `split`, `parseInt`, number-to-string, the truncating `%`, and `indexOf`.
- `Collections`: the `sortBy` and `uniqBy` of the utility library.

Representation choices:
- The parser builds beats with a bare duration number. The rest of the code reads `events` with a `Duration` record. The model has one representation: `Event(Duration(value, dotted, tuplet := None), notes)`. A beat's `dotted: true | undefined` becomes a `bool`.
- `STANDARD_TIME_SIGNATURE` is the tuple `[4, 4]`. The `TimeSignature` type is a record, so the model uses `TimeSignature(4, 4)`.
- The chord table (`./chord-map`) is not part of this model. It is a `map<string, string>` parameter.
- `durationToUnits` and `groupEventsByBeat` are imported by the layout code but their source is not part of this model. They are function parameters (`Units`, `Grouping`), and the layout properties are stated relative to their results.

Where a prose description and the code disagree, the model follows the code:
- `getPitch(m)` does not throw for every negative `m`. JavaScript's `%` truncates, so `m % 12` is `-0` when 12 divides `m`, and `NOTE_NAMES[-0]` is `"C"`. For example, `getPitch(-12)` is `{midi: -12, name: "C"}` (`Pitches.PitchFromMidi`, `Pitches.PitchFromMidiExamples`).
- Likewise, `getInterval(-24)` is `"1"`.
- `parseNote` can throw, through `getPitch` on a negative MIDI number, and that aborts the parse. The model returns an error there (`Parsing.ParseNote`).

## Model

| member | source | states |
|---|---|---|
| JsBuiltins.ToUpper | src/parsing.ts:73 | upper-casing keeps the length and leaves no lower-case ASCII letter; each lower-case letter becomes its capital and every other character is unchanged |
| JsBuiltins.Trim | src/parsing.ts:41 | the trimmed line neither starts nor ends with whitespace |
| JsBuiltins.TrimStart | src/parsing.ts:41 | only leading whitespace is removed, and the rest starts with a non-space |
| JsBuiltins.TrimEnd | src/parsing.ts:41 | only trailing whitespace is removed, and the rest ends with a non-space |
| JsBuiltins.FindFrom | src/parsing.ts:77 | the result is the first occurrence of the pattern at or after the start, or none when there is none |
| JsBuiltins.RemoveFirstOfPrefix | src/parsing.ts:77 | replacing the first occurrence of a prefix removes exactly that prefix |
| JsBuiltins.KeepWordChars | src/parsing.ts:78 | the result holds only word characters |
| JsBuiltins.KeepWordCharsOne | src/parsing.ts:78 | a single character is kept exactly when it is a word character |
| JsBuiltins.KeepWordCharsAppend | src/parsing.ts:78 | removing non-word characters distributes over concatenation, so the kept characters stay in order |
| JsBuiltins.SplitJoin | src/parsing.ts:40 | splitting on a separator and joining with it gives the input back, and no part holds the separator |
| JsBuiltins.SplitOfJoin | src/parsing.ts:40 | splitting a join of separator-free parts gives the parts back |
| JsBuiltins.SplitWhitespaceOfJoin | src/parsing.ts:85 | splitting a space-joined list of non-empty, space-free tokens on whitespace gives the tokens back |
| JsBuiltins.DropEmptyOfNonEmpty | src/parsing.ts:143 | dropping empty tokens leaves a list without empty tokens unchanged |
| JsBuiltins.JsRem | src/music/pitch.ts:54 | `%` agrees with the mathematical remainder on non-negative numbers; on negative ones it is in (-b, 0] and zero exactly when b divides the number |
| JsBuiltins.LeadingDigits | src/parsing.ts:109 | the leading digits are the longest all-digit prefix |
| JsBuiltins.ParseIntOfIntToString | src/parsing.ts:109 | parsing the decimal text of an integer gives that integer back |
| JsBuiltins.DigitsValueOfNatToString | src/parsing.ts:109 | the digits of a natural number's decimal text denote that number |
| JsBuiltins.NatToStringInjective | src/music/utils.ts:6-7 | two natural numbers with the same decimal text are equal |
| JsBuiltins.JoinNumbersDashInjective | src/music/utils.ts:6-7 | two number lists with the same dash-joined text are equal, when the second has no negative entries |
| JsBuiltins.IndexOfIsFirst | src/music/pitch.ts:70-71 | `indexOf` finds the first occurrence, and returns -1 exactly when the value is absent |
| JsBuiltins.IndexOfFirstOccurrence | src/music/pitch.ts:70 | an index holding the first occurrence is what `indexOf` returns |
| Collections.SortBySpec | src/music/chord.ts:8-13 | `sortBy` returns a permutation of its input sorted by the key |
| Collections.UniqByKeepsFirst | src/music/chord.ts:7-15 | `uniqBy` keeps pairwise distinct keys, keeps only input elements, keeps the first element of every key, and drops no key |
| Collections.UniqByInOrder | src/music/chord.ts:7-15 | the kept elements sit at strictly increasing input positions, and no earlier input element shares a kept element's key |
| Collections.UniqByOfSorted | src/music/chord.ts:7-15 | `uniqBy` on a list sorted by the key gives a strictly sorted list |
| Pitches.NoteTable | src/music/pitch.ts:3-30 | the note table has 24 entries: the sharp spellings, then the flat spellings |
| Pitches.MatchNoteName | src/music/pitch.ts:58-67 | a match splits the name into a note spelling and all-digit octave text that make up the whole name |
| Pitches.PitchFromMidi | src/music/pitch.ts:32-56 | a MIDI number gives a pitch exactly when it is non-negative or a multiple of 12; the pitch keeps the number and takes the sharp name of its class; otherwise the error names the input |
| Pitches.PitchFromName | src/music/pitch.ts:32-77 | a name gives a pitch exactly when it parses to a MIDI number that `getPitch` accepts; the result agrees with the MIDI form; otherwise the error names the input |
| Pitches.NoteNameShape | src/music/pitch.ts:3-30 | every table entry is a letter A–G with at most one `#` or `b`, so it matches the name pattern |
| Pitches.MatchSpelling | src/music/pitch.ts:58-67 | a spelling followed by digits matches, with exactly that split |
| Pitches.ClassOf | src/music/pitch.ts:76 | the pitch class of table index k is k mod 12 |
| Pitches.SameNameSameClass | src/music/pitch.ts:3-30 | two table entries with the same text have the same pitch class |
| Pitches.FirstSpellingIsFirst | src/music/pitch.ts:70 | the first index of a spelling holds that spelling, and no earlier index does |
| Pitches.FirstSpellingClass | src/music/pitch.ts:70-76 | the first index of a spelling has the spelling's pitch class |
| Pitches.IndexOfTableName | src/music/pitch.ts:70-71 | `indexOf` on a table name finds it, at an index of the right pitch class |
| Pitches.NoteMidiOfFoundName | src/music/pitch.ts:70-76 | a found spelling gives class + (octave + 1) × 12 |
| Pitches.NoteMidiThroughMatch | src/music/pitch.ts:64-76 | the MIDI number of a name is computed from its regular-expression match |
| Pitches.NoteMidiOfSpelling | src/music/pitch.ts:60-77 | a spelling with octave digits gives class + (octave + 1) × 12, with the digits overriding the default octave |
| Pitches.NoteMidiOfTableName | src/music/pitch.ts:60-77 | every table spelling, with or without digits, gives its class + (octave + 1) × 12 |
| Pitches.EnharmonicSpellingsAgree | src/music/pitch.ts:60-77 | the sharp and flat spellings of a pitch class give the same MIDI number for the same octave text |
| Pitches.PitchNamesAreSharp | src/music/pitch.ts:39-56 | for m ≥ 0 the pitch is `{m, NOTE_NAMES[m % 12]}`, and that name is a sharp spelling |
| Pitches.PitchFromMidiExamples | src/music/pitch.spec.ts:5-18 | 48 → C, 60 → C, 61 → C#, 68 → G#; -1 and -13 fail; -12 gives C |
| Pitches.PitchFromParsedName | src/music/pitch.ts:39-42 | a name that parses to a non-negative MIDI number gives that number with the sharp name of its class |
| Pitches.PitchOfClass | src/music/pitch.ts:53-56 | class + (octave + 1) × 12 is named by the sharp spelling of the class |
| Pitches.PitchOfSpelling | src/music/pitch.ts:32-77 | a spelling with octave digits gives the pitch of its class in that octave |
| Pitches.PitchOfBareSpelling | src/music/pitch.ts:32-76 | a spelling without digits uses the given octave |
| Pitches.PitchOfTableSpelling | src/music/pitch.ts:32-77 | every table spelling gives the pitch of its class in the octave its digits or the default give |
| Pitches.PitchFromNameC | src/music/pitch.spec.ts:21 | "C" is MIDI 60, because the default octave is 4 |
| Pitches.PitchFromNameE | src/music/pitch.ts:73-76 | "E" without octave digits is MIDI 64, in the default octave 4 |
| Pitches.PitchFromNameC2 | src/music/pitch.spec.ts:22 | "C2" is MIDI 36 |
| Pitches.PitchFromNameCSharp4 | src/music/pitch.spec.ts:24 | "C#4" is MIDI 61, named C# |
| Pitches.PitchFromNameDFlat4 | src/music/pitch.ts:32-77 | "Db4" is MIDI 61, and is named with the sharp spelling C# |
| Pitches.PitchFromNameDFlat5 | src/music/pitch.spec.ts:33 | "Db5" is MIDI 73 |
| Pitches.PitchFromNameBFlat3 | src/music/pitch.spec.ts:32 | "Bb3" is MIDI 58, named A# |
| Pitches.PitchFromUnlistedName | src/music/pitch.ts:44-71 | a name that matches the pattern but whose spelling is not in the table fails |
| Pitches.PitchFromNameLowerCase | src/music/pitch.ts:58-71 | "c4" fails: the pattern ignores case but the table lookup does not |
| Pitches.PitchFromNameESharp | src/music/pitch.ts:70-71 | "E#" fails |
| Pitches.PitchFromNameCFlat | src/music/pitch.ts:70-71 | "Cb" fails |
| Pitches.PitchFromNameUpperFlat | src/music/pitch.ts:58-71 | "BB" fails, so an upper-cased flat is not a note |
| Pitches.PitchFromUnmatchedName | src/music/pitch.ts:44-65 | a name that does not match the pattern fails with an error naming it |
| Pitches.PitchFromNameNoMatch | src/music/pitch.ts:58-65 | "H", "C-1" and "" fail |
| Pitches.NameRoundTrip | src/music/pitch.ts:53-77 | parsing a sharp spelling in an octave gives the pitch of MIDI number class + (octave + 1) × 12 |
| Pitches.NameWithOctaveRoundTrip | src/music/pitch.ts:60-77 | parsing a sharp spelling followed by an octave's digits gives the same pitch |
| Pitches.MidiRoundTrip | src/music/pitch.ts:53-77 | for m ≥ 0, parsing the name of `getPitch(m)` in octave m / 12 - 1 gives back the same pitch |
| Pitches.PitchOfNameAndDigit | src/music/pitch.spec.ts:23-31 | a table spelling followed by one octave digit d gives class + (d + 1) × 12 |
| Intervals.IntervalTable | src/music/interval.ts:1-26 | the interval table has 24 entries |
| Intervals.IntervalOf | src/music/interval.ts:32-38 | an interval is returned exactly when s ≥ 0 or 24 divides s, and it is `intervals[s mod 24]`; otherwise the error names s |
| Intervals.SemitonesOf | src/music/interval.ts:40-49 | the semitone count is in [0, 24) or the error names the interval |
| Intervals.IntervalNamesDistinct | src/music/interval.ts:1-26 | the interval names are pairwise distinct |
| Intervals.IntervalOfPeriodic | src/music/interval.ts:32-38 | for s ≥ 0, `getInterval(s + 24) == getInterval(s)` |
| Intervals.IntervalOfNegative | src/music/interval.ts:33-36 | -1 and -25 fail; -24 gives "1" |
| Intervals.SemitonesOfTableName | src/music/interval.ts:41 | the table name at index s gives s |
| Intervals.IntervalRoundTrip | src/music/interval.ts:32-49 | for 0 ≤ s < 24, `getSemitones(getInterval(s)) == s` |
| Intervals.SemitonesRoundTrip | src/music/interval.ts:32-49 | for a table name, `getInterval(getSemitones(name)) == name` |
| Intervals.SemitonesOfAccepts | src/music/interval.ts:40-49 | `getSemitones` succeeds exactly on names in the table or in the fallback table |
| Intervals.DoubleFlatSevenIsSixth | src/music/interval.ts:28-44 | "bb7" gives 9 through the fallback, but 9 gives "6", so the round trip is not bijective there |
| Intervals.SemitonesOfUnknown | src/music/interval.ts:45-47 | names in neither table ("x", "b1") fail with an error naming them |
| Tunings.Midis | src/music/utils.ts:6 | the MIDI list of a tuning has one entry per string, in order |
| Tunings.StandardTuningFromNames | src/music/constants.ts:4-11 | the standard tuning is the pitches of E2 A2 D3 G3 B3 E4 |
| Tunings.DropDTuningFromNames | src/music/constants.ts:12-19 | the drop-D tuning is the pitches of D2 A2 D3 G3 B3 E4 |
| Tunings.UkuleleTuningFromNames | src/music/constants.ts:20-25 | the ukulele tuning is the pitches of G4 C4 E4 A4 |
| Tunings.StandardTuningMidis | src/music/constants.ts:4-11 | the standard tuning is MIDI [40, 45, 50, 55, 59, 64] |
| Tunings.DropDLowersStringZero | src/music/constants.ts:4-19 | drop D differs from standard only on string 0, two semitones lower |
| Tunings.UkuleleIsReentrant | src/music/constants.ts:20-25 | the ukulele tuning is MIDI [67, 60, 64, 69], and string 0 is above string 1 |
| Parsing.BestOctave | src/parsing.ts:92-102 | the octave is in [2, 4], and it is 3 for any string count other than 4 and 6 |
| Parsing.BestOctaveByStringCount | src/parsing.ts:92-102 | six strings use octaves [2, 2, 3, 3, 3, 4]; four strings use 4 |
| Parsing.PitchesFromNames | src/parsing.ts:85-89 | a successful tuning has one pitch per token |
| Parsing.PitchesFromNamesAt | src/parsing.ts:86-88 | pitch k of a parsed tuning is token k read in the octave its position and the token count choose |
| Parsing.PitchesFromNamesFirstFailure | src/parsing.ts:86-88 | the first token that is not a note aborts the tuning with that token's error |
| Parsing.PitchesFromNamesAllRead | src/parsing.ts:86-88 | when every token is a note, the tuning is read |
| Parsing.ParseTuningValue | src/parsing.ts:76-90 | after "TUNING: ", a value that strips to "DROPD" gives drop D; else "UKELELE" or "UKE" gives ukulele; else the tokens split on whitespace are read as notes |
| Parsing.ParseTuningDropD | src/parsing.spec.ts:31-33 | "tuning: Drop D" gives the drop-D tuning |
| Parsing.ParseTuningUke | src/parsing.spec.ts:35-37 | "tuning: uke" gives the ukulele tuning |
| Parsing.ParseCapoValue | src/parsing.ts:108-111 | the capo is the `parseInt` of the trimmed value, or none when that is not a number |
| Parsing.ParseCapoThree | src/parsing.ts:108-111 | "capo: 3" gives capo 3 |
| Parsing.ParseDuration | src/parsing.ts:117-127 | a failure is the unknown-duration error naming the upper-cased, trimmed value |
| Parsing.ParseDurationBySuffix | src/parsing.ts:117-127 | a value ending in 64, 32, 16, 8 or 1 reads as that duration; one ending in 4 but not 64 reads as 4, one ending in 2 but not 32 as 2; the parse fails exactly when no suffix 1, 2, 4, 8, 16, 32 or 64 matches |
| Parsing.ParseBeatDuration | src/parsing.ts:159-175 | no override text gives none; an override gives the duration of the text before the first "." and is dotted exactly when a "." is present |
| Parsing.ParseBeatDurationSwallows | src/parsing.ts:167-174 | an override is dropped, not reported, exactly when its duration does not parse |
| Parsing.ParseNote | src/parsing.ts:177-192 | a note is on the string of its token position, and that string exists in the tuning |
| Parsing.ParseNoteSpec | src/parsing.ts:177-192 | "", "-" or a string beyond the tuning give no note; "x" or "X" mutes the string; a token with no integer prefix gives no note; the parse fails exactly when the fretted MIDI number has no pitch, and otherwise gives that fret and pitch |
| Parsing.FrettedNotePitch | src/parsing.ts:187-191 | a fretted note's fret is the `parseInt` of its token, and its MIDI number is the string's MIDI + fret + capo, named as `getPitch` names it |
| Parsing.ParseNotes | src/parsing.ts:142-145 | the notes lie on existing strings, in strictly increasing string order |
| Parsing.ParseNotesFromTokens | src/parsing.ts:142-145 | every note comes from its own token, and every token that gives a note is kept |
| Parsing.ParseBeat | src/parsing.ts:129-152 | a parsed beat has no tuplet |
| Parsing.BeatWithoutOverride | src/parsing.ts:137-151 | a beat line without "/" takes the duration in force, undotted, and its notes are those of its tokens; a note error aborts it |
| Parsing.BeatWithOverride | src/parsing.ts:137-151 | a valid override after "/" sets the beat's duration and dotted flag |
| Parsing.BeatWithUnreadOverride | src/parsing.ts:137-151 | an override after "/" whose duration does not parse leaves the beat as if it had none: the duration in force, undotted, the same notes |
| Parsing.AddToLast | src/parsing.ts:63 | adding a beat appends it to the last measure and changes nothing else |
| Parsing.StepLine | src/parsing.ts:40-64 | one line keeps the parser state valid: there is always a current measure |
| Parsing.ParseLines | src/parsing.ts:40-64 | reading the lines keeps the parser state valid |
| Parsing.NonEmptyMeasures | src/parsing.ts:68 | the kept measures are exactly those with at least one beat |
| Parsing.NonEmptyMeasuresAppend | src/parsing.ts:68 | the filter distributes over concatenation, so measure order is kept |
| Parsing.ParseTab | src/parsing.ts:26-70 | the loop over the lines computes the fold of the line step, and the track carries the final tuning and capo and the non-empty measures |
| Parsing.ReadLine | src/parsing.ts:41-63 | one pass of the loop reads a line exactly as the line step does: new settings, a new measure, a beat on the current measure, or the error that aborts |
| Parsing.ParseLinesGoesOn | src/parsing.ts:40-64 | after a line that parses, reading goes on from the new state |
| Parsing.ParseLinesStopsAt | src/parsing.ts:40-64 | a line that throws ends the parse with its error |
| Parsing.ParseLinesAppend | src/parsing.ts:40-64 | reading two blocks of lines is reading the first and then, if that succeeds, the second |
| Parsing.TuningLineStep | src/parsing.ts:42-45 | a tuning line replaces the tuning, or aborts when a token is not a note |
| Parsing.CapoLineStep | src/parsing.ts:46-49 | a capo line replaces the capo, possibly with none |
| Parsing.DurationLineStep | src/parsing.ts:50-53 | a duration line replaces the duration, or aborts on an unknown duration |
| Parsing.BlankLineStep | src/parsing.ts:54-62 | a blank line opens a new, empty measure in the standard time signature |
| Parsing.BeatLineStep | src/parsing.ts:63 | any other line becomes a beat read with the tuning, capo and duration in force, appended to the current measure |
| Parsing.ConfigPrefixesExclusive | src/parsing.ts:72-115 | no line is more than one kind of configuration line |
| Parsing.UnknownDurationAborts | src/parsing.ts:40-64 | an unknown `DURATION:` value aborts the whole parse, whatever follows |
| Parsing.DurationLineAborts | src/parsing.ts:117-127 | an unknown `DURATION:` value as the next line aborts the parse |
| Parsing.ParsedMeasuresNonEmpty | src/parsing.ts:54-68 | every measure of a parsed track has a beat, and every measure read with a beat is kept |
| Chords.SoundingPitches | src/music/chord.ts:9-11 | the sounding pitches are exactly the pitches of the fretted notes; muted notes are ignored |
| Chords.DistinctPitchesSpec | src/music/chord.ts:7-15 | the chord's pitches are strictly ascending by MIDI number, come from fretted notes, and cover every fretted MIDI number |
| Chords.FindRoot | src/music/chord.ts:18-30 | a root found is in range and its signature is in the chord table |
| Chords.FindRootIsFirst | src/music/chord.ts:18-30 | no earlier root has a known signature, and -1 means no root has one |
| Chords.GetChordSpec | src/music/chord.ts:6-38 | a chord is named exactly when there are at least three distinct pitches and some root has a known signature; the chord is that of the lowest such root, named root name + type, with the notes unchanged |
| Chords.GetChordNeedsThreePitches | src/music/chord.ts:16 | fewer than three distinct MIDI numbers give no chord |
| Chords.SignatureOffsetsShape | src/music/chord.ts:19-27 | for non-negative MIDI numbers the signature's offsets are strictly ascending, in [0, 11], and start at 0 |
| Chords.DistinctOffsetsShape | src/music/chord.ts:19-26 | deduplicated, sorted offsets in [0, 11] that include 0 are strictly ascending and start at 0 |
| Chords.DistinctSortedIsStrict | src/music/chord.ts:19-26 | sorting distinct values gives a strictly ascending list |
| Chords.SortedDistinctOffsets | src/music/chord.ts:19-26 | a sorted permutation of distinct offsets in [0, 11] that include 0 ascends strictly from 0 and stays in [0, 11] |
| Chords.EventChords | src/music/chord.ts:43-48 | the inner loop collects the chords of the measure's events in order |
| Chords.ChordsOfEventsStep | src/music/chord.ts:43-48 | one more event adds its chord, if it has one |
| Chords.ChordsOfMeasuresStep | src/music/chord.ts:42-49 | one more measure adds the chords of its events |
| Chords.ChordsOfEventsSpec | src/music/chord.ts:43-48 | the chords found are exactly the chords of the events |
| Chords.ChordsOfMeasuresSpec | src/music/chord.ts:42-49 | the chords found are exactly the chords of the events of the measures |
| Chords.CollectChords | src/music/chord.ts:40-51 | the nested loops compute the chords in measure-then-event order, deduplicated by name |
| Chords.CollectChordsSpecKeepsFirst | src/music/chord.ts:50 | the collected chords have distinct names, are all found chords, every found chord's name is present, the first chord found under each name is kept, and the kept chords are in the order found |
| FretUtils.IsStandardTuningIff | src/music/utils.ts:4-9 | a tuning is standard exactly when its MIDI list is [40, 45, 50, 55, 59, 64] |
| FretUtils.FrettedNoteRange | src/music/utils.ts:12-31 | the loop computes the least and the greatest fret of the stopped notes |
| FretUtils.StoppedFretsSpec | src/music/utils.ts:17-22 | the frets considered are exactly those of notes that are neither muted nor open |
| FretUtils.SeqMinSpec | src/music/utils.ts:23-25 | the running minimum is none only for no frets, and otherwise a fret below or equal to all |
| FretUtils.SeqMaxSpec | src/music/utils.ts:26-28 | the running maximum is none only for no frets, and otherwise a fret above or equal to all |
| FretUtils.FretRangeSpec | src/music/utils.ts:12-31 | both ends are undefined exactly when no note is stopped; otherwise they are stopped frets and every stopped fret lies between them |
| FretUtils.GetBarre | src/music/utils.ts:40-63 | the loop computes the barre of the notes |
| FretUtils.RunAfterShape | src/music/utils.ts:42-58 | a run in progress starts at a stopped note not below any later note of the run, and ends at the last note |
| FretUtils.UnbrokenRunScanned | src/music/utils.ts:47-57 | notes that are all stopped and never below the first fret form one run from the first to the last string |
| FretUtils.RunAfterForgets | src/music/utils.ts:41-58 | after a reset, the earlier notes no longer matter |
| FretUtils.BarreAfterBreak | src/music/utils.ts:43-55 | a muted or open note, or a note below the run's fret, erases everything before it |
| FretUtils.BarreOfSpec | src/music/utils.ts:40-63 | a barre spans more than two strings and is the final unbroken run: its fret is the run's first fret, at most every fret of the run, from the run's first string to the last note's string |
| FretUtils.FinalRunIsBarre | src/music/utils.ts:40-63 | conversely, a final unbroken run after a reset or from the start, spanning more than two strings, is the barre |
| ChordDiagram.DiagramOf | src/chord-diagram.tsx:23-52 | the nut is drawn, and no fret window is set, exactly when every stopped note fits in the first five rows |
| ChordDiagram.AdjustFretNumberSpec | src/chord-diagram.tsx:213-216 | without a window a fret is its own row; with one the window's first fret is row 1, and rows follow frets one for one |
| ChordDiagram.PositionSpec | src/chord-diagram.tsx:23-27 | the window is set exactly when some stopped fret exceeds 5, and it starts at the lowest stopped fret |
| ChordDiagram.PositionedRowsStartAtOne | src/chord-diagram.tsx:23-74 | with a window, the lowest stopped note is on row 1 and every stopped note on row 1 or below |
| ChordDiagram.UnpositionedAllMarked | src/chord-diagram.tsx:24-75 | without a window, every note is drawn |
| ChordDiagram.MarkOfSpec | src/chord-diagram.tsx:54-84 | muted and open strings are always drawn, a stopped note exactly when its row is at most 5, on its own string |
| ChordDiagram.MarksSpec | src/chord-diagram.tsx:54-84 | the marks are those of the drawable notes, and no others |
| ChordDiagram.DiagramBarre | src/chord-diagram.tsx:28-94 | the barre line is drawn exactly when the notes have a barre, on its strings, at its fret's row |
| ChordDiagram.BarreRowInWindow | src/chord-diagram.tsx:85-94 | a barre's row is 1 or below, with or without a window |
| Layout.BeamLevelCount | src/tabs/layout.ts:128-133 | the count is 0 exactly for values below 8, and otherwise 4 × 2^count is the value (8 → 1, 16 → 2, 32 → 3, 64 → 4) |
| Layout.GroupBeams | src/tabs/layout.ts:91-120 | every event of a group gets its beams |
| Layout.BeamsSpec | src/tabs/layout.ts:102-118 | an event's beams have strictly increasing levels within 1..L, each classified as the rule says, and no level the rule keeps is missing |
| Layout.BeamAtOmitted | src/tabs/layout.ts:104-109 | a level is omitted exactly when it is above the next event's count and at most the previous one's |
| Layout.LastOfGroupNotConnected | src/tabs/layout.ts:98-106 | the last event of a group has no connected beam |
| Layout.FirstOfGroupDrawsEveryLevel | src/tabs/layout.ts:94-112 | the first event of a group draws all its levels, none partial-left |
| Layout.BeamsAllDrawn | src/tabs/layout.ts:102-118 | with no previous event, every level is drawn |
| Layout.ConnectedBeamContinues | src/tabs/layout.ts:98-106 | a connected beam has a next event in the group that reaches that level |
| Layout.TwoEighths | src/tabs/layout.ts:102-118 | two eighths in one group give [connected level 1] and then [] |
| Layout.EventsOf | src/tabs/layout.ts:119 | an event with beams keeps its event |
| Layout.LayoutBeamsKeepsEvents | src/tabs/layout.ts:89-121 | the events with beams are the groups' events, concatenated in order |
| Layout.DurationWidthSpec | src/tabs/layout.ts:82-87 | an event's width is units × 4 × the quarter width, so a quarter is one quarter width |
| Layout.StaffLines | src/tabs/layout.ts:29-32 | there is one staff line per string |
| Layout.LayOutNotes | src/tabs/layout.ts:49-52 | every note is laid out |
| Layout.NoteOnItsLine | src/tabs/layout.ts:30-51 | a note sits on its string's staff line, with string 0 on the lowest line |
| Layout.StaffShape | src/tabs/layout.ts:29-33 | the lines are one line height apart, and the staff is one unit taller than its lines span |
| Layout.LayOutEvents | src/tabs/layout.ts:42-57 | every event is placed |
| Layout.PlaceEvents | src/tabs/layout.ts:42-57 | the event loop places the events and advances x by their total width |
| Layout.EventsContiguous | src/tabs/layout.ts:42-57 | the first event is at the start, each event starts where the previous ends, and the last ends at the start plus the total width |
| Layout.PlaceMeasure | src/tabs/layout.ts:37-64 | one measure is laid out at the current x, and x advances by its width |
| Layout.MeasureSpansItsEvents | src/tabs/layout.ts:38-63 | the first event is half a quarter width in, the measure ends where its last event ends, and an empty measure is half a quarter width wide |
| Layout.LayOutMeasures | src/tabs/layout.ts:36-65 | every measure is laid out |
| Layout.LayOutMeasuresStep | src/tabs/layout.ts:36-65 | one more measure is placed at the width of those before it |
| Layout.MeasuresContiguous | src/tabs/layout.ts:35-65 | the first measure is at 0, and each measure starts where the previous one ends |
| Layout.LayoutTrack | src/tabs/layout.ts:20-77 | the loop over the measures computes the track's layout |
| Layout.LayoutTrackSpecOf | src/tabs/layout.ts:66-76 | the layout is the placed measures on one staff with its lines and height |
| Layout.LayoutTrackShape | src/tabs/layout.ts:26-76 | there is one staff with every measure and one line per string; tuning and capo pass through; the layout width changes nothing |

## Left out

- Ids (`generateId`, built on `Math.random`) are dropped from every record: nothing in the core reads them.
- The contents of the chord table are not part of this model. The chord examples of `src/music/chord.spec.ts` depend on that table, so they are not stated.
- The bodies of `durationToUnits` and `groupEventsByBeat` are not part of this model. They are parameters, so widths and groups are only stated relative to them.
- The legacy `src/types.ts` and `src/constants.ts`, which rely on a foreign music library, are not modelled. The tunings come from `src/music/constants.ts`.
- Rendering is not modelled: the React components, the SVG pixel coordinates of the diagram and staff, `src/hooks/useContentRect.ts`, plugin registration and the preview.
- `ordinalize`, `enumerate` and `withWindow` are not modelled, because the core does not use them. `isNonNullable` filtering is ordinary Option filtering.
- Layout numbers are exact rationals. JavaScript double rounding is not modelled.
- `toUpperCase` is ASCII-only. `parseInt` is an optional sign followed by leading decimal digits, after leading whitespace. JavaScript numbers are doubles, so `parseInt` of more than 15 digits rounds (frets at `src/parsing.ts:187`, capo at `src/parsing.ts:108`); the model's integers are exact.
- Looking up a non-table interval in `uncommonIntervals` can also hit inherited object keys such as `"constructor"`. The model's fallback table holds only `bb7`.
- `getBarre` updates `barre.end` in place. The model replaces the run with a new value, which computes the same result; aliasing of the returned object is not modelled.
- Collections.SortBySpec: states sorted and a permutation, not the stability of the library's sort.
- Pitches.EnharmonicSpellingsAgree: states that the two spellings at table indices k and k + 12 agree. Table entries that are identical text, such as `C` at both 0 and 12, need no lemma.
- The literal beat-line examples of `src/parsing.spec.ts` ("0 2 2 1 0 0", "- 3 x 5 4 3", "- - 2", "- 2 / 8") are not stated as literal lemmas. Each rule they exercise is stated for all inputs instead: skipped and muted tokens and frets in `Parsing.ParseNoteSpec`, the pitch of a fret in `Parsing.FrettedNotePitch`, the "8" override in `Parsing.ParseDurationBySuffix`, and the beat with and without an override in `Parsing.BeatWithoutOverride` and `Parsing.BeatWithOverride`.
- The three explicit-tuning examples of `src/parsing.spec.ts` ("tuning: E2 A2 D3 G3 B3 E4", "tuning: E A D G B E", "D A D F# B E") are not stated as literal lemmas either. Their rules are stated for all inputs: the tuning value read as whitespace tokens in `Parsing.ParseTuningValue`, pitch k read in the octave its position and the token count choose in `Parsing.PitchesFromNamesAt` and `Parsing.BestOctaveByStringCount`, and the standard tuning as those six pitches in `Tunings.StandardTuningFromNames`.
- Staff wrapping and justification are not in the code, which emits one staff, and are not modelled.
