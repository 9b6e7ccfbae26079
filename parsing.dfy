/**
 * The tab parser: text is read line by line. Configuration lines set the
 * tuning, capo and default duration; a blank line starts a new measure;
 * every other line is one beat, its whitespace-separated tokens giving the
 * strings in order, with an optional `/duration` override.
 */
module Parsing {
  import opened Wrappers
  import opened JsBuiltins
  import opened MusicTypes
  import opened Pitches
  import opened Tunings

  /** The ways a parse is aborted: a pitch that cannot be named, or an unknown `DURATION:` value. */
  datatype ParseError = BadPitch(error: PitchError) | UnknownDuration(duration: string)

  /** The settings in force at a line; an absent capo reads as 0 when notes are pitched. */
  datatype TrackOptions = TrackOptions(tuning: Tuning, capo: Option<int>, duration: DurationValue)

  const InitialOptions: TrackOptions := TrackOptions(StandardTuning, None, Quarter)

  // ---------------------------------------------------------------------------
  // Configuration lines

  predicate IsTuningLine(line: string) {
    StartsWith(ToUpper(line), "TUNING: ")
  }

  predicate IsCapoLine(line: string) {
    StartsWith(ToUpper(line), "CAPO: ")
  }

  predicate IsDurationLine(line: string) {
    StartsWith(ToUpper(line), "DURATION: ")
  }

  /** Octaves assumed for unnumbered note names, by string count: guitar and ukulele. */
  const NoteOctaveMaps: map<int, seq<int>> := map[6 := [2, 2, 3, 3, 3, 4], 4 := [4, 4, 4, 4]]

  /** `getBestOctave`: the octave for string `stringIndex` of `stringCount`, 3 when there is no entry. */
  function BestOctave(stringIndex: nat, stringCount: nat): (r: int)
    ensures 2 <= r <= 4
    ensures stringCount != 4 && stringCount != 6 ==> r == 3
  {
    if stringCount !in NoteOctaveMaps then 3
    else
      var octaves := NoteOctaveMaps[stringCount];
      if stringIndex < |octaves| then octaves[stringIndex] else 3
  }

  /** The pitches of `names[from..]`, each in the octave `BestOctave` gives; the first failure aborts. */
  function PitchesFromNames(names: seq<string>, from: nat): (r: Result<Tuning, ParseError>)
    requires from <= |names|
    decreases |names| - from
    ensures r.Ok? ==> |r.value| == |names| - from
  {
    if from == |names| then Ok([])
    else
      match PitchFromName(names[from], BestOctave(from, |names|))
      case Err(e) => Err(BadPitch(e))
      case Ok(p) =>
        match PitchesFromNames(names, from + 1)
        case Err(e) => Err(e)
        case Ok(rest) => Ok([p] + rest)
  }

  /** `parseTuning`: the two shortcuts, otherwise one note name per string. */
  function ParseTuning(line: string): Result<Tuning, ParseError> {
    var input := RemoveFirst(ToUpper(line), "TUNING: ");
    if KeepWordChars(input) == "DROPD" then Ok(DropDTuning)
    else if input == "UKELELE" || input == "UKE" then Ok(UkuleleTuning)
    else PitchesFromNames(SplitWhitespace(input), 0)
  }

  /** `parseCapo`: the integer prefix of the value, or nothing when there is none. */
  function ParseCapo(line: string): Option<int> {
    ParseInt(Trim(RemoveFirst(ToUpper(line), "CAPO: ")))
  }

  /** The value of a duration setting, upper-cased and trimmed. */
  function DurationText(input: string): string {
    Trim(RemoveFirst(ToUpper(input), "DURATION: "))
  }

  /** `parseDuration`: matched by suffix, the two-digit values first. */
  function ParseDuration(input: string): (r: Result<DurationValue, ParseError>)
    ensures r.Err? ==> r.error == UnknownDuration(DurationText(input))
  {
    var d := DurationText(input);
    if EndsWith(d, "64") then Ok(64)
    else if EndsWith(d, "32") then Ok(32)
    else if EndsWith(d, "16") then Ok(16)
    else if EndsWith(d, "8") then Ok(8)
    else if EndsWith(d, "4") then Ok(4)
    else if EndsWith(d, "2") then Ok(2)
    else if EndsWith(d, "1") then Ok(1)
    else Err(UnknownDuration(d))
  }

  // ---------------------------------------------------------------------------
  // Beat lines

  /** A recognised `/duration` override, and whether a `.` followed it. */
  datatype BeatDuration = BeatDuration(duration: DurationValue, dotted: bool)

  /** `parseBeatDuration`: a failed override is swallowed and reads as no override. */
  function ParseBeatDuration(input: Option<string>): (r: Option<BeatDuration>)
    ensures input.None? ==> r.None?
    ensures r.Some? ==> ParseDuration(Split(input.value, '.')[0]) == Ok(r.value.duration)
    ensures r.Some? ==> (r.value.dotted <==> '.' in input.value)
  {
    match input
    case None => None
    case Some(s) =>
      var parts := Split(s, '.');
      SplitJoin(s, '.');
      match ParseDuration(parts[0])
      case Err(_) => None
      case Ok(v) => Some(BeatDuration(v, |parts| >= 2))
  }

  /**
   * `parseNote`: token `input` for string `stringIndex`. Empty, `-` and
   * tokens past the last string give no note, `x` a muted string, a token
   * with no integer prefix no note, and otherwise the string's pitch raised
   * by the fret and the capo.
   */
  function ParseNote(stringIndex: nat, input: string, tuning: Tuning, capo: int): (r: Result<Option<Note>, ParseError>)
    ensures r.Ok? && r.value.Some? ==> r.value.value.stringIndex == stringIndex && stringIndex < |tuning|
  {
    if input == "" || input == "-" || stringIndex >= |tuning| then Ok(None)
    else if input == "x" || input == "X" then Ok(Some(Muted(stringIndex)))
    else
      match ParseInt(input)
      case None => Ok(None)
      case Some(fret) =>
        match PitchFromMidi(tuning[stringIndex].midi + fret + capo)
        case Err(e) => Err(BadPitch(e))
        case Ok(p) => Ok(Some(Fretted(stringIndex, fret, p)))
  }

  /**
   * The token rules of `parseNote`: an empty token, `-` or a string the
   * tuning lacks is no note; `x` or `X` mutes the string; a token with no
   * integer prefix is no note; an integer prefix is a fret, and the only
   * failure is a fretted pitch below MIDI 0 that is not a whole octave.
   */
  lemma {:induction false} ParseNoteSpec(stringIndex: nat, input: string, tuning: Tuning, capo: int)
    ensures input == "" || input == "-" || stringIndex >= |tuning| ==> ParseNote(stringIndex, input, tuning, capo) == Ok(None)
    ensures stringIndex < |tuning| && (input == "x" || input == "X") ==>
      ParseNote(stringIndex, input, tuning, capo) == Ok(Some(Muted(stringIndex)))
    ensures input !in ["", "-", "x", "X"] && ParseInt(input).None? ==> ParseNote(stringIndex, input, tuning, capo) == Ok(None)
    ensures ParseNote(stringIndex, input, tuning, capo).Err? <==>
      stringIndex < |tuning| && input !in ["", "-", "x", "X"] && ParseInt(input).Some? &&
      PitchFromMidi(tuning[stringIndex].midi + ParseInt(input).value + capo).Err?
    ensures (stringIndex < |tuning| && input !in ["", "-", "x", "X"] && ParseInt(input).Some? &&
             PitchFromMidi(tuning[stringIndex].midi + ParseInt(input).value + capo).Ok?) ==>
        ParseNote(stringIndex, input, tuning, capo) ==
          Ok(Some(Fretted(stringIndex, ParseInt(input).value, PitchFromMidi(tuning[stringIndex].midi + ParseInt(input).value + capo).value)))
  {
  }

  /** The notes of `tokens[from..]`, token `i` on string `i`; the first failure aborts. */
  function ParseNotes(tokens: seq<string>, from: nat, tuning: Tuning, capo: int): (r: Result<seq<Note>, ParseError>)
    requires from <= |tokens|
    decreases |tokens| - from
    ensures r.Ok? ==> forall i :: 0 <= i < |r.value| ==> from <= r.value[i].stringIndex < |tuning|
    ensures r.Ok? ==> forall i, j :: 0 <= i < j < |r.value| ==> r.value[i].stringIndex < r.value[j].stringIndex
  {
    if from == |tokens| then Ok([])
    else
      match ParseNote(from, tokens[from], tuning, capo)
      case Err(e) => Err(e)
      case Ok(n) =>
        match ParseNotes(tokens, from + 1, tuning, capo)
        case Err(e) => Err(e)
        case Ok(rest) => if n.Some? then Ok([n.value] + rest) else Ok(rest)
  }

  /** The capo as notes see it: an absent capo is 0. */
  function CapoOrZero(capo: Option<int>): int {
    if capo.Some? then capo.value else 0
  }

  /** `parseBeat`: notes before the first `/`, an optional duration override after it. */
  function ParseBeat(input: string, options: TrackOptions): (r: Result<Event, ParseError>)
    ensures r.Ok? ==> r.value.duration.tuplet.None?
  {
    var parts := Split(input, '/');
    var durationInput := if |parts| >= 2 then Some(parts[1]) else None;
    var parsed := ParseBeatDuration(durationInput);
    match ParseNotes(SplitWhitespace(parts[0]), 0, options.tuning, CapoOrZero(options.capo))
    case Err(e) => Err(e)
    case Ok(notes) =>
      var value := if parsed.Some? then parsed.value.duration else options.duration;
      Ok(Event(Duration(value, parsed.Some? && parsed.value.dotted, None), notes))
  }

  // ---------------------------------------------------------------------------
  // The whole text

  /** The parser's state between lines; the last measure is the one beats are added to. */
  datatype ParserState = ParserState(options: TrackOptions, measures: seq<Measure>)

  predicate ValidState(st: ParserState) {
    |st.measures| >= 1
  }

  const InitialState: ParserState := ParserState(InitialOptions, [Measure(StandardTimeSignature, [])])

  /** `ms` with `e` appended to the events of its last measure. */
  function AddToLast(ms: seq<Measure>, e: Event): (r: seq<Measure>)
    requires |ms| >= 1
    ensures |r| == |ms| && r[..|ms| - 1] == ms[..|ms| - 1]
    ensures r[|ms| - 1] == ms[|ms| - 1].(events := ms[|ms| - 1].events + [e])
  {
    ms[|ms| - 1 := ms[|ms| - 1].(events := ms[|ms| - 1].events + [e])]
  }

  /** One line of input, in the order the source tests it: tuning, capo, duration, blank, beat. */
  function StepLine(st: ParserState, inputLine: string): (r: Result<ParserState, ParseError>)
    requires ValidState(st)
    ensures r.Ok? ==> ValidState(r.value)
  {
    var line := Trim(inputLine);
    if IsTuningLine(line) then
      match ParseTuning(line)
      case Err(e) => Err(e)
      case Ok(t) => Ok(st.(options := st.options.(tuning := t)))
    else if IsCapoLine(line) then
      Ok(st.(options := st.options.(capo := ParseCapo(line))))
    else if IsDurationLine(line) then
      match ParseDuration(line)
      case Err(e) => Err(e)
      case Ok(d) => Ok(st.(options := st.options.(duration := d)))
    else if line == "" then
      Ok(st.(measures := st.measures + [Measure(StandardTimeSignature, [])]))
    else
      match ParseBeat(line, st.options)
      case Err(e) => Err(e)
      case Ok(e) => Ok(st.(measures := AddToLast(st.measures, e)))
  }

  /** The lines in order, from state `st`; the first failure aborts. */
  function ParseLines(st: ParserState, lines: seq<string>): (r: Result<ParserState, ParseError>)
    requires ValidState(st)
    decreases |lines|
    ensures r.Ok? ==> ValidState(r.value)
  {
    if lines == [] then Ok(st)
    else
      match StepLine(st, lines[0])
      case Err(e) => Err(e)
      case Ok(next) => ParseLines(next, lines[1..])
  }

  /** `measures.filter(m => m.events.length > 0)`. */
  function NonEmptyMeasures(ms: seq<Measure>): (r: seq<Measure>)
    ensures |r| <= |ms|
    ensures forall m :: m in r <==> m in ms && |m.events| > 0
  {
    if ms == [] then []
    else if |ms[0].events| > 0 then [ms[0]] + NonEmptyMeasures(ms[1..])
    else NonEmptyMeasures(ms[1..])
  }

  /** `parseTab`, as a fold over the lines. */
  function ParseTabSpec(input: string): Result<Track, ParseError> {
    match ParseLines(InitialState, Split(input, '\n'))
    case Err(e) => Err(e)
    case Ok(st) => Ok(Track(st.options.tuning, st.options.capo, NonEmptyMeasures(st.measures)))
  }

  /** `parseTab`: one pass over the lines, updating the settings and the current measure in place. */
  method ParseTab(input: string) returns (r: Result<Track, ParseError>)
    ensures r == ParseTabSpec(input)
  {
    var options := InitialOptions;
    var measures := [Measure(StandardTimeSignature, [])];
    var lines := Split(input, '\n');
    var i := 0;
    while i < |lines|
      invariant 0 <= i <= |lines| && |measures| >= 1
      invariant ParseLines(InitialState, lines) == ParseLines(ParserState(options, measures), lines[i..])
    {
      ghost var st := ParserState(options, measures);
      var next := ReadLine(options, measures, lines[i]);
      if next.Err? {
        ParseLinesStopsAt(st, lines, i, next.error);
        return Err(next.error);
      }
      ParseLinesGoesOn(st, lines, i, next.value);
      options := next.value.options;
      measures := next.value.measures;
      i := i + 1;
    }
    r := Ok(Track(options.tuning, options.capo, NonEmptyMeasures(measures)));
  }

  /** The body of the loop of `parseTab`: one line read against the current settings and measures. */
  method ReadLine(options: TrackOptions, measures: seq<Measure>, inputLine: string) returns (next: Result<ParserState, ParseError>)
    requires |measures| >= 1
    ensures next == StepLine(ParserState(options, measures), inputLine)
  {
    ghost var st := ParserState(options, measures);
    var line := Trim(inputLine);
    if IsTuningLine(line) {
      var t := ParseTuning(line);
      TuningLineStep(st, inputLine);
      if t.Err? {
        return Err(t.error);
      }
      next := Ok(ParserState(options.(tuning := t.value), measures));
    } else if IsCapoLine(line) {
      CapoLineStep(st, inputLine);
      next := Ok(ParserState(options.(capo := ParseCapo(line)), measures));
    } else if IsDurationLine(line) {
      var d := ParseDuration(line);
      DurationLineStep(st, inputLine);
      if d.Err? {
        return Err(d.error);
      }
      next := Ok(ParserState(options.(duration := d.value), measures));
    } else if line == "" {
      BlankLineStep(st, inputLine);
      next := Ok(ParserState(options, measures + [Measure(StandardTimeSignature, [])]));
    } else {
      var beat := ParseBeat(line, options);
      BeatLineStep(st, inputLine);
      if beat.Err? {
        return Err(beat.error);
      }
      var last := measures[|measures| - 1];
      next := Ok(ParserState(options, measures[|measures| - 1 := last.(events := last.events + [beat.value])]));
    }
  }

  // ---------------------------------------------------------------------------
  // One line at a time

  lemma {:induction false} ParseLinesGoesOn(st: ParserState, lines: seq<string>, i: nat, next: ParserState)
    requires ValidState(st) && i < |lines| && StepLine(st, lines[i]) == Ok(next)
    ensures ParseLines(st, lines[i..]) == ParseLines(next, lines[i + 1..])
  {
    assert lines[i..][0] == lines[i] && lines[i..][1..] == lines[i + 1..];
  }

  lemma {:induction false} ParseLinesStopsAt(st: ParserState, lines: seq<string>, i: nat, e: ParseError)
    requires ValidState(st) && i < |lines| && StepLine(st, lines[i]) == Err(e)
    ensures ParseLines(st, lines[i..]) == Err(e)
  {
    assert lines[i..][0] == lines[i];
  }

  /** A tuning line replaces the tuning, or aborts when a name cannot be read; it adds no beat. */
  lemma {:induction false} TuningLineStep(st: ParserState, inputLine: string)
    requires ValidState(st) && IsTuningLine(Trim(inputLine))
    ensures StepLine(st, inputLine).Ok? <==> ParseTuning(Trim(inputLine)).Ok?
    ensures ParseTuning(Trim(inputLine)).Err? ==> StepLine(st, inputLine) == Err(ParseTuning(Trim(inputLine)).error)
    ensures ParseTuning(Trim(inputLine)).Ok? ==>
      StepLine(st, inputLine) == Ok(ParserState(st.options.(tuning := ParseTuning(Trim(inputLine)).value), st.measures))
  {
  }

  /** A capo line replaces the capo, with nothing when its value is not a number; it adds no beat. */
  lemma {:induction false} CapoLineStep(st: ParserState, inputLine: string)
    requires ValidState(st) && !IsTuningLine(Trim(inputLine)) && IsCapoLine(Trim(inputLine))
    ensures StepLine(st, inputLine) == Ok(ParserState(st.options.(capo := ParseCapo(Trim(inputLine))), st.measures))
  {
  }

  /** A duration line replaces the default duration, or aborts the parse; it adds no beat. */
  lemma {:induction false} DurationLineStep(st: ParserState, inputLine: string)
    requires ValidState(st) && !IsTuningLine(Trim(inputLine)) && !IsCapoLine(Trim(inputLine))
    requires IsDurationLine(Trim(inputLine))
    ensures ParseDuration(Trim(inputLine)).Err? ==> StepLine(st, inputLine) == Err(ParseDuration(Trim(inputLine)).error)
    ensures ParseDuration(Trim(inputLine)).Ok? ==>
      StepLine(st, inputLine) == Ok(ParserState(st.options.(duration := ParseDuration(Trim(inputLine)).value), st.measures))
  {
  }

  /** A blank line opens a new, empty measure and leaves the settings alone. */
  lemma {:induction false} BlankLineStep(st: ParserState, inputLine: string)
    requires ValidState(st) && Trim(inputLine) == ""
    ensures StepLine(st, inputLine) == Ok(ParserState(st.options, st.measures + [Measure(StandardTimeSignature, [])]))
  {
  }

  /** Any other line is a beat, read with the settings in force, and added to the current measure. */
  lemma {:induction false} BeatLineStep(st: ParserState, inputLine: string)
    requires ValidState(st)
    requires !IsTuningLine(Trim(inputLine)) && !IsCapoLine(Trim(inputLine)) && !IsDurationLine(Trim(inputLine))
    requires Trim(inputLine) != ""
    ensures ParseBeat(Trim(inputLine), st.options).Err? ==>
      StepLine(st, inputLine) == Err(ParseBeat(Trim(inputLine), st.options).error)
    ensures ParseBeat(Trim(inputLine), st.options).Ok? ==>
      StepLine(st, inputLine) == Ok(ParserState(st.options, AddToLast(st.measures, ParseBeat(Trim(inputLine), st.options).value)))
  {
  }

  // ---------------------------------------------------------------------------
  // Properties of the whole parse

  /** The three configuration prefixes exclude each other, so the order they are tested in never matters. */
  lemma {:induction false} ConfigPrefixesExclusive(line: string)
    ensures IsCapoLine(line) ==> !IsTuningLine(line) && !IsDurationLine(line)
    ensures IsDurationLine(line) ==> !IsTuningLine(line)
  {
    if IsCapoLine(line) {
      assert ToUpper(line)[0] == 'C';
    }
    if IsDurationLine(line) {
      assert ToUpper(line)[0] == 'D';
    }
  }

  /** Reading `xs + ys` is reading `xs`, then reading `ys` from where that left off. */
  lemma {:induction false} ParseLinesAppend(st: ParserState, xs: seq<string>, ys: seq<string>)
    requires ValidState(st)
    decreases |xs|
    ensures ParseLines(st, xs + ys) ==
      match ParseLines(st, xs)
      case Err(e) => Err(e)
      case Ok(mid) => ParseLines(mid, ys)
  {
    if xs != [] {
      assert (xs + ys)[0] == xs[0] && (xs + ys)[1..] == xs[1..] + ys;
      match StepLine(st, xs[0])
      case Err(e) =>
      case Ok(next) => ParseLinesAppend(next, xs[1..], ys);
    } else {
      assert xs + ys == ys;
    }
  }

  /** An unknown `DURATION:` value anywhere after lines that parse aborts the whole parse. */
  lemma {:induction false} UnknownDurationAborts(st: ParserState, xs: seq<string>, line: string, ys: seq<string>, mid: ParserState)
    requires ValidState(st) && ParseLines(st, xs) == Ok(mid)
    requires IsDurationLine(Trim(line)) && ParseDuration(Trim(line)).Err?
    ensures ParseLines(st, xs + [line] + ys) == Err(UnknownDuration(DurationText(Trim(line))))
  {
    var rest := [line] + ys;
    assert xs + [line] + ys == xs + rest;
    var e := UnknownDuration(DurationText(Trim(line)));
    assert ParseLines(mid, rest) == Err(e) by {
      DurationLineAborts(mid, line, ys);
    }
    ParseLinesAppend(st, xs, rest);
  }

  /** The same, from the state the unknown duration line is read in. */
  lemma {:induction false} DurationLineAborts(st: ParserState, line: string, ys: seq<string>)
    requires ValidState(st)
    requires IsDurationLine(Trim(line)) && ParseDuration(Trim(line)).Err?
    ensures ParseLines(st, [line] + ys) == Err(UnknownDuration(DurationText(Trim(line))))
  {
    ConfigPrefixesExclusive(Trim(line));
    DurationLineStep(st, line);
    assert ([line] + ys)[0] == line;
  }

  /** Filtering distributes over concatenation, so the kept measures stay in source order. */
  lemma {:induction false} NonEmptyMeasuresAppend(xs: seq<Measure>, ys: seq<Measure>)
    decreases |xs|
    ensures NonEmptyMeasures(xs + ys) == NonEmptyMeasures(xs) + NonEmptyMeasures(ys)
  {
    if xs == [] {
      assert xs + ys == ys;
    } else {
      assert (xs + ys)[0] == xs[0] && (xs + ys)[1..] == xs[1..] + ys;
      NonEmptyMeasuresAppend(xs[1..], ys);
    }
  }

  /** Every measure of a parsed track has at least one event, and every measure with one is kept. */
  lemma {:induction false} ParsedMeasuresNonEmpty(input: string)
    requires ParseTabSpec(input).Ok?
    ensures forall m :: m in ParseTabSpec(input).value.measures ==> |m.events| > 0
    ensures forall m :: m in ParseLines(InitialState, Split(input, '\n')).value.measures && |m.events| > 0 ==>
      m in ParseTabSpec(input).value.measures
  {
  }

  // ---------------------------------------------------------------------------
  // Properties of beats

  /**
   * The notes of a beat are exactly the notes its tokens give: each note
   * comes from the token at its string index, and every token that gives a
   * note contributes it.
   */
  lemma {:induction false} ParseNotesFromTokens(tokens: seq<string>, from: nat, tuning: Tuning, capo: int)
    requires from <= |tokens| && ParseNotes(tokens, from, tuning, capo).Ok?
    decreases |tokens| - from
    ensures forall n :: n in ParseNotes(tokens, from, tuning, capo).value ==>
      n.stringIndex < |tokens| && ParseNote(n.stringIndex, tokens[n.stringIndex], tuning, capo) == Ok(Some(n))
    ensures forall k, n :: from <= k < |tokens| && ParseNote(k, tokens[k], tuning, capo) == Ok(Some(n)) ==>
      n in ParseNotes(tokens, from, tuning, capo).value
  {
    if from < |tokens| {
      var head := ParseNote(from, tokens[from], tuning, capo);
      var rest := ParseNotes(tokens, from + 1, tuning, capo);
      assert head.Ok? && rest.Ok?;
      ParseNotesFromTokens(tokens, from + 1, tuning, capo);
      var notes := ParseNotes(tokens, from, tuning, capo).value;
      assert notes == if head.value.Some? then [head.value.value] + rest.value else rest.value;
    }
  }

  /** A fretted note sounds the open string raised by the fret and the capo. */
  lemma {:induction false} FrettedNotePitch(stringIndex: nat, input: string, tuning: Tuning, capo: int, n: Note)
    requires ParseNote(stringIndex, input, tuning, capo) == Ok(Some(n)) && n.Fretted?
    ensures ParseInt(input) == Some(n.fret)
    ensures n.pitch.midi == tuning[stringIndex].midi + n.fret + capo
    ensures PitchFromMidi(n.pitch.midi) == Ok(n.pitch)
  {
  }

  // ---------------------------------------------------------------------------
  // Properties of configuration values

  /** Each name is read in the octave its position gives: string `k` of a parsed tuning is name `k`'s pitch. */
  lemma {:induction false} PitchesFromNamesAt(names: seq<string>, from: nat, k: nat)
    requires from <= k < |names| && PitchesFromNames(names, from).Ok?
    decreases k - from
    ensures PitchFromName(names[k], BestOctave(k, |names|)) == Ok(PitchesFromNames(names, from).value[k - from])
  {
    if k > from {
      PitchesFromNamesAt(names, from + 1, k);
    }
  }

  /** The first name that cannot be read aborts the tuning with its error. */
  lemma {:induction false} PitchesFromNamesFirstFailure(names: seq<string>, from: nat, j: nat)
    requires from <= j < |names| && PitchFromName(names[j], BestOctave(j, |names|)).Err?
    requires forall k :: from <= k < j ==> PitchFromName(names[k], BestOctave(k, |names|)).Ok?
    decreases j - from
    ensures PitchesFromNames(names, from) == Err(BadPitch(PitchFromName(names[j], BestOctave(j, |names|)).error))
  {
    if j > from {
      PitchesFromNamesFirstFailure(names, from + 1, j);
    }
  }

  /** When every name can be read, so can the tuning. */
  lemma {:induction false} PitchesFromNamesAllRead(names: seq<string>, from: nat)
    requires from <= |names|
    requires forall k :: from <= k < |names| ==> PitchFromName(names[k], BestOctave(k, |names|)).Ok?
    decreases |names| - from
    ensures PitchesFromNames(names, from).Ok?
  {
    if from < |names| {
      PitchesFromNamesAllRead(names, from + 1);
    }
  }

  /** A six-string tuning takes the octaves of standard tuning, a four-string one octave 4. */
  lemma {:induction false} BestOctaveByStringCount(stringIndex: nat)
    ensures stringIndex < 6 ==> BestOctave(stringIndex, 6) == [2, 2, 3, 3, 3, 4][stringIndex]
    ensures stringIndex < 4 ==> BestOctave(stringIndex, 4) == 4
  {
  }

  /**
   * What follows `TUNING: ` decides the tuning: anything whose word characters
   * spell DROPD is drop D, "UKELELE" or "UKE" the ukulele, anything else one
   * name per whitespace-separated token.
   */
  lemma {:induction false} ParseTuningValue(line: string, value: string)
    requires ToUpper(line) == "TUNING: " + value
    ensures KeepWordChars(value) == "DROPD" ==> ParseTuning(line) == Ok(DropDTuning)
    ensures KeepWordChars(value) != "DROPD" && (value == "UKELELE" || value == "UKE") ==>
      ParseTuning(line) == Ok(UkuleleTuning)
    ensures KeepWordChars(value) != "DROPD" && value != "UKELELE" && value != "UKE" ==>
      ParseTuning(line) == PitchesFromNames(SplitWhitespace(value), 0)
  {
    RemoveFirstOfPrefix(ToUpper(line), "TUNING: ");
    assert ToUpper(line)[8..] == value;
  }

  /** The value after `CAPO: ` is read by `parseInt`, so a leading number counts and anything else clears the capo. */
  lemma {:induction false} ParseCapoValue(line: string, value: string)
    requires ToUpper(line) == "CAPO: " + value
    ensures ParseCapo(line) == ParseInt(Trim(value))
  {
    RemoveFirstOfPrefix(ToUpper(line), "CAPO: ");
    assert ToUpper(line)[6..] == value;
  }

  /**
   * A duration is read from the end of its value, two-digit values first, so
   * "64" is never read as 4 nor "32" as 2; a value ending in none of the
   * seven spellings aborts the parse.
   */
  lemma {:induction false} ParseDurationBySuffix(input: string)
    ensures EndsWith(DurationText(input), "64") ==> ParseDuration(input) == Ok(64)
    ensures EndsWith(DurationText(input), "32") ==> ParseDuration(input) == Ok(32)
    ensures EndsWith(DurationText(input), "16") ==> ParseDuration(input) == Ok(16)
    ensures EndsWith(DurationText(input), "8") ==> ParseDuration(input) == Ok(8)
    ensures EndsWith(DurationText(input), "4") && !EndsWith(DurationText(input), "64") ==> ParseDuration(input) == Ok(4)
    ensures EndsWith(DurationText(input), "2") && !EndsWith(DurationText(input), "32") ==> ParseDuration(input) == Ok(2)
    ensures EndsWith(DurationText(input), "1") ==> ParseDuration(input) == Ok(1)
    ensures ParseDuration(input).Err? <==>
      !EndsWith(DurationText(input), "64") && !EndsWith(DurationText(input), "32") &&
      !EndsWith(DurationText(input), "16") && !EndsWith(DurationText(input), "8") &&
      !EndsWith(DurationText(input), "4") && !EndsWith(DurationText(input), "2") &&
      !EndsWith(DurationText(input), "1")
  {
  }

  /** A `/duration` override that cannot be read is dropped, not reported. */
  lemma {:induction false} ParseBeatDurationSwallows(s: string)
    ensures ParseBeatDuration(Some(s)).None? <==> ParseDuration(Split(s, '.')[0]).Err?
  {
  }

  // ---------------------------------------------------------------------------
  // Properties of beats, continued

  /** A beat with no `/` takes the default duration, undotted, and its notes from its tokens. */
  lemma {:induction false} BeatWithoutOverride(input: string, options: TrackOptions)
    requires '/' !in input
    ensures ParseNotes(SplitWhitespace(input), 0, options.tuning, CapoOrZero(options.capo)).Err? ==>
      ParseBeat(input, options) == Err(ParseNotes(SplitWhitespace(input), 0, options.tuning, CapoOrZero(options.capo)).error)
    ensures ParseNotes(SplitWhitespace(input), 0, options.tuning, CapoOrZero(options.capo)).Ok? ==>
      ParseBeat(input, options) ==
        Ok(Event(Duration(options.duration, false, None), ParseNotes(SplitWhitespace(input), 0, options.tuning, CapoOrZero(options.capo)).value))
  {
    SplitOfJoin([input], '/');
    assert Join([input], "/") == input;
  }

  /** A beat `notes/duration` whose override reads takes that duration, dotted when a `.` follows it. */
  lemma {:induction false} BeatWithOverride(notes: string, duration: string, options: TrackOptions)
    requires '/' !in notes && '/' !in duration
    requires ParseBeatDuration(Some(duration)).Some?
    requires ParseNotes(SplitWhitespace(notes), 0, options.tuning, CapoOrZero(options.capo)).Ok?
    ensures ParseBeat(notes + "/" + duration, options) ==
      Ok(Event(Duration(ParseBeatDuration(Some(duration)).value.duration, '.' in duration, None),
               ParseNotes(SplitWhitespace(notes), 0, options.tuning, CapoOrZero(options.capo)).value))
  {
    SplitOfJoin([notes, duration], '/');
    assert Join([notes, duration], "/") == notes + "/" + duration;
  }

  /**
   * A beat `notes/duration` whose override does not read is the beat
   * `notes` alone: the default duration, undotted, the same notes or the
   * same error.
   */
  lemma {:induction false} BeatWithUnreadOverride(notes: string, duration: string, options: TrackOptions)
    requires '/' !in notes && '/' !in duration
    requires ParseDuration(Split(duration, '.')[0]).Err?
    ensures ParseBeat(notes + "/" + duration, options) == ParseBeat(notes, options)
    ensures ParseNotes(SplitWhitespace(notes), 0, options.tuning, CapoOrZero(options.capo)).Ok? ==>
      ParseBeat(notes + "/" + duration, options) ==
        Ok(Event(Duration(options.duration, false, None), ParseNotes(SplitWhitespace(notes), 0, options.tuning, CapoOrZero(options.capo)).value))
  {
    ParseBeatDurationSwallows(duration);
    SplitOfJoin([notes, duration], '/');
    assert Join([notes, duration], "/") == notes + "/" + duration;
    BeatWithoutOverride(notes, options);
  }

  // ---------------------------------------------------------------------------
  // Examples

  lemma {:induction false} DropDLineSpelling()
    ensures ToUpper("tuning: Drop D") == "TUNING: " + "DROP D"
    ensures KeepWordChars("DROP D") == "DROPD"
  {
  }

  /** "tuning: Drop D" is the drop D shortcut. */
  lemma {:induction false} ParseTuningDropD()
    ensures ParseTuning("tuning: Drop D") == Ok(DropDTuning)
  {
    DropDLineSpelling();
    ParseTuningValue("tuning: Drop D", "DROP D");
  }

  lemma {:induction false} UkeLineSpelling()
    ensures ToUpper("tuning: uke") == "TUNING: " + "UKE"
    ensures KeepWordChars("UKE") == "UKE"
  {
  }

  /** "tuning: uke" is the ukulele shortcut. */
  lemma {:induction false} ParseTuningUke()
    ensures ParseTuning("tuning: uke") == Ok(UkuleleTuning)
  {
    UkeLineSpelling();
    ParseTuningValue("tuning: uke", "UKE");
  }

  lemma {:induction false} CapoLineSpelling()
    ensures ToUpper("capo: 3") == "CAPO: " + "3"
  {
  }

  lemma {:induction false} CapoValue()
    ensures ParseInt(Trim("3")) == Some(3)
  {
    assert Trim("3") == "3";
    assert TrimStart("3") == "3" && LeadingDigits("3") == "3";
  }

  /** "capo: 3" sets the capo to 3. */
  lemma {:induction false} ParseCapoThree()
    ensures ParseCapo("capo: 3") == Some(3)
  {
    CapoLineSpelling();
    CapoValue();
    ParseCapoValue("capo: 3", "3");
  }
}
