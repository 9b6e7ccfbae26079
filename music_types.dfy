/**
 * The data model of a parsed tab: pitches, notes, durations, events,
 * measures, tracks and chords. Render-key ids (random strings with no
 * meaning) are not carried.
 */
module MusicTypes {
  import opened Wrappers

  /** An absolute pitch: `midi` 60 is C4; `name` is the spelling without octave. */
  datatype Pitch = Pitch(midi: int, name: string)

  type Tuning = seq<Pitch>

  /** A muted string, or a string stopped at `fret`, sounding `pitch`. A string with no note is absent from the list. */
  datatype Note =
    | Muted(stringIndex: int)
    | Fretted(stringIndex: int, fret: int, pitch: Pitch)

  predicate IsDurationValue(v: int) {
    v == 1 || v == 2 || v == 4 || v == 8 || v == 16 || v == 32 || v == 64
  }

  /** Whole, half, quarter, eighth, sixteenth, thirty-second and sixty-fourth. */
  type DurationValue = v: int | IsDurationValue(v) witness 4

  const Quarter: DurationValue := 4
  const Eighth: DurationValue := 8

  datatype Tuplet = Tuplet(count: int, inTimeOf: int)

  /** An absent `dotted` flag reads as `false`. */
  datatype Duration = Duration(value: DurationValue, dotted: bool, tuplet: Option<Tuplet>)

  /** One rhythmic slice: a duration and the notes struck together. */
  datatype Event = Event(duration: Duration, notes: seq<Note>)

  datatype TimeSignature = TimeSignature(beats: int, beatValue: DurationValue)

  datatype Measure = Measure(timeSignature: TimeSignature, events: seq<Event>)

  datatype Track = Track(tuning: Tuning, capo: Option<int>, measures: seq<Measure>)

  /** A recognised chord: `chordType` is the quality suffix (`""`, `"m"`, `"sus2"`, ...). */
  datatype Chord = Chord(name: string, chordType: string, notes: seq<Note>)
}
