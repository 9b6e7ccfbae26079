/**
 * The built-in tunings, listed from string 0 (the lowest-sounding string of
 * a guitar), and the default time signature.
 */
module Tunings {
  import opened Wrappers
  import opened JsBuiltins
  import opened MusicTypes
  import opened Pitches

  const StandardTuning: Tuning :=
    [Pitch(40, "E"), Pitch(45, "A"), Pitch(50, "D"), Pitch(55, "G"), Pitch(59, "B"), Pitch(64, "E")]

  const DropDTuning: Tuning :=
    [Pitch(38, "D"), Pitch(45, "A"), Pitch(50, "D"), Pitch(55, "G"), Pitch(59, "B"), Pitch(64, "E")]

  /** A re-entrant tuning: string 0 sounds above string 1. */
  const UkuleleTuning: Tuning :=
    [Pitch(67, "G"), Pitch(60, "C"), Pitch(64, "E"), Pitch(69, "A")]

  /** Four quarter notes to the bar, written as a record rather than a pair. */
  const StandardTimeSignature: TimeSignature := TimeSignature(4, Quarter)

  /** The names each tuning is built from, one `getPitch` call per string. */
  const StandardNames: seq<string> := ["E2", "A2", "D3", "G3", "B3", "E4"]
  const DropDNames: seq<string> := ["D2", "A2", "D3", "G3", "B3", "E4"]
  const UkuleleNames: seq<string> := ["G4", "C4", "E4", "A4"]

  /** The MIDI numbers of a tuning, string by string. */
  function Midis(t: Tuning): (r: seq<int>)
    ensures |r| == |t| && forall i :: 0 <= i < |t| ==> r[i] == t[i].midi
  {
    if t == [] then [] else [t[0].midi] + Midis(t[1..])
  }

  /** Each standard string is the pitch its name gives. */
  lemma {:induction false} StandardTuningFromNames()
    ensures |StandardNames| == |StandardTuning|
    ensures forall i :: 0 <= i < |StandardNames| ==> PitchFromName(StandardNames[i]) == Ok(StandardTuning[i])
  {
    forall i | 0 <= i < |StandardNames|
      ensures PitchFromName(StandardNames[i]) == Ok(StandardTuning[i])
    {
      if i == 0 {
        assert NoteNames[4] == "E";
        PitchOfNameAndDigit(4, 2, "E2", Pitch(40, "E"));
      } else if i == 1 {
        assert NoteNames[9] == "A";
        PitchOfNameAndDigit(9, 2, "A2", Pitch(45, "A"));
      } else if i == 2 {
        assert NoteNames[2] == "D";
        PitchOfNameAndDigit(2, 3, "D3", Pitch(50, "D"));
      } else if i == 3 {
        assert NoteNames[7] == "G";
        PitchOfNameAndDigit(7, 3, "G3", Pitch(55, "G"));
      } else if i == 4 {
        assert NoteNames[11] == "B";
        PitchOfNameAndDigit(11, 3, "B3", Pitch(59, "B"));
      } else {
        assert NoteNames[4] == "E";
        PitchOfNameAndDigit(4, 4, "E4", Pitch(64, "E"));
      }
    }
  }

  lemma {:induction false} DropDTuningFromNames()
    ensures |DropDNames| == |DropDTuning|
    ensures forall i :: 0 <= i < |DropDNames| ==> PitchFromName(DropDNames[i]) == Ok(DropDTuning[i])
  {
    forall i | 0 <= i < |DropDNames|
      ensures PitchFromName(DropDNames[i]) == Ok(DropDTuning[i])
    {
      if i == 0 {
        assert NoteNames[2] == "D";
        PitchOfNameAndDigit(2, 2, "D2", Pitch(38, "D"));
      } else {
        assert DropDNames[i] == StandardNames[i] && DropDTuning[i] == StandardTuning[i];
        StandardTuningFromNames();
      }
    }
  }

  lemma {:induction false} UkuleleTuningFromNames()
    ensures |UkuleleNames| == |UkuleleTuning|
    ensures forall i :: 0 <= i < |UkuleleNames| ==> PitchFromName(UkuleleNames[i]) == Ok(UkuleleTuning[i])
  {
    forall i | 0 <= i < |UkuleleNames|
      ensures PitchFromName(UkuleleNames[i]) == Ok(UkuleleTuning[i])
    {
      if i == 0 {
        assert NoteNames[7] == "G";
        PitchOfNameAndDigit(7, 4, "G4", Pitch(67, "G"));
      } else if i == 1 {
        assert NoteNames[0] == "C";
        PitchOfNameAndDigit(0, 4, "C4", Pitch(60, "C"));
      } else if i == 2 {
        assert NoteNames[4] == "E";
        PitchOfNameAndDigit(4, 4, "E4", Pitch(64, "E"));
      } else {
        assert NoteNames[9] == "A";
        PitchOfNameAndDigit(9, 4, "A4", Pitch(69, "A"));
      }
    }
  }

  lemma {:induction false} StandardTuningMidis()
    ensures Midis(StandardTuning) == [40, 45, 50, 55, 59, 64]
  {
  }

  /** Drop D lowers string 0 by a whole tone and leaves the other strings alone. */
  lemma {:induction false} DropDLowersStringZero()
    ensures |DropDTuning| == |StandardTuning|
    ensures DropDTuning[0].midi == StandardTuning[0].midi - 2
    ensures DropDTuning[1..] == StandardTuning[1..]
  {
  }

  /** The ukulele has four strings, and string 0 sounds above string 1. */
  lemma {:induction false} UkuleleIsReentrant()
    ensures |UkuleleTuning| == 4
    ensures UkuleleTuning[0].midi > UkuleleTuning[1].midi
    ensures Midis(UkuleleTuning) == [67, 60, 64, 69]
  {
  }
}
