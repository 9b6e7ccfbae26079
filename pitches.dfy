/**
 * Conversion between MIDI numbers and note names through a 24-entry table:
 * twelve sharp spellings followed by twelve flat spellings. A number is
 * always named with the sharp half; a name is looked up by its first
 * occurrence in the table, so both spellings of a pitch class give the same
 * number.
 */
module Pitches {
  import opened Wrappers
  import opened JsBuiltins
  import opened MusicTypes

  /** Entry `i` of the table; positions past the end read as the last entry. */
  function NoteNameAt(i: nat): string {
    match i
    case 0 => "C"
    case 1 => "C#"
    case 2 => "D"
    case 3 => "D#"
    case 4 => "E"
    case 5 => "F"
    case 6 => "F#"
    case 7 => "G"
    case 8 => "G#"
    case 9 => "A"
    case 10 => "A#"
    case 11 => "B"
    case 12 => "C"
    case 13 => "Db"
    case 14 => "D"
    case 15 => "Eb"
    case 16 => "E"
    case 17 => "F"
    case 18 => "Gb"
    case 19 => "G"
    case 20 => "Ab"
    case 21 => "A"
    case 22 => "Bb"
    case _ => "B"
  }

  const NoteNames: seq<string> := NoteTable()

  function NoteTable(): (t: seq<string>)
    ensures |t| == 24 && forall i :: 0 <= i < 24 ==> t[i] == NoteNameAt(i)
  {
    seq(24, i requires 0 <= i < 24 => NoteNameAt(i))
  }

  /** The thrown "Invalid pitch input" error, with the input as text. */
  datatype PitchError = InvalidPitch(input: string)

  /** `NOTE_NAMES[midi % 12]` with JavaScript's `%`: a negative remainder indexes nothing. */
  function NoteNameFromMidi(midi: int): Option<string> {
    var k := JsRem(midi, 12);
    if 0 <= k < |NoteNames| then Some(NoteNames[k]) else None
  }

  // The pattern /^([A-G][b#]?)(\d+)?$/i

  predicate IsNoteLetter(c: char) {
    ('A' <= c <= 'G') || ('a' <= c <= 'g')
  }

  predicate IsAccidental(c: char) {
    c == 'b' || c == 'B' || c == '#'
  }

  /** The two groups of a successful match; an absent octave group is the empty string. */
  datatype NameMatch = NameMatch(noteName: string, octaveDigits: string)

  function MatchNoteName(name: string): (r: Option<NameMatch>)
    ensures r.Some? ==> name == r.value.noteName + r.value.octaveDigits && AllDigits(r.value.octaveDigits)
  {
    if |name| == 0 || !IsNoteLetter(name[0]) then None
    else
      var k := if |name| >= 2 && IsAccidental(name[1]) then 2 else 1;
      if AllDigits(name[k..]) then Some(NameMatch(name[..k], name[k..])) else None
  }

  /** `getNoteMidiFromName`: `(index % 12) + (octave + 1) * 12`; digits in the name override `octave`. */
  function NoteMidiFromName(name: string, octave: int): Option<int> {
    match MatchNoteName(name)
    case None => None
    case Some(m) => NoteMidiFromMatch(m, octave)
  }

  /** The number for a matched name: the lookup of the note group, and the octave group if present. */
  function NoteMidiFromMatch(m: NameMatch, octave: int): Option<int>
    requires AllDigits(m.octaveDigits)
  {
    var idx := IndexOf(NoteNames, m.noteName);
    if idx == -1 then None
    else
      Some(idx % 12 + (OctaveOf(m.octaveDigits, octave) + 1) * 12)
  }

  /** The octave group when present, otherwise the octave given separately. */
  function OctaveOf(digits: string, octave: int): int
    requires AllDigits(digits)
  {
    if digits == [] then octave else DigitsValue(digits)
  }

  /** `getPitch` on a number. */
  function PitchFromMidi(midi: int): (r: Result<Pitch, PitchError>)
    ensures r.Ok? <==> (midi >= 0 || midi % 12 == 0)
    ensures r.Ok? ==> r.value.midi == midi && r.value.name == NoteNames[midi % 12]
    ensures r.Err? ==> r.error == InvalidPitch(IntToString(midi))
  {
    match NoteNameFromMidi(midi)
    case None => Err(InvalidPitch(IntToString(midi)))
    case Some(n) => Ok(Pitch(midi, n))
  }

  /** `getPitch` on a name, with the octave used when the name has no digits. */
  function PitchFromName(name: string, octave: int := 4): (r: Result<Pitch, PitchError>)
    ensures r.Ok? ==> PitchFromMidi(r.value.midi) == Ok(r.value)
    ensures r.Ok? <==> (NoteMidiFromName(name, octave).Some? && PitchFromMidi(NoteMidiFromName(name, octave).value).Ok?)
    ensures r.Err? ==> r.error == InvalidPitch(name)
  {
    match NoteMidiFromName(name, octave)
    case None => Err(InvalidPitch(name))
    case Some(midi) =>
      match NoteNameFromMidi(midi)
      case None => Err(InvalidPitch(name))
      case Some(n) => Ok(Pitch(midi, n))
  }

  // ---------------------------------------------------------------------------
  // Properties

  /** A note group the pattern accepts: a letter, then at most one accidental. */
  predicate IsNoteSpelling(n: string) {
    (|n| == 1 || |n| == 2) && IsNoteLetter(n[0]) && (|n| == 2 ==> IsAccidental(n[1]))
  }

  /** Every table entry is a capital letter, optionally followed by '#' or 'b'. */
  lemma {:induction false} NoteNameShape(k: nat)
    requires k < |NoteNames|
    ensures IsNoteSpelling(NoteNames[k])
    ensures var n := NoteNames[k];
      'A' <= n[0] <= 'G' && (|n| == 2 ==> n[1] == '#' || n[1] == 'b')
  {
  }

  /** A note group followed by digits splits into exactly those two groups. */
  lemma {:induction false} MatchSpelling(n: string, digits: string)
    requires IsNoteSpelling(n) && AllDigits(digits)
    ensures MatchNoteName(n + digits) == Some(NameMatch(n, digits))
  {
    var name := n + digits;
    if |n| == 2 {
      assert name[..2] == n && name[2..] == digits;
    } else {
      assert name[..1] == n && name[1..] == digits;
      assert |name| >= 2 ==> name[1] == digits[0];
    }
  }

  /** The pitch class of table entry `k`: its position within its half. */
  function ClassOf(k: nat): (c: nat)
    requires k < |NoteNames|
    ensures c < 12 && c == k % 12
  {
    if k < 12 then k else k - 12
  }

  /** Two entries spell the same text only within one pitch class. */
  lemma {:induction false} SameNameSameClass(j: nat, k: nat)
    requires j < |NoteNames| && k < |NoteNames|
    requires NoteNames[j] == NoteNames[k]
    ensures ClassOf(j) == ClassOf(k)
  {
  }

  /**
   * The first table position spelling the same text as entry `k`: the
   * flat half repeats the natural notes C, D, E, F, G, A and B.
   */
  function FirstSpelling(k: nat): (i: nat)
    requires k < |NoteNames|
    ensures i < |NoteNames|
  {
    if 12 <= k && k - 12 in {0, 2, 4, 5, 7, 9, 11} then k - 12 else k
  }

  lemma {:induction false} FirstSpellingIsFirst(k: nat)
    requires k < |NoteNames|
    ensures NoteNames[FirstSpelling(k)] == NoteNames[k]
    ensures NoteNames[k] !in NoteNames[..FirstSpelling(k)]
  {
  }

  lemma {:induction false} FirstSpellingClass(k: nat)
    requires k < |NoteNames|
    ensures FirstSpelling(k) % 12 == ClassOf(k)
  {
  }

  /** The lookup of a table spelling finds its first position, which lies in the entry's pitch class. */
  lemma {:induction false} IndexOfTableName(k: nat)
    requires k < |NoteNames|
    ensures IndexOf(NoteNames, NoteNames[k]) == FirstSpelling(k)
    ensures IndexOf(NoteNames, NoteNames[k]) >= 0 && IndexOf(NoteNames, NoteNames[k]) % 12 == ClassOf(k)
  {
    FirstSpellingIsFirst(k);
    FirstSpellingClass(k);
    IndexOfFirstOccurrence(NoteNames, NoteNames[k], FirstSpelling(k));
  }

  lemma {:induction false} NoteMidiOfFoundName(n: string, digits: string, octave: int, cls: nat)
    requires AllDigits(digits) && IndexOf(NoteNames, n) >= 0 && IndexOf(NoteNames, n) % 12 == cls
    ensures NoteMidiFromMatch(NameMatch(n, digits), octave)
         == Some(cls + (OctaveOf(digits, octave) + 1) * 12)
  {
  }

  lemma {:induction false} NoteMidiThroughMatch(name: string, m: NameMatch, octave: int)
    requires MatchNoteName(name) == Some(m)
    ensures NoteMidiFromName(name, octave) == NoteMidiFromMatch(m, octave)
  {
  }

  /**
   * A listed note group followed by digits parses to its pitch class in the
   * octave the digits give, or in `octave` when there are none.
   */
  lemma {:induction false} NoteMidiOfSpelling(n: string, digits: string, octave: int, cls: nat)
    requires IsNoteSpelling(n) && AllDigits(digits)
    requires IndexOf(NoteNames, n) >= 0 && IndexOf(NoteNames, n) % 12 == cls
    ensures NoteMidiFromName(n + digits, octave)
         == Some(cls + (OctaveOf(digits, octave) + 1) * 12)
  {
    MatchSpelling(n, digits);
    NoteMidiThroughMatch(n + digits, NameMatch(n, digits), octave);
    NoteMidiOfFoundName(n, digits, octave, cls);
  }

  /**
   * Parsing any table spelling gives `(index % 12) + (octave + 1) * 12`,
   * with the octave from the digits when there are any.
   */
  lemma {:induction false} NoteMidiOfTableName(k: nat, digits: string, octave: int)
    requires k < |NoteNames| && AllDigits(digits)
    ensures NoteMidiFromName(NoteNames[k] + digits, octave)
         == Some(ClassOf(k) + (OctaveOf(digits, octave) + 1) * 12)
  {
    NoteNameShape(k);
    IndexOfTableName(k);
    NoteMidiOfSpelling(NoteNames[k], digits, octave, ClassOf(k));
  }

  /** The sharp and the flat spelling of one pitch class parse to the same MIDI number, as "C#4" and "Db4" do. */
  lemma {:induction false} EnharmonicSpellingsAgree(k: nat, digits: string, octave: int)
    requires k < 12 && AllDigits(digits)
    ensures NoteMidiFromName(NoteNames[k] + digits, octave)
         == NoteMidiFromName(NoteNames[k + 12] + digits, octave)
  {
    NoteMidiOfTableName(k, digits, octave);
    NoteMidiOfTableName(k + 12, digits, octave);
  }

  /** A non-negative number is named with its sharp spelling. */
  lemma {:induction false} PitchNamesAreSharp(m: int)
    requires m >= 0
    ensures PitchFromMidi(m) == Ok(Pitch(m, NoteNames[m % 12]))
    ensures NoteNames[m % 12] in NoteNames[..12]
  {
  }

  /** From the unit tests of `getPitch` on numbers. */
  lemma {:induction false} PitchFromMidiExamples()
    ensures PitchFromMidi(48) == Ok(Pitch(48, "C"))
    ensures PitchFromMidi(60) == Ok(Pitch(60, "C"))
    ensures PitchFromMidi(61) == Ok(Pitch(61, "C#"))
    ensures PitchFromMidi(68) == Ok(Pitch(68, "G#"))
    ensures PitchFromMidi(-1).Err? && PitchFromMidi(-13).Err?
    ensures PitchFromMidi(-12) == Ok(Pitch(-12, "C"))
  {
  }

  /** A name that parses to a non-negative number gives the pitch of that number. */
  lemma {:induction false} PitchFromParsedName(name: string, octave: int, midi: int, cls: nat)
    requires NoteMidiFromName(name, octave) == Some(midi) && midi >= 0 && midi % 12 == cls
    ensures PitchFromName(name, octave) == Ok(Pitch(midi, NoteNames[cls]))
  {
  }

  lemma {:induction false} ClassOfMidi(cls: nat, octaves: int)
    requires cls < 12
    ensures (cls + octaves * 12) % 12 == cls
  {
  }

  /** The number of pitch class `k` in octave `octave` is named with entry `k`. */
  lemma {:induction false} PitchOfClass(k: nat, octave: int)
    requires k < 12 && k + (octave + 1) * 12 >= 0
    ensures PitchFromMidi(k + (octave + 1) * 12) == Ok(Pitch(k + (octave + 1) * 12, NoteNames[k]))
  {
    ClassOfMidi(k, octave + 1);
  }

  /** A listed note group with digits names the sharp spelling of its class, at the number it parses to. */
  lemma {:induction false} PitchOfSpelling(n: string, digits: string, octave: int, cls: nat)
    requires IsNoteSpelling(n) && AllDigits(digits) && cls < 12
    requires IndexOf(NoteNames, n) >= 0 && IndexOf(NoteNames, n) % 12 == cls
    requires cls + (OctaveOf(digits, octave) + 1) * 12 >= 0
    ensures PitchFromName(n + digits, octave) == Ok(Pitch(cls + (OctaveOf(digits, octave) + 1) * 12, NoteNames[cls]))
  {
    NoteMidiOfSpelling(n, digits, octave, cls);
    ClassOfMidi(cls, OctaveOf(digits, octave) + 1);
    PitchFromParsedName(n + digits, octave, cls + (OctaveOf(digits, octave) + 1) * 12, cls);
  }

  /** A listed note group alone names its class in the octave given separately. */
  lemma {:induction false} PitchOfBareSpelling(n: string, octave: int, cls: nat)
    requires IsNoteSpelling(n) && cls < 12
    requires IndexOf(NoteNames, n) >= 0 && IndexOf(NoteNames, n) % 12 == cls
    requires cls + (octave + 1) * 12 >= 0
    ensures PitchFromName(n, octave) == Ok(Pitch(cls + (octave + 1) * 12, NoteNames[cls]))
  {
    var none: string := [];
    PitchOfSpelling(n, none, octave, cls);
    assert n + none == n;
  }

  /**
   * Every table spelling, flat or sharp, followed by digits names the sharp
   * spelling of its pitch class at the number it parses to.
   */
  lemma {:induction false} PitchOfTableSpelling(k: nat, digits: string, octave: int)
    requires k < |NoteNames| && AllDigits(digits)
    requires ClassOf(k) + (OctaveOf(digits, octave) + 1) * 12 >= 0
    ensures PitchFromName(NoteNames[k] + digits, octave)
         == Ok(Pitch(ClassOf(k) + (OctaveOf(digits, octave) + 1) * 12, NoteNames[ClassOf(k)]))
  {
    NoteNameShape(k);
    IndexOfTableName(k);
    PitchOfSpelling(NoteNames[k], digits, octave, ClassOf(k));
  }

  /** From the unit tests of `getPitch` on names: the default octave is 4. */
  lemma {:induction false} PitchFromNameC()
    ensures PitchFromName("C") == Ok(Pitch(60, "C"))
  {
    assert NoteNames[0] == "C";
    IndexOfTableName(0);
    PitchOfBareSpelling("C", 4, 0);
  }

  lemma {:induction false} PitchFromNameE()
    ensures PitchFromName("E") == Ok(Pitch(64, "E"))
  {
    assert NoteNames[4] == "E";
    IndexOfTableName(4);
    PitchOfBareSpelling("E", 4, 4);
  }

  /** From the unit tests of `getPitch` on names: digits give the octave. */
  lemma {:induction false} PitchFromNameC2()
    ensures PitchFromName("C2") == Ok(Pitch(36, "C"))
  {
    assert NoteNames[0] == "C" && ClassOf(0) == 0 && OctaveOf("2", 4) == 2;
    assert "C" + "2" == "C2";
    PitchOfTableSpelling(0, "2", 4);
  }

  lemma {:induction false} PitchFromNameCSharp4()
    ensures PitchFromName("C#4") == Ok(Pitch(61, "C#"))
  {
    assert NoteNames[1] == "C#" && ClassOf(1) == 1 && OctaveOf("4", 4) == 4;
    assert "C#" + "4" == "C#4";
    PitchOfTableSpelling(1, "4", 4);
  }

  /** From the unit tests of `getPitch` on names: flats parse, and are named with sharps. */
  lemma {:induction false} PitchFromNameDFlat4()
    ensures PitchFromName("Db4") == Ok(Pitch(61, "C#"))
  {
    assert NoteNames[13] == "Db" && ClassOf(13) == 1 && NoteNames[1] == "C#" && OctaveOf("4", 4) == 4;
    assert "Db" + "4" == "Db4";
    PitchOfTableSpelling(13, "4", 4);
  }

  lemma {:induction false} PitchFromNameDFlat5()
    ensures PitchFromName("Db5") == Ok(Pitch(73, "C#"))
  {
    assert NoteNames[13] == "Db" && ClassOf(13) == 1 && NoteNames[1] == "C#" && OctaveOf("5", 4) == 5;
    assert "Db" + "5" == "Db5";
    PitchOfTableSpelling(13, "5", 4);
  }

  lemma {:induction false} PitchFromNameBFlat3()
    ensures PitchFromName("Bb3") == Ok(Pitch(58, "A#"))
  {
    assert NoteNames[22] == "Bb" && ClassOf(22) == 10 && NoteNames[10] == "A#" && OctaveOf("3", 4) == 3;
    assert "Bb" + "3" == "Bb3";
    PitchOfTableSpelling(22, "3", 4);
  }

  /** A name whose note group is not literally a table entry is refused. */
  lemma {:induction false} PitchFromUnlistedName(name: string, octave: int, m: NameMatch)
    requires MatchNoteName(name) == Some(m) && m.noteName !in NoteNames
    ensures PitchFromName(name, octave) == Err(InvalidPitch(name))
  {
    IndexOfIsFirst(NoteNames, m.noteName);
  }

  /** A lower-case letter matches the case-blind pattern but is not in the table. */
  lemma {:induction false} PitchFromNameLowerCase()
    ensures PitchFromName("c4") == Err(InvalidPitch("c4"))
  {
    var name := "c4";
    assert name[..1] == "c" && name[1..] == "4";
    PitchFromUnlistedName(name, 4, NameMatch("c", "4"));
  }

  /** E# has no entry in the table. */
  lemma {:induction false} PitchFromNameESharp()
    ensures PitchFromName("E#") == Err(InvalidPitch("E#"))
  {
    var name := "E#";
    assert name[..2] == name && name[2..] == [];
    PitchFromUnlistedName(name, 4, NameMatch(name, []));
  }

  /** Cb has no entry in the table. */
  lemma {:induction false} PitchFromNameCFlat()
    ensures PitchFromName("Cb") == Err(InvalidPitch("Cb"))
  {
    var name := "Cb";
    assert name[..2] == name && name[2..] == [];
    PitchFromUnlistedName(name, 4, NameMatch(name, []));
  }

  /** An upper-case flat sign matches the case-blind pattern, but "BB" is not in the table. */
  lemma {:induction false} PitchFromNameUpperFlat()
    ensures PitchFromName("BB") == Err(InvalidPitch("BB"))
  {
    var name := "BB";
    assert name[..2] == name && name[2..] == [];
    PitchFromUnlistedName(name, 4, NameMatch(name, []));
  }

  /** A name the pattern refuses is refused. */
  lemma {:induction false} PitchFromUnmatchedName(name: string, octave: int)
    requires MatchNoteName(name) == None
    ensures PitchFromName(name, octave) == Err(InvalidPitch(name))
  {
  }

  /** Names the pattern itself refuses: a letter past G, a signed octave, and nothing at all. */
  lemma {:induction false} PitchFromNameNoMatch()
    ensures PitchFromName("H") == Err(InvalidPitch("H"))
    ensures PitchFromName("C-1") == Err(InvalidPitch("C-1"))
    ensures PitchFromName("") == Err(InvalidPitch(""))
  {
    var h, c := "H", "C-1";
    assert !IsNoteLetter(h[0]);
    PitchFromUnmatchedName(h, 4);
    assert !IsAccidental(c[1]) && c[1..] == "-1" && !IsDigit(c[1]);
    PitchFromUnmatchedName(c, 4);
    PitchFromUnmatchedName("", 4);
  }

  /**
   * Naming pitch class `k` in octave `octave` and parsing the name back
   * gives the number `k + (octave + 1) * 12`, which names the same pitch.
   */
  lemma {:induction false} NameRoundTrip(k: nat, octave: int)
    requires k < 12 && k + (octave + 1) * 12 >= 0
    ensures PitchFromName(NoteNames[k], octave) == PitchFromMidi(k + (octave + 1) * 12)
  {
    NoteNameShape(k);
    IndexOfTableName(k);
    PitchOfBareSpelling(NoteNames[k], octave, k);
    PitchOfClass(k, octave);
  }

  /** The same round trip with the octave written into the name, as in "E2". */
  lemma {:induction false} NameWithOctaveRoundTrip(k: nat, octave: nat)
    requires k < 12
    ensures PitchFromName(NoteNames[k] + NatToString(octave)) == PitchFromMidi(k + (octave + 1) * 12)
  {
    DigitsValueOfNatToString(octave);
    NoteNameShape(k);
    IndexOfTableName(k);
    PitchOfSpelling(NoteNames[k], NatToString(octave), 4, k);
    PitchOfClass(k, octave);
  }

  /**
   * Any non-negative number survives naming and parsing: the name, read in
   * octave `m / 12 - 1`, gives `m` back.
   */
  lemma {:induction false} MidiRoundTrip(m: nat)
    ensures PitchFromMidi(m).Ok?
    ensures PitchFromName(PitchFromMidi(m).value.name, m / 12 - 1) == PitchFromMidi(m)
  {
    var k, octave := m % 12, m / 12 - 1;
    assert m == k + (octave + 1) * 12;
    PitchNamesAreSharp(m);
    NameRoundTrip(k, octave);
  }

  /** A sharp-half spelling followed by one octave digit, as the built-in tunings are written. */
  lemma {:induction false} PitchOfNameAndDigit(k: nat, d: nat, name: string, p: Pitch)
    requires k < 12 && d < 10
    requires name == NoteNames[k] + [DigitChar(d)] && p == Pitch(k + (d + 1) * 12, NoteNames[k])
    ensures PitchFromName(name) == Ok(p)
  {
    var digits := [DigitChar(d)];
    assert IsDigit(digits[0]);
    assert digits[..0] == [];
    assert DigitsValue(digits) == d;
    assert ClassOf(k) == k;
    PitchOfTableSpelling(k, digits, 4);
  }
}
