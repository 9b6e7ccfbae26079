/**
 * The integer logic of a chord diagram: which fret the window starts at,
 * whether the nut is drawn, which notes are marked and at which fret row,
 * and where the barre goes. Pixel coordinates are not modelled.
 */
module ChordDiagram {
  import opened Wrappers
  import opened MusicTypes
  import opened FretUtils

  /** The number of fret rows the diagram shows. */
  const Frets: int := 5

  /** `adjustFretNumber`: a fret as a row of the window starting at `position`, row 1 at the top. */
  function AdjustFretNumber(fret: int, position: Option<int>): int {
    if position.None? then fret else fret - position.value + 1
  }

  /** The window starts at the lowest stopped fret, but only when the highest would not fit in the first five rows. */
  function Position(notes: seq<Note>): Option<int> {
    var lowest := LowestFret(notes);
    var highest := HighestFret(notes);
    if lowest.Some? && highest.Some? && highest.value > Frets then lowest else None
  }

  /** What is drawn for one note. */
  datatype Mark =
    | MutedMark(stringIndex: int)
    | OpenMark(stringIndex: int)
    | FretMark(stringIndex: int, row: int)

  /** The mark of a note, or nothing for a stopped note below the window. */
  function MarkOf(note: Note, position: Option<int>): Option<Mark> {
    if note.Muted? then Some(MutedMark(note.stringIndex))
    else if note.fret == 0 then Some(OpenMark(note.stringIndex))
    else
      var row := AdjustFretNumber(note.fret, position);
      if row > Frets then None else Some(FretMark(note.stringIndex, row))
  }

  function Marks(notes: seq<Note>, position: Option<int>): seq<Mark>
    decreases |notes|
  {
    if notes == [] then []
    else
      var rest := Marks(notes[..|notes| - 1], position);
      match MarkOf(notes[|notes| - 1], position)
      case None => rest
      case Some(m) => rest + [m]
  }

  /** The barre line: its strings, and its fret as a row of the window. */
  datatype BarreLine = BarreLine(start: int, end: int, row: int)

  /** The diagram of a chord: the window's starting fret (shown as "5fr"), the nut, the marks and the barre. */
  datatype Diagram = Diagram(position: Option<int>, nut: bool, marks: seq<Mark>, barre: Option<BarreLine>)

  /**
   * `ChordDiagram`, less the drawing. The nut is drawn, and no window is
   * set, exactly when every stopped note fits in the first five rows.
   */
  function DiagramOf(chord: Chord): (d: Diagram)
    ensures d.nut <==> d.position.None?
    ensures d.nut <==> forall n :: n in chord.notes && IsStopped(n) ==> n.fret <= Frets
  {
    PositionSpec(chord.notes);
    var position := Position(chord.notes);
    var barre := BarreOf(chord.notes);
    Diagram(
      position,
      position.None?,
      Marks(chord.notes, position),
      if barre.None? then None
      else Some(BarreLine(barre.value.start, barre.value.end, AdjustFretNumber(barre.value.fret, position))))
  }

  // ---------------------------------------------------------------------------
  // Properties

  /** Without a window the fret is its own row; with one, the window's first fret is row 1 and rows follow the frets. */
  lemma AdjustFretNumberSpec(fret: int, position: Option<int>)
    ensures position.None? ==> AdjustFretNumber(fret, position) == fret
    ensures position.Some? ==> AdjustFretNumber(position.value, position) == 1
    ensures forall f :: AdjustFretNumber(f + 1, position) == AdjustFretNumber(f, position) + 1
  {
  }

  /**
   * The window is set exactly when some stopped fret is above 5, and then
   * it starts at the lowest stopped fret.
   */
  lemma {:induction false} PositionSpec(notes: seq<Note>)
    ensures Position(notes).Some? <==> exists n :: n in notes && IsStopped(n) && n.fret > Frets
    ensures Position(notes).Some? ==>
      (exists n :: n in notes && IsStopped(n) && n.fret == Position(notes).value) &&
      forall n :: n in notes && IsStopped(n) ==> Position(notes).value <= n.fret
  {
    FretRangeSpec(notes);
  }

  /** With a window, the lowest stopped note sits on row 1 and every stopped note on row 1 or below. */
  lemma {:induction false} PositionedRowsStartAtOne(notes: seq<Note>)
    requires Position(notes).Some?
    ensures exists n :: n in notes && IsStopped(n) && AdjustFretNumber(n.fret, Position(notes)) == 1
    ensures forall n :: n in notes && IsStopped(n) ==> AdjustFretNumber(n.fret, Position(notes)) >= 1
  {
    PositionSpec(notes);
  }

  /** Without a window, every stopped fret is at most 5: every note is marked. */
  lemma {:induction false} UnpositionedAllMarked(notes: seq<Note>)
    requires Position(notes).None?
    ensures forall n :: n in notes ==> MarkOf(n, Position(notes)).Some?
  {
    PositionSpec(notes);
  }

  /** Muted and open strings are always marked; a stopped note is marked exactly when its row is at most 5. */
  lemma MarkOfSpec(note: Note, position: Option<int>)
    ensures !IsStopped(note) ==> MarkOf(note, position).Some?
    ensures IsStopped(note) ==>
      (MarkOf(note, position).Some? <==> AdjustFretNumber(note.fret, position) <= Frets)
    ensures MarkOf(note, position).Some? ==> MarkOf(note, position).value.stringIndex == note.stringIndex
  {
  }

  /** The marks are those of the notes, with the notes below the window left out. */
  lemma {:induction false} MarksSpec(notes: seq<Note>, position: Option<int>)
    decreases |notes|
    ensures |Marks(notes, position)| <= |notes|
    ensures forall n :: n in notes && MarkOf(n, position).Some? ==> MarkOf(n, position).value in Marks(notes, position)
    ensures forall m :: m in Marks(notes, position) ==> exists n :: n in notes && MarkOf(n, position) == Some(m)
  {
    if notes != [] {
      var init := notes[..|notes| - 1];
      MarksSpec(init, position);
      assert notes == init + [notes[|notes| - 1]];
      assert forall n :: n in notes <==> n in init || n == notes[|notes| - 1];
    }
  }

  /** The barre line is there exactly when the notes have a barre, on the same strings, at that fret's row. */
  lemma DiagramBarre(chord: Chord)
    ensures DiagramOf(chord).barre.Some? <==> BarreOf(chord.notes).Some?
    ensures BarreOf(chord.notes).Some? ==>
      DiagramOf(chord).barre.value.start == BarreOf(chord.notes).value.start &&
      DiagramOf(chord).barre.value.end == BarreOf(chord.notes).value.end &&
      DiagramOf(chord).barre.value.row == AdjustFretNumber(BarreOf(chord.notes).value.fret, Position(chord.notes))
  {
  }

  /** A barre's row is in the window: at row 1 or below, whether or not there is a window. */
  lemma {:induction false} BarreRowInWindow(chord: Chord)
    requires BarreOf(chord.notes).Some? && BarreOf(chord.notes).value.fret > 0
    ensures DiagramOf(chord).barre.value.row >= 1
  {
    var notes := chord.notes;
    BarreOfSpec(notes);
    var s :| 0 <= s < |notes| && UnbrokenRun(notes, s) &&
      BarreOf(notes).value == Barre(notes[s].fret, notes[s].stringIndex, notes[|notes| - 1].stringIndex);
    assert notes[s] in notes;
    PositionSpec(notes);
  }
}
