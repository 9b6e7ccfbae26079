/**
 * Fretboard helpers: recognising standard tuning, the range of stopped frets
 * a chord uses, and the barre a chord diagram draws.
 */
module FretUtils {
  import opened Wrappers
  import opened JsBuiltins
  import opened MusicTypes
  import opened Tunings

  // ---------------------------------------------------------------------------
  // Standard tuning

  /** `isStandardTuning`: the MIDI numbers joined with "-" compare equal as text. */
  function IsStandardTuning(tuning: Tuning): bool {
    JoinNumbers(Midis(tuning), "-") == JoinNumbers(Midis(StandardTuning), "-")
  }

  /** Comparing the joined text is comparing the numbers: the tuning is standard exactly when it sounds E2 A2 D3 G3 B3 E4. */
  lemma {:induction false} IsStandardTuningIff(tuning: Tuning)
    ensures IsStandardTuning(tuning) <==> Midis(tuning) == [40, 45, 50, 55, 59, 64]
  {
    StandardTuningMidis();
    if IsStandardTuning(tuning) {
      JoinNumbersDashInjective(Midis(tuning), Midis(StandardTuning));
    }
  }

  // ---------------------------------------------------------------------------
  // The fretted range

  /** A note held down behind a fret: neither muted nor open. */
  predicate IsStopped(note: Note) {
    note.Fretted? && note.fret != 0
  }

  /** The frets of the stopped notes, in order. */
  function StoppedFrets(notes: seq<Note>): (r: seq<int>)
    decreases |notes|
  {
    if notes == [] then []
    else
      var last := notes[|notes| - 1];
      StoppedFrets(notes[..|notes| - 1]) + (if IsStopped(last) then [last.fret] else [])
  }

  /** The smallest of `xs`, `None` for an empty list. */
  function SeqMin(xs: seq<int>): Option<int>
    decreases |xs|
  {
    if xs == [] then None
    else
      var m := SeqMin(xs[..|xs| - 1]);
      if m.None? || xs[|xs| - 1] < m.value then Some(xs[|xs| - 1]) else m
  }

  /** The largest of `xs`, `None` for an empty list. */
  function SeqMax(xs: seq<int>): Option<int>
    decreases |xs|
  {
    if xs == [] then None
    else
      var m := SeqMax(xs[..|xs| - 1]);
      if m.None? || xs[|xs| - 1] > m.value then Some(xs[|xs| - 1]) else m
  }

  /** The lowest and the highest stopped fret, each absent when no note is stopped. */
  function LowestFret(notes: seq<Note>): Option<int> {
    SeqMin(StoppedFrets(notes))
  }

  function HighestFret(notes: seq<Note>): Option<int> {
    SeqMax(StoppedFrets(notes))
  }

  /** `getFrettedNoteRange`: one pass keeping the smallest and largest stopped fret seen so far. */
  method FrettedNoteRange(notes: seq<Note>) returns (lowest: Option<int>, highest: Option<int>)
    ensures lowest == LowestFret(notes) && highest == HighestFret(notes)
  {
    lowest, highest := None, None;
    for i := 0 to |notes|
      invariant lowest == SeqMin(StoppedFrets(notes[..i]))
      invariant highest == SeqMax(StoppedFrets(notes[..i]))
    {
      var note := notes[i];
      var frets := StoppedFrets(notes[..i]);
      assert notes[..i + 1][..i] == notes[..i];
      if note.Muted? || note.fret == 0 {
        assert StoppedFrets(notes[..i + 1]) == frets;
        continue;
      }
      var fret := note.fret;
      assert StoppedFrets(notes[..i + 1]) == frets + [fret];
      assert (frets + [fret])[..|frets|] == frets;
      if lowest.None? || fret < lowest.value {
        lowest := Some(fret);
      }
      if highest.None? || fret > highest.value {
        highest := Some(fret);
      }
    }
    assert notes[..|notes|] == notes;
  }

  /** The frets of the stopped notes are exactly the frets of the notes in `notes` that are stopped. */
  lemma {:induction false} StoppedFretsSpec(notes: seq<Note>)
    decreases |notes|
    ensures forall f :: f in StoppedFrets(notes) <==> exists n :: n in notes && IsStopped(n) && n.fret == f
  {
    if notes != [] {
      var init := notes[..|notes| - 1];
      StoppedFretsSpec(init);
      assert notes == init + [notes[|notes| - 1]];
      assert forall n :: n in notes <==> n in init || n == notes[|notes| - 1];
    }
  }

  /** `SeqMin` is absent only for the empty list, and is otherwise an element no larger than any other. */
  lemma {:induction false} SeqMinSpec(xs: seq<int>)
    decreases |xs|
    ensures SeqMin(xs).None? <==> xs == []
    ensures SeqMin(xs).Some? ==> SeqMin(xs).value in xs && forall x :: x in xs ==> SeqMin(xs).value <= x
  {
    if xs != [] {
      var init := xs[..|xs| - 1];
      SeqMinSpec(init);
      assert xs == init + [xs[|xs| - 1]];
    }
  }

  lemma {:induction false} SeqMaxSpec(xs: seq<int>)
    decreases |xs|
    ensures SeqMax(xs).None? <==> xs == []
    ensures SeqMax(xs).Some? ==> SeqMax(xs).value in xs && forall x :: x in xs ==> x <= SeqMax(xs).value
  {
    if xs != [] {
      var init := xs[..|xs| - 1];
      SeqMaxSpec(init);
      assert xs == init + [xs[|xs| - 1]];
    }
  }

  /**
   * Both ends are absent exactly when no note is stopped; otherwise they are
   * the frets of stopped notes, every stopped fret lies between them, and the
   * lowest does not exceed the highest.
   */
  lemma {:induction false} FretRangeSpec(notes: seq<Note>)
    ensures LowestFret(notes).None? <==> (forall n :: n in notes ==> !IsStopped(n))
    ensures HighestFret(notes).None? <==> LowestFret(notes).None?
    ensures LowestFret(notes).Some? ==>
      (exists n :: n in notes && IsStopped(n) && n.fret == LowestFret(notes).value) &&
      (exists n :: n in notes && IsStopped(n) && n.fret == HighestFret(notes).value) &&
      (forall n :: n in notes && IsStopped(n) ==> LowestFret(notes).value <= n.fret <= HighestFret(notes).value)
  {
    var frets := StoppedFrets(notes);
    StoppedFretsSpec(notes);
    SeqMinSpec(frets);
    SeqMaxSpec(frets);
    if frets != [] {
      assert frets[0] in frets;
    }
    forall n | n in notes && IsStopped(n)
      ensures n.fret in frets
    {
    }
  }

  // ---------------------------------------------------------------------------
  // The barre

  /** A bar across the strings `start` to `end` at `fret`. */
  datatype Barre = Barre(fret: int, start: int, end: int)

  /**
   * One step of the scan for a barre: a muted or open string ends the current
   * run, so does a fret below the run's fret; otherwise the note starts a run
   * or extends the current one to its string.
   */
  function ScanStep(run: Option<Barre>, note: Note): Option<Barre> {
    if note.Muted? || note.fret == 0 then None
    else if run.None? then Some(Barre(note.fret, note.stringIndex, note.stringIndex))
    else if note.fret < run.value.fret then None
    else Some(run.value.(end := note.stringIndex))
  }

  /** The run in progress after scanning `notes`. */
  function RunAfter(notes: seq<Note>): Option<Barre>
    decreases |notes|
  {
    if notes == [] then None
    else ScanStep(RunAfter(notes[..|notes| - 1]), notes[|notes| - 1])
  }

  /** `getBarre`: the run left at the end, when it spans more than two strings apart. */
  function BarreOf(notes: seq<Note>): Option<Barre> {
    var run := RunAfter(notes);
    if run.None? || run.value.end - run.value.start <= 2 then None else run
  }

  /** `getBarre`: one pass keeping the run in progress, then the width test. */
  method GetBarre(notes: seq<Note>) returns (barre: Option<Barre>)
    ensures barre == BarreOf(notes)
  {
    barre := None;
    for i := 0 to |notes|
      invariant barre == RunAfter(notes[..i])
    {
      assert notes[..i + 1][..i] == notes[..i];
      var note := notes[i];
      if note.Muted? || note.fret == 0 {
        barre := None;
        continue;
      }
      if barre.None? {
        barre := Some(Barre(note.fret, note.stringIndex, note.stringIndex));
      } else if note.fret < barre.value.fret {
        barre := None;
      } else {
        barre := Some(barre.value.(end := note.stringIndex));
      }
    }
    assert notes[..|notes|] == notes;
    if barre.None? || barre.value.end - barre.value.start <= 2 {
      barre := None;
    }
  }

  /** Whether `notes[s..]` is one unbroken run: every note stopped at a fret no lower than the first. */
  predicate UnbrokenRun(notes: seq<Note>, s: nat)
    requires s < |notes|
  {
    IsStopped(notes[s]) && forall k :: s <= k < |notes| ==> IsStopped(notes[k]) && notes[k].fret >= notes[s].fret
  }

  /** A run in progress started at some note `s` and has held unbroken since: its fret and first string are that note's, its last string the last note's. */
  lemma {:induction false} RunAfterShape(notes: seq<Note>)
    decreases |notes|
    ensures RunAfter(notes).Some? ==>
      exists s :: 0 <= s < |notes| && UnbrokenRun(notes, s) &&
        RunAfter(notes) == Some(Barre(notes[s].fret, notes[s].stringIndex, notes[|notes| - 1].stringIndex))
  {
    if notes != [] {
      var init := notes[..|notes| - 1];
      var last := notes[|notes| - 1];
      RunAfterShape(init);
      if RunAfter(notes).Some? {
        if RunAfter(init).None? {
          assert UnbrokenRun(notes, |notes| - 1);
        } else {
          var s :| 0 <= s < |init| && UnbrokenRun(init, s) &&
            RunAfter(init) == Some(Barre(init[s].fret, init[s].stringIndex, init[|init| - 1].stringIndex));
          assert forall k :: s <= k < |init| ==> notes[k] == init[k];
          assert UnbrokenRun(notes, s);
        }
      }
    }
  }

  /** Conversely, a list that is one unbroken run from its first note is scanned as that run. */
  lemma {:induction false} UnbrokenRunScanned(notes: seq<Note>)
    requires |notes| >= 1 && UnbrokenRun(notes, 0)
    decreases |notes|
    ensures RunAfter(notes) == Some(Barre(notes[0].fret, notes[0].stringIndex, notes[|notes| - 1].stringIndex))
  {
    if |notes| > 1 {
      var init := notes[..|notes| - 1];
      assert UnbrokenRun(init, 0) by {
        forall k | 0 <= k < |init|
          ensures IsStopped(init[k]) && init[k].fret >= init[0].fret
        {
          assert init[k] == notes[k];
        }
      }
      UnbrokenRunScanned(init);
    }
  }

  /** Once no run is in progress, what came before is forgotten. */
  lemma {:induction false} RunAfterForgets(before: seq<Note>, after: seq<Note>)
    requires RunAfter(before).None?
    decreases |after|
    ensures RunAfter(before + after) == RunAfter(after)
  {
    if after != [] {
      var init := after[..|after| - 1];
      assert (before + after)[..|before + after| - 1] == before + init;
      RunAfterForgets(before, init);
    } else {
      assert before + after == before;
    }
  }

  /** A muted or open string, or a fret below the run's fret, cancels the run: only the notes after it decide the barre. */
  lemma {:induction false} BarreAfterBreak(before: seq<Note>, note: Note, after: seq<Note>)
    requires !IsStopped(note) || (RunAfter(before).Some? && note.fret < RunAfter(before).value.fret)
    ensures BarreOf(before + [note] + after) == BarreOf(after)
  {
    assert (before + [note])[..|before|] == before;
    RunAfterForgets(before + [note], after);
  }

  /**
   * A reported barre spans strings more than two apart and is a final
   * unbroken run: it carries the run's first fret, which no fret in the run
   * undercuts, and spans from the run's first string to the last note's.
   */
  lemma {:induction false} BarreOfSpec(notes: seq<Note>)
    ensures BarreOf(notes).Some? ==>
      BarreOf(notes).value.end - BarreOf(notes).value.start > 2 &&
      exists s :: 0 <= s < |notes| && UnbrokenRun(notes, s) &&
        BarreOf(notes).value == Barre(notes[s].fret, notes[s].stringIndex, notes[|notes| - 1].stringIndex)
  {
    RunAfterShape(notes);
  }

  /**
   * Conversely, a final unbroken run that starts the list or follows a muted
   * or open string, and whose strings are more than two apart, is the barre.
   */
  lemma {:induction false} FinalRunIsBarre(notes: seq<Note>, s: nat)
    requires s < |notes| && UnbrokenRun(notes, s)
    requires s == 0 || !IsStopped(notes[s - 1])
    requires notes[|notes| - 1].stringIndex - notes[s].stringIndex > 2
    ensures BarreOf(notes) == Some(Barre(notes[s].fret, notes[s].stringIndex, notes[|notes| - 1].stringIndex))
  {
    var tail := notes[s..];
    assert UnbrokenRun(tail, 0) by {
      forall k | 0 <= k < |tail|
        ensures IsStopped(tail[k]) && tail[k].fret >= tail[0].fret
      {
        assert tail[k] == notes[s + k];
      }
    }
    UnbrokenRunScanned(tail);
    if s > 0 {
      var before := notes[..s - 1];
      assert notes == before + [notes[s - 1]] + tail;
      assert (before + [notes[s - 1]])[..|before|] == before;
      RunAfterForgets(before + [notes[s - 1]], tail);
    } else {
      assert notes == tail;
    }
  }
}
