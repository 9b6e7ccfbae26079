/**
 * Placing a track on a staff: every event gets its rhythm beams, a
 * horizontal position and a width, every note a vertical position on its
 * string's line. Positions and widths are exact reals. The two helpers the
 * layout takes from the music utilities, `durationToUnits` (a duration as a
 * fraction of a whole note) and `groupEventsByBeat` (a measure's events cut
 * into beat groups), are not part of this model: they are parameters.
 */
module Layout {
  import opened Wrappers
  import opened MusicTypes

  // ---------------------------------------------------------------------------
  // Beams

  function Pow2(n: nat): (r: nat)
    ensures r >= 1
  {
    if n == 0 then 1 else 2 * Pow2(n - 1)
  }

  /** The base-2 logarithm of `x`, rounded down. */
  function Log2(x: nat): nat
    requires x >= 1
  {
    if x == 1 then 0 else 1 + Log2(x / 2)
  }

  /** `beamLevelCount`: eighths have one beam, sixteenths two, and so on; longer notes none. */
  function BeamLevelCount(duration: Duration): (r: nat)
    ensures r == 0 <==> duration.value < 8
    ensures r > 0 ==> 4 * Pow2(r) == duration.value
  {
    if duration.value < 8 then 0 else Log2(duration.value / 4)
  }

  datatype BeamType = Connected | PartialLeft | PartialRight | Flag

  datatype Beam = Beam(level: nat, beamType: BeamType)

  /**
   * The beam at `level` of an event whose neighbours in its group have
   * `prev` and `next` levels (0 for no neighbour): joined to the next event,
   * left out when the previous event's beam already reaches it, else a stub
   * towards whichever neighbour has beams, else a flag.
   */
  function BeamAt(level: nat, prev: nat, next: nat): Option<Beam> {
    if level <= next then Some(Beam(level, Connected))
    else if level <= prev then None
    else if prev > 0 then Some(Beam(level, PartialLeft))
    else if next > 0 then Some(Beam(level, PartialRight))
    else Some(Beam(level, Flag))
  }

  /** The beams at levels 1 to `count`, lowest first, the left-out ones dropped. */
  function Beams(count: nat, prev: nat, next: nat): seq<Beam>
    decreases count
  {
    if count == 0 then []
    else
      var below := Beams(count - 1, prev, next);
      match BeamAt(count, prev, next)
      case None => below
      case Some(b) => below + [b]
  }

  /** An event of the track and the beams drawn for it. */
  datatype BeamedEvent = BeamedEvent(event: Event, beams: seq<Beam>)

  /** The beam levels of the event at `index` in `group`, 0 outside the group. */
  function LevelAt(group: seq<Event>, index: int): nat {
    if 0 <= index < |group| then BeamLevelCount(group[index].duration) else 0
  }

  /** The beams of every event of one beat group. */
  function GroupBeams(group: seq<Event>): (r: seq<BeamedEvent>)
    ensures |r| == |group|
  {
    seq(|group|, i requires 0 <= i < |group| =>
      BeamedEvent(group[i], Beams(LevelAt(group, i), LevelAt(group, i - 1), LevelAt(group, i + 1))))
  }

  /** `layoutBeams`: the groups' beamed events one after the other. */
  function LayoutBeams(groups: seq<seq<Event>>): seq<BeamedEvent>
    decreases |groups|
  {
    if groups == [] then []
    else LayoutBeams(groups[..|groups| - 1]) + GroupBeams(groups[|groups| - 1])
  }

  function Flatten(groups: seq<seq<Event>>): seq<Event>
    decreases |groups|
  {
    if groups == [] then [] else Flatten(groups[..|groups| - 1]) + groups[|groups| - 1]
  }

  function EventsOf(beamed: seq<BeamedEvent>): (r: seq<Event>)
    ensures |r| == |beamed|
  {
    seq(|beamed|, i requires 0 <= i < |beamed| => beamed[i].event)
  }

  // ---------------------------------------------------------------------------
  // Placement

  /** The layout options, with the defaults below; `layoutWidth` is accepted but unused. */
  datatype LayoutOptions = LayoutOptions(
    optimalQuarterNoteWidth: real,
    staffLineHeight: real,
    layoutWidth: real,
    beatDuration: Duration)

  /** The options the placement reads: all but `layoutWidth`. */
  datatype Spacing = Spacing(optimalQuarterNoteWidth: real, staffLineHeight: real, beatDuration: Duration)

  function SpacingOf(options: LayoutOptions): Spacing {
    Spacing(options.optimalQuarterNoteWidth, options.staffLineHeight, options.beatDuration)
  }

  const DefaultLayoutOptions: LayoutOptions := LayoutOptions(44.0, 14.0, 800.0, Duration(Quarter, false, None))

  /** `durationToUnits`: a duration as a fraction of a whole note. */
  type Units = Duration -> real

  /** `groupEventsByBeat`: a measure's events cut into groups of one beat. */
  type Grouping = (seq<Event>, Duration) -> seq<seq<Event>>

  datatype LaidOutNote = LaidOutNote(note: Note, y: real)

  datatype LaidOutEvent = LaidOutEvent(
    duration: Duration,
    notes: seq<LaidOutNote>,
    beams: seq<Beam>,
    x: real,
    width: real)

  datatype LaidOutMeasure = LaidOutMeasure(
    timeSignature: TimeSignature,
    x: real,
    width: real,
    events: seq<LaidOutEvent>)

  datatype StaffLine = StaffLine(y: real)

  datatype LaidOutStaff = LaidOutStaff(measures: seq<LaidOutMeasure>, lines: seq<StaffLine>, height: real)

  datatype LaidOutTrack = LaidOutTrack(tuning: Tuning, capo: Option<int>, staffs: seq<LaidOutStaff>)

  /** `getDurationWidth`: a quarter note is `optimalQuarterNoteWidth` wide, other durations in proportion. */
  function DurationWidth(duration: Duration, quarterWidth: real, units: Units): real {
    (units(duration) / 0.25) * quarterWidth
  }

  /** The staff lines, string `n - 1` at the top. */
  function StaffLines(stringCount: nat, lineHeight: real): (r: seq<StaffLine>)
    ensures |r| == stringCount
  {
    seq(stringCount, i requires 0 <= i < stringCount => StaffLine(i as real * lineHeight))
  }

  /** From the top line to the bottom line, plus one for the line's own thickness. */
  function StaffHeight(stringCount: int, lineHeight: real): real {
    (stringCount - 1) as real * lineHeight + 1.0
  }

  /** A note on its string's line: string 0 is the lowest line. */
  function NoteY(stringCount: int, stringIndex: int, lineHeight: real): real {
    (stringCount - stringIndex - 1) as real * lineHeight
  }

  function LayOutNotes(notes: seq<Note>, stringCount: int, lineHeight: real): (r: seq<LaidOutNote>)
    ensures |r| == |notes|
  {
    seq(|notes|, i requires 0 <= i < |notes| => LaidOutNote(notes[i], NoteY(stringCount, notes[i].stringIndex, lineHeight)))
  }

  /** The total width of `beamed`. */
  function WidthOf(beamed: seq<BeamedEvent>, quarterWidth: real, units: Units): real
    decreases |beamed|
  {
    if beamed == [] then 0.0
    else WidthOf(beamed[..|beamed| - 1], quarterWidth, units) + DurationWidth(beamed[|beamed| - 1].event.duration, quarterWidth, units)
  }

  /** The events of `beamed` side by side from `x`. */
  function LayOutEvents(beamed: seq<BeamedEvent>, x: real, stringCount: int, spacing: Spacing, units: Units): (r: seq<LaidOutEvent>)
    decreases |beamed|
    ensures |r| == |beamed|
  {
    if beamed == [] then []
    else
      var init := beamed[..|beamed| - 1];
      var last := beamed[|beamed| - 1];
      LayOutEvents(init, x, stringCount, spacing, units) +
        [LaidOutEvent(
          last.event.duration,
          LayOutNotes(last.event.notes, stringCount, spacing.staffLineHeight),
          last.beams,
          x + WidthOf(init, spacing.optimalQuarterNoteWidth, units),
          DurationWidth(last.event.duration, spacing.optimalQuarterNoteWidth, units))]
  }

  /** The beamed events of a measure, beat group by beat group. */
  function BeamedEventsOf(measure: Measure, spacing: Spacing, grouping: Grouping): seq<BeamedEvent> {
    LayoutBeams(grouping(measure.events, spacing.beatDuration))
  }

  /** Half a quarter note's width of lead-in, then the events. */
  function MeasureWidth(measure: Measure, spacing: Spacing, units: Units, grouping: Grouping): real {
    spacing.optimalQuarterNoteWidth / 2.0 +
      WidthOf(BeamedEventsOf(measure, spacing, grouping), spacing.optimalQuarterNoteWidth, units)
  }

  function MeasuresWidth(measures: seq<Measure>, spacing: Spacing, units: Units, grouping: Grouping): real
    decreases |measures|
  {
    if measures == [] then 0.0
    else MeasuresWidth(measures[..|measures| - 1], spacing, units, grouping) + MeasureWidth(measures[|measures| - 1], spacing, units, grouping)
  }

  function LayOutMeasure(measure: Measure, x: real, stringCount: int, spacing: Spacing, units: Units, grouping: Grouping): LaidOutMeasure {
    LaidOutMeasure(
      measure.timeSignature,
      x,
      MeasureWidth(measure, spacing, units, grouping),
      LayOutEvents(BeamedEventsOf(measure, spacing, grouping), x + spacing.optimalQuarterNoteWidth / 2.0, stringCount, spacing, units))
  }

  /** The measures side by side from 0. */
  function LayOutMeasures(measures: seq<Measure>, stringCount: int, spacing: Spacing, units: Units, grouping: Grouping): (r: seq<LaidOutMeasure>)
    decreases |measures|
    ensures |r| == |measures|
  {
    if measures == [] then []
    else
      var init := measures[..|measures| - 1];
      LayOutMeasures(init, stringCount, spacing, units, grouping) +
        [LayOutMeasure(measures[|measures| - 1], MeasuresWidth(init, spacing, units, grouping), stringCount, spacing, units, grouping)]
  }

  /** `layoutTrack`: one staff holding every measure, a line per string. */
  function LayoutTrackSpec(track: Track, options: LayoutOptions, units: Units, grouping: Grouping): LaidOutTrack {
    var n := |track.tuning|;
    var h := options.staffLineHeight;
    LaidOutTrack(
      track.tuning,
      track.capo,
      [LaidOutStaff(LayOutMeasures(track.measures, n, SpacingOf(options), units, grouping), StaffLines(n, h), StaffHeight(n, h))])
  }

  /** `layoutTrack`: a running x carried across the measures and their events. */
  method LayoutTrack(track: Track, options: LayoutOptions, units: Units, grouping: Grouping) returns (laidOut: LaidOutTrack)
    ensures laidOut == LayoutTrackSpec(track, options, units, grouping)
  {
    var stringCount := |track.tuning|;
    var h := options.staffLineHeight;
    var staffLines := StaffLines(stringCount, h);
    var staffHeight := StaffHeight(stringCount, h);
    var spacing := SpacingOf(options);
    var measures := track.measures;
    var currentX := 0.0;
    var laidOutMeasures: seq<LaidOutMeasure> := [];
    for i := 0 to |measures|
      invariant currentX == MeasuresWidth(measures[..i], spacing, units, grouping)
      invariant laidOutMeasures == LayOutMeasures(measures[..i], stringCount, spacing, units, grouping)
    {
      LayOutMeasuresStep(measures, i, stringCount, spacing, units, grouping);
      var laidOutMeasure;
      laidOutMeasure, currentX := PlaceMeasure(measures[i], currentX, stringCount, spacing, units, grouping);
      laidOutMeasures := laidOutMeasures + [laidOutMeasure];
    }
    assert measures[..|measures|] == measures;
    LayoutTrackSpecOf(track, options, units, grouping, laidOutMeasures);
    laidOut := LaidOutTrack(track.tuning, track.capo, [LaidOutStaff(laidOutMeasures, staffLines, staffHeight)]);
  }

  /** The callback `layoutTrack` maps over the measures: the measure at `currentX`, and the x after it. */
  method PlaceMeasure(measure: Measure, currentX: real, stringCount: int, spacing: Spacing, units: Units, grouping: Grouping)
    returns (laidOut: LaidOutMeasure, nextX: real)
    ensures laidOut == LayOutMeasure(measure, currentX, stringCount, spacing, units, grouping)
    ensures nextX == currentX + MeasureWidth(measure, spacing, units, grouping)
  {
    var measureX := currentX;
    nextX := currentX + spacing.optimalQuarterNoteWidth / 2.0;
    var beamed := BeamedEventsOf(measure, spacing, grouping);
    var laidOutEvents;
    laidOutEvents, nextX := PlaceEvents(beamed, nextX, stringCount, spacing, units);
    laidOut := LaidOutMeasure(measure.timeSignature, measureX, nextX - measureX, laidOutEvents);
  }

  lemma LayoutTrackSpecOf(track: Track, options: LayoutOptions, units: Units, grouping: Grouping, laidOutMeasures: seq<LaidOutMeasure>)
    requires laidOutMeasures == LayOutMeasures(track.measures, |track.tuning|, SpacingOf(options), units, grouping)
    ensures LayoutTrackSpec(track, options, units, grouping) == LaidOutTrack(track.tuning, track.capo,
      [LaidOutStaff(laidOutMeasures, StaffLines(|track.tuning|, options.staffLineHeight), StaffHeight(|track.tuning|, options.staffLineHeight))])
  {
  }

  lemma {:induction false} LayOutMeasuresStep(measures: seq<Measure>, i: nat, stringCount: int, spacing: Spacing, units: Units, grouping: Grouping)
    requires i < |measures|
    ensures MeasuresWidth(measures[..i + 1], spacing, units, grouping) ==
      MeasuresWidth(measures[..i], spacing, units, grouping) + MeasureWidth(measures[i], spacing, units, grouping)
    ensures LayOutMeasures(measures[..i + 1], stringCount, spacing, units, grouping) ==
      LayOutMeasures(measures[..i], stringCount, spacing, units, grouping) +
      [LayOutMeasure(measures[i], MeasuresWidth(measures[..i], spacing, units, grouping), stringCount, spacing, units, grouping)]
  {
    assert measures[..i + 1][..i] == measures[..i];
  }

  /** The inner loop of `layoutTrack`: the events side by side from `x`, and the x after the last. */
  method PlaceEvents(beamed: seq<BeamedEvent>, x: real, stringCount: int, spacing: Spacing, units: Units)
    returns (laidOutEvents: seq<LaidOutEvent>, currentX: real)
    ensures laidOutEvents == LayOutEvents(beamed, x, stringCount, spacing, units)
    ensures currentX == x + WidthOf(beamed, spacing.optimalQuarterNoteWidth, units)
  {
    var qw := spacing.optimalQuarterNoteWidth;
    currentX := x;
    laidOutEvents := [];
    for j := 0 to |beamed|
      invariant currentX == x + WidthOf(beamed[..j], qw, units)
      invariant laidOutEvents == LayOutEvents(beamed[..j], x, stringCount, spacing, units)
    {
      assert beamed[..j + 1][..j] == beamed[..j];
      var event := beamed[j].event;
      var eventWidth := DurationWidth(event.duration, qw, units);
      laidOutEvents := laidOutEvents + [LaidOutEvent(
        event.duration,
        LayOutNotes(event.notes, stringCount, spacing.staffLineHeight),
        beamed[j].beams,
        currentX,
        eventWidth)];
      currentX := currentX + eventWidth;
    }
    assert beamed[..|beamed|] == beamed;
  }

  // ---------------------------------------------------------------------------
  // Properties of the beams

  /** An event with `count` levels draws at most one beam per level from 1 to `count`, lowest first, each as classified. */
  lemma {:induction false} BeamsSpec(count: nat, prev: nat, next: nat)
    decreases count
    ensures forall i, j :: 0 <= i < j < |Beams(count, prev, next)| ==> Beams(count, prev, next)[i].level < Beams(count, prev, next)[j].level
    ensures forall b :: b in Beams(count, prev, next) ==> 1 <= b.level <= count && BeamAt(b.level, prev, next) == Some(b)
    ensures forall level :: 1 <= level <= count && BeamAt(level, prev, next).Some? ==> BeamAt(level, prev, next).value in Beams(count, prev, next)
  {
    if count > 0 {
      BeamsSpec(count - 1, prev, next);
    }
  }

  /** The classification in words: a level is left out exactly when the next event does not reach it and the previous one does. */
  lemma BeamAtOmitted(level: nat, prev: nat, next: nat)
    ensures BeamAt(level, prev, next).None? <==> next < level <= prev
    ensures BeamAt(level, prev, next).Some? ==> BeamAt(level, prev, next).value.level == level
  {
  }

  /** The last event of a beat group has no following event to join, so none of its beams is connected. */
  lemma {:induction false} LastOfGroupNotConnected(group: seq<Event>)
    requires |group| >= 1
    ensures forall b :: b in GroupBeams(group)[|group| - 1].beams ==> b.beamType != Connected
  {
    var k := |group| - 1;
    BeamsSpec(LevelAt(group, k), LevelAt(group, k - 1), LevelAt(group, k + 1));
  }

  /** The first event of a beat group leaves no level out and has no stub to the left. */
  lemma {:induction false} FirstOfGroupDrawsEveryLevel(group: seq<Event>)
    requires |group| >= 1
    ensures |GroupBeams(group)[0].beams| == BeamLevelCount(group[0].duration)
    ensures forall b :: b in GroupBeams(group)[0].beams ==> b.beamType != PartialLeft
  {
    var count := BeamLevelCount(group[0].duration);
    BeamsAllDrawn(count, LevelAt(group, 1));
    BeamsSpec(count, 0, LevelAt(group, 1));
  }

  lemma {:induction false} BeamsAllDrawn(count: nat, next: nat)
    decreases count
    ensures |Beams(count, 0, next)| == count
  {
    if count > 0 {
      BeamsAllDrawn(count - 1, next);
    }
  }

  /**
   * A connected beam reaches the next event of the group, which draws that
   * level as connected or leaves it out: never as a stub or a flag.
   */
  lemma {:induction false} ConnectedBeamContinues(group: seq<Event>, k: nat, level: nat)
    requires k < |group| && Beam(level, Connected) in GroupBeams(group)[k].beams
    ensures k + 1 < |group| && level <= BeamLevelCount(group[k + 1].duration)
    ensures forall b :: b in GroupBeams(group)[k + 1].beams && b.level == level ==> b.beamType == Connected
  {
    BeamsSpec(LevelAt(group, k), LevelAt(group, k - 1), LevelAt(group, k + 1));
    assert BeamAt(level, LevelAt(group, k - 1), LevelAt(group, k + 1)) == Some(Beam(level, Connected));
    BeamsSpec(LevelAt(group, k + 1), LevelAt(group, k), LevelAt(group, k + 2));
  }

  /** Two eighths beamed together: the first carries the connected level-1 beam, the second nothing of its own. */
  lemma TwoEighths(first: Event, second: Event)
    requires first.duration.value == 8 && second.duration.value == 8
    ensures GroupBeams([first, second]) == [BeamedEvent(first, [Beam(1, Connected)]), BeamedEvent(second, [])]
  {
    var group := [first, second];
    assert BeamLevelCount(first.duration) == 1 && BeamLevelCount(second.duration) == 1;
    assert Beams(1, 0, 1) == [Beam(1, Connected)];
    assert Beams(1, 1, 0) == [];
  }

  /** `layoutBeams` keeps the events of the groups, in order, with nothing added or dropped. */
  lemma {:induction false} LayoutBeamsKeepsEvents(groups: seq<seq<Event>>)
    decreases |groups|
    ensures EventsOf(LayoutBeams(groups)) == Flatten(groups)
  {
    if groups != [] {
      var init := groups[..|groups| - 1];
      var last := groups[|groups| - 1];
      LayoutBeamsKeepsEvents(init);
      var a, b := LayoutBeams(init), GroupBeams(last);
      assert EventsOf(a + b) == EventsOf(a) + last;
    }
  }

  // ---------------------------------------------------------------------------
  // Properties of the placement

  /** `getDurationWidth` scales by four quarters to the whole note: a quarter is exactly `optimalQuarterNoteWidth` wide. */
  lemma DurationWidthSpec(duration: Duration, quarterWidth: real, units: Units)
    ensures DurationWidth(duration, quarterWidth, units) == units(duration) * 4.0 * quarterWidth
    ensures units(duration) == 0.25 ==> DurationWidth(duration, quarterWidth, units) == quarterWidth
  {
  }

  /** The events of a measure follow each other without gaps, starting at `x`, and end where their total width says. */
  lemma {:induction false} EventsContiguous(beamed: seq<BeamedEvent>, x: real, stringCount: int, spacing: Spacing, units: Units)
    decreases |beamed|
    ensures |beamed| >= 1 ==> LayOutEvents(beamed, x, stringCount, spacing, units)[0].x == x
    ensures forall k :: 0 <= k < |beamed| - 1 ==>
      LayOutEvents(beamed, x, stringCount, spacing, units)[k + 1].x ==
      LayOutEvents(beamed, x, stringCount, spacing, units)[k].x + LayOutEvents(beamed, x, stringCount, spacing, units)[k].width
    ensures |beamed| >= 1 ==>
      LayOutEvents(beamed, x, stringCount, spacing, units)[|beamed| - 1].x + LayOutEvents(beamed, x, stringCount, spacing, units)[|beamed| - 1].width ==
      x + WidthOf(beamed, spacing.optimalQuarterNoteWidth, units)
  {
    if beamed != [] {
      var init := beamed[..|beamed| - 1];
      EventsContiguous(init, x, stringCount, spacing, units);
      var r := LayOutEvents(beamed, x, stringCount, spacing, units);
      var s := LayOutEvents(init, x, stringCount, spacing, units);
      assert forall k :: 0 <= k < |s| ==> r[k] == s[k];
      if |init| >= 1 {
        assert init[..|init| - 1] == beamed[..|beamed| - 2];
      }
    }
  }

  /** The measures follow each other without gaps, starting at 0. */
  lemma {:induction false} MeasuresContiguous(measures: seq<Measure>, stringCount: int, spacing: Spacing, units: Units, grouping: Grouping)
    decreases |measures|
    ensures |measures| >= 1 ==> LayOutMeasures(measures, stringCount, spacing, units, grouping)[0].x == 0.0
    ensures forall i :: 0 <= i < |measures| - 1 ==>
      LayOutMeasures(measures, stringCount, spacing, units, grouping)[i + 1].x ==
      LayOutMeasures(measures, stringCount, spacing, units, grouping)[i].x + LayOutMeasures(measures, stringCount, spacing, units, grouping)[i].width
  {
    if measures != [] {
      var init := measures[..|measures| - 1];
      MeasuresContiguous(init, stringCount, spacing, units, grouping);
      var r := LayOutMeasures(measures, stringCount, spacing, units, grouping);
      var s := LayOutMeasures(init, stringCount, spacing, units, grouping);
      assert forall i :: 0 <= i < |s| ==> r[i] == s[i];
      if |init| >= 1 {
        assert init[..|init| - 1] == measures[..|measures| - 2];
      }
    }
  }

  /**
   * A measure's first event sits half a quarter note in, and the measure
   * ends where its last event ends; a measure without events is half a
   * quarter note wide.
   */
  lemma {:induction false} MeasureSpansItsEvents(measure: Measure, x: real, stringCount: int, spacing: Spacing, units: Units, grouping: Grouping)
    ensures |LayOutMeasure(measure, x, stringCount, spacing, units, grouping).events| == 0 ==>
      LayOutMeasure(measure, x, stringCount, spacing, units, grouping).width == spacing.optimalQuarterNoteWidth / 2.0
    ensures |LayOutMeasure(measure, x, stringCount, spacing, units, grouping).events| >= 1 ==>
      LayOutMeasure(measure, x, stringCount, spacing, units, grouping).events[0].x == x + spacing.optimalQuarterNoteWidth / 2.0
    ensures |LayOutMeasure(measure, x, stringCount, spacing, units, grouping).events| >= 1 ==>
      var m := LayOutMeasure(measure, x, stringCount, spacing, units, grouping);
      m.events[|m.events| - 1].x + m.events[|m.events| - 1].width == m.x + m.width
  {
    var beamed := BeamedEventsOf(measure, spacing, grouping);
    var start := x + spacing.optimalQuarterNoteWidth / 2.0;
    var m := LayOutMeasure(measure, x, stringCount, spacing, units, grouping);
    EventsContiguous(beamed, start, stringCount, spacing, units);
    assert m.events == LayOutEvents(beamed, start, stringCount, spacing, units);
    assert m.width == spacing.optimalQuarterNoteWidth / 2.0 + WidthOf(beamed, spacing.optimalQuarterNoteWidth, units);
    if beamed == [] {
      assert WidthOf(beamed, spacing.optimalQuarterNoteWidth, units) == 0.0;
    }
  }

  /** A note sits on its string's staff line, string 0 on the bottom line and the last string on the top one. */
  lemma NoteOnItsLine(stringCount: nat, stringIndex: nat, lineHeight: real)
    requires stringIndex < stringCount
    ensures NoteY(stringCount, stringIndex, lineHeight) == StaffLines(stringCount, lineHeight)[stringCount - 1 - stringIndex].y
  {
  }

  /** The staff has one line per string, `staffLineHeight` apart, and is as tall as its lines span plus one. */
  lemma StaffShape(stringCount: nat, lineHeight: real)
    ensures |StaffLines(stringCount, lineHeight)| == stringCount
    ensures forall i :: 0 <= i < stringCount - 1 ==>
      StaffLines(stringCount, lineHeight)[i + 1].y == StaffLines(stringCount, lineHeight)[i].y + lineHeight
    ensures stringCount >= 1 ==>
      StaffHeight(stringCount, lineHeight) == StaffLines(stringCount, lineHeight)[stringCount - 1].y + 1.0
  {
  }

  /** One staff holds every measure; tuning and capo are passed through; the layout width changes nothing. */
  lemma LayoutTrackShape(track: Track, options: LayoutOptions, units: Units, grouping: Grouping, layoutWidth: real)
    ensures var t := LayoutTrackSpec(track, options, units, grouping);
      t.tuning == track.tuning && t.capo == track.capo && |t.staffs| == 1 &&
      |t.staffs[0].measures| == |track.measures| && |t.staffs[0].lines| == |track.tuning|
    ensures LayoutTrackSpec(track, options.(layoutWidth := layoutWidth), units, grouping) == LayoutTrackSpec(track, options, units, grouping)
  {
  }
}
