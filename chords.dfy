/**
 * Chord naming: the sounding pitches of an event, one per MIDI number and
 * lowest first, are tried in turn as the root; the first root whose set of
 * pitch-class offsets, spelled "0-4-7", is in the chord table names the
 * chord. The table itself is a parameter.
 */
module Chords {
  import opened Wrappers
  import opened JsBuiltins
  import opened MusicTypes
  import opened Collections

  /** The chord table: offset signatures such as "0-4-7" to chord types such as "" or "m". */
  type ChordMap = map<string, string>

  /** The pitches of the fretted notes, in order; a muted string sounds nothing. */
  function SoundingPitches(notes: seq<Note>): (r: seq<Pitch>)
    ensures |r| <= |notes|
    ensures forall p :: p in r <==> exists n :: n in notes && n.Fretted? && n.pitch == p
  {
    if notes == [] then []
    else
      assert forall n :: n in notes <==> n == notes[0] || n in notes[1..];
      (if notes[0].Fretted? then [notes[0].pitch] else []) + SoundingPitches(notes[1..])
  }

  function MidiOf(p: Pitch): int {
    p.midi
  }

  /** `uniqBy(sortBy(pitches, midi), midi)`: one pitch per MIDI number, lowest first. */
  function DistinctPitches(notes: seq<Note>): seq<Pitch> {
    UniqBy(SortBy(SoundingPitches(notes), MidiOf), MidiOf)
  }

  /** `((pitch.midi % 12) - (root.midi % 12) + 12) % 12`, with JavaScript's `%`. */
  function Offset(pitch: Pitch, root: Pitch): int {
    JsRem(JsRem(pitch.midi, 12) - JsRem(root.midi, 12) + 12, 12)
  }

  function Offsets(pitches: seq<Pitch>, root: Pitch): seq<int> {
    seq(|pitches|, i requires 0 <= i < |pitches| => Offset(pitches[i], root))
  }

  function Identity(x: int): int {
    x
  }

  /** The distinct offsets from `root`, ascending: `sortBy(uniq(offsets))`. */
  function SignatureOffsets(pitches: seq<Pitch>, root: Pitch): seq<int> {
    SortBy(UniqBy(Offsets(pitches, root), Identity), Identity)
  }

  /** The chord table key for `root`: the offsets joined with "-". */
  function Signature(pitches: seq<Pitch>, root: Pitch): string {
    JoinNumbers(SignatureOffsets(pitches, root), "-")
  }

  /** The first position at or after `from` whose pitch, taken as the root, has a signature in the table. */
  function FindRoot(pitches: seq<Pitch>, from: nat, chordMap: ChordMap): (r: int)
    requires from <= |pitches|
    decreases |pitches| - from
    ensures r == -1 || from <= r < |pitches|
    ensures r >= 0 ==> Signature(pitches, pitches[r]) in chordMap
  {
    if from == |pitches| then -1
    else if Signature(pitches, pitches[from]) in chordMap then from
    else FindRoot(pitches, from + 1, chordMap)
  }

  /** `getChord`: nothing below three distinct pitches, else the chord of the first root the table knows. */
  function GetChord(notes: seq<Note>, chordMap: ChordMap): Option<Chord> {
    var pitches := DistinctPitches(notes);
    if |pitches| < 3 then None
    else
      var k := FindRoot(pitches, 0, chordMap);
      if k < 0 then None
      else
        var chordType := chordMap[Signature(pitches, pitches[k])];
        Some(Chord(pitches[k].name + chordType, chordType, notes))
  }

  // ---------------------------------------------------------------------------
  // Collecting the chords of a track

  function ChordName(c: Chord): string {
    c.name
  }

  /** The chords of the events that name one, in order. */
  function ChordsOfEvents(events: seq<Event>, chordMap: ChordMap): seq<Chord>
    decreases |events|
  {
    if events == [] then []
    else
      var found := GetChord(events[|events| - 1].notes, chordMap);
      ChordsOfEvents(events[..|events| - 1], chordMap) + (if found.Some? then [found.value] else [])
  }

  /** The chords of the measures, measure by measure. */
  function ChordsOfMeasures(measures: seq<Measure>, chordMap: ChordMap): seq<Chord>
    decreases |measures|
  {
    if measures == [] then []
    else ChordsOfMeasures(measures[..|measures| - 1], chordMap) + ChordsOfEvents(measures[|measures| - 1].events, chordMap)
  }

  /** `collectChords`: the chords in order, the first of every name kept. */
  function CollectChordsSpec(track: Track, chordMap: ChordMap): seq<Chord> {
    UniqBy(ChordsOfMeasures(track.measures, chordMap), ChordName)
  }

  /** `collectChords`: a loop over the measures pushing the chords of each. */
  method CollectChords(track: Track, chordMap: ChordMap) returns (chords: seq<Chord>)
    ensures chords == CollectChordsSpec(track, chordMap)
  {
    var found: seq<Chord> := [];
    var measures := track.measures;
    for i := 0 to |measures|
      invariant found == ChordsOfMeasures(measures[..i], chordMap)
    {
      var inMeasure := EventChords(measures[i].events, chordMap);
      ChordsOfMeasuresStep(measures, i, chordMap);
      found := found + inMeasure;
    }
    assert measures[..|measures|] == measures;
    chords := UniqBy(found, ChordName);
  }

  /** The inner loop of `collectChords`: the chord of every event that names one, in order. */
  method EventChords(events: seq<Event>, chordMap: ChordMap) returns (found: seq<Chord>)
    ensures found == ChordsOfEvents(events, chordMap)
  {
    found := [];
    for j := 0 to |events|
      invariant found == ChordsOfEvents(events[..j], chordMap)
    {
      var chord := GetChord(events[j].notes, chordMap);
      ChordsOfEventsStep(events, j, chordMap, chord);
      if chord.Some? {
        found := found + [chord.value];
      }
    }
    assert events[..|events|] == events;
  }

  lemma {:induction false} ChordsOfEventsStep(events: seq<Event>, j: nat, chordMap: ChordMap, chord: Option<Chord>)
    requires j < |events| && chord == GetChord(events[j].notes, chordMap)
    ensures ChordsOfEvents(events[..j + 1], chordMap) ==
      ChordsOfEvents(events[..j], chordMap) + (if chord.Some? then [chord.value] else [])
  {
    assert events[..j + 1][..j] == events[..j];
  }

  lemma {:induction false} ChordsOfMeasuresStep(measures: seq<Measure>, i: nat, chordMap: ChordMap)
    requires i < |measures|
    ensures ChordsOfMeasures(measures[..i + 1], chordMap) ==
      ChordsOfMeasures(measures[..i], chordMap) + ChordsOfEvents(measures[i].events, chordMap)
  {
    assert measures[..i + 1][..i] == measures[..i];
  }

  // ---------------------------------------------------------------------------
  // Properties

  /**
   * The candidate roots are the sounding pitches, strictly ascending by MIDI
   * number, so equal numbers (not equal pitch classes) are merged; every
   * sounding MIDI number is represented.
   */
  lemma {:induction false} DistinctPitchesSpec(notes: seq<Note>)
    ensures StrictlySortedBy(DistinctPitches(notes), MidiOf)
    ensures forall p :: p in DistinctPitches(notes) ==> exists n :: n in notes && n.Fretted? && n.pitch == p
    ensures forall n :: n in notes && n.Fretted? ==> exists p :: p in DistinctPitches(notes) && p.midi == n.pitch.midi
  {
    var sounding := SoundingPitches(notes);
    var sorted := SortBy(sounding, MidiOf);
    SortBySpec(sounding, MidiOf);
    UniqByOfSorted(sorted, MidiOf);
    UniqByKeepsFirst(sorted, MidiOf);
    forall p | p in DistinctPitches(notes)
      ensures exists n :: n in notes && n.Fretted? && n.pitch == p
    {
      assert p in sorted;
      assert p in multiset(sorted);
      assert p in sounding;
    }
    forall n | n in notes && n.Fretted?
      ensures exists p :: p in DistinctPitches(notes) && p.midi == n.pitch.midi
    {
      assert n.pitch in sounding;
      assert n.pitch in multiset(sorted);
      var j :| 0 <= j < |sorted| && sorted[j] == n.pitch;
      var i :| 0 <= i < |DistinctPitches(notes)| && MidiOf(DistinctPitches(notes)[i]) == MidiOf(sorted[j]);
      assert DistinctPitches(notes)[i] in DistinctPitches(notes);
    }
  }

  /** `FindRoot` finds the first root the table knows, and -1 exactly when there is none. */
  lemma {:induction false} FindRootIsFirst(pitches: seq<Pitch>, from: nat, chordMap: ChordMap)
    requires from <= |pitches|
    decreases |pitches| - from
    ensures forall j :: from <= j < |pitches| && (FindRoot(pitches, from, chordMap) == -1 || j < FindRoot(pitches, from, chordMap)) ==>
      Signature(pitches, pitches[j]) !in chordMap
  {
    if from < |pitches| {
      FindRootIsFirst(pitches, from + 1, chordMap);
    }
  }

  /**
   * `getChord` names a chord exactly when there are at least three distinct
   * pitches and one of them, as root, has a known signature; the chord is
   * that of the lowest such root, its name the root's name followed by the
   * type, and it carries the notes unchanged.
   */
  lemma {:induction false} GetChordSpec(notes: seq<Note>, chordMap: ChordMap)
    ensures GetChord(notes, chordMap).Some? <==>
      |DistinctPitches(notes)| >= 3 &&
      exists k :: 0 <= k < |DistinctPitches(notes)| && Signature(DistinctPitches(notes), DistinctPitches(notes)[k]) in chordMap
    ensures GetChord(notes, chordMap).Some? ==>
      exists k :: 0 <= k < |DistinctPitches(notes)| &&
        Signature(DistinctPitches(notes), DistinctPitches(notes)[k]) in chordMap &&
        (forall j :: 0 <= j < k ==> Signature(DistinctPitches(notes), DistinctPitches(notes)[j]) !in chordMap) &&
        GetChord(notes, chordMap).value == Chord(
          DistinctPitches(notes)[k].name + chordMap[Signature(DistinctPitches(notes), DistinctPitches(notes)[k])],
          chordMap[Signature(DistinctPitches(notes), DistinctPitches(notes)[k])],
          notes)
  {
    var pitches := DistinctPitches(notes);
    FindRootIsFirst(pitches, 0, chordMap);
    var k := FindRoot(pitches, 0, chordMap);
    if |pitches| >= 3 && k >= 0 {
      assert Signature(pitches, pitches[k]) in chordMap;
    }
  }

  /** Fewer than three distinct MIDI numbers never name a chord, whatever the table. */
  lemma {:induction false} GetChordNeedsThreePitches(notes: seq<Note>, chordMap: ChordMap)
    requires |DistinctPitches(notes)| < 3
    ensures GetChord(notes, chordMap) == None
  {
  }

  /**
   * For pitches with non-negative MIDI numbers, a signature lists distinct
   * offsets in ascending order, each between 0 and 11, starting with the
   * root's own offset 0.
   */
  lemma {:induction false} SignatureOffsetsShape(pitches: seq<Pitch>, root: Pitch)
    requires root in pitches
    requires forall p :: p in pitches ==> p.midi >= 0
    ensures StrictlySortedBy(SignatureOffsets(pitches, root), Identity)
    ensures forall i :: 0 <= i < |SignatureOffsets(pitches, root)| ==> 0 <= SignatureOffsets(pitches, root)[i] < 12
    ensures |SignatureOffsets(pitches, root)| >= 1 && SignatureOffsets(pitches, root)[0] == 0
  {
    var offsets := Offsets(pitches, root);
    forall i | 0 <= i < |offsets|
      ensures 0 <= offsets[i] < 12
    {
      assert pitches[i] in pitches;
    }
    var r :| 0 <= r < |pitches| && pitches[r] == root;
    assert offsets[r] == 0;
    DistinctOffsetsShape(offsets);
  }

  /** Sorting the distinct values of a list of offsets between 0 and 11 that contains 0. */
  lemma {:induction false} DistinctOffsetsShape(offsets: seq<int>)
    requires forall i :: 0 <= i < |offsets| ==> 0 <= offsets[i] < 12
    requires 0 in offsets
    ensures StrictlySortedBy(SortBy(UniqBy(offsets, Identity), Identity), Identity)
    ensures forall i :: 0 <= i < |SortBy(UniqBy(offsets, Identity), Identity)| ==> 0 <= SortBy(UniqBy(offsets, Identity), Identity)[i] < 12
    ensures |SortBy(UniqBy(offsets, Identity), Identity)| >= 1 && SortBy(UniqBy(offsets, Identity), Identity)[0] == 0
  {
    var unique := UniqBy(offsets, Identity);
    var r :| 0 <= r < |offsets| && offsets[r] == 0;
    UniqByKeepsFirst(offsets, Identity);
    OffsetsFrom(offsets, unique);
    var u :| 0 <= u < |unique| && Identity(unique[u]) == Identity(offsets[r]);
    SortBySpec(unique, Identity);
    SortedDistinctOffsets(unique, SortBy(unique, Identity), u);
  }

  /** A sorted permutation of distinct offsets between 0 and 11, one of them 0, ascends strictly from 0. */
  lemma {:induction false} SortedDistinctOffsets(unique: seq<int>, sorted: seq<int>, u: nat)
    requires forall i, j :: 0 <= i < j < |unique| ==> Identity(unique[i]) != Identity(unique[j])
    requires forall i :: 0 <= i < |unique| ==> 0 <= unique[i] < 12
    requires u < |unique| && unique[u] == 0
    requires multiset(sorted) == multiset(unique) && SortedBy(sorted, Identity)
    ensures StrictlySortedBy(sorted, Identity)
    ensures forall i :: 0 <= i < |sorted| ==> 0 <= sorted[i] < 12
    ensures |sorted| >= 1 && sorted[0] == 0
  {
    assert forall x :: x in sorted ==> x in unique by {
      forall x | x in sorted
        ensures x in unique
      {
        assert x in multiset(sorted);
      }
    }
    OffsetsFrom(unique, sorted);
    assert unique[u] in multiset(sorted);
    assert 0 in sorted;
    DistinctSortedIsStrict(unique, sorted);
    assert forall j :: 0 < j < |sorted| ==> Identity(sorted[0]) < Identity(sorted[j]);
  }

  /** Values drawn from a list of offsets between 0 and 11 are between 0 and 11. */
  lemma {:induction false} OffsetsFrom(xs: seq<int>, ys: seq<int>)
    requires forall i :: 0 <= i < |xs| ==> 0 <= xs[i] < 12
    requires forall y :: y in ys ==> y in xs
    ensures forall i :: 0 <= i < |ys| ==> 0 <= ys[i] < 12
  {
    forall i | 0 <= i < |ys|
      ensures 0 <= ys[i] < 12
    {
      assert ys[i] in ys;
      var k :| 0 <= k < |xs| && xs[k] == ys[i];
    }
  }

  /** Sorting a list without repeats gives a strictly ascending list. */
  lemma {:induction false} DistinctSortedIsStrict(unique: seq<int>, sorted: seq<int>)
    requires forall i, j :: 0 <= i < j < |unique| ==> Identity(unique[i]) != Identity(unique[j])
    requires multiset(sorted) == multiset(unique) && SortedBy(sorted, Identity)
    ensures StrictlySortedBy(sorted, Identity)
  {
    DistinctCountsOne(unique);
    forall i, j | 0 <= i < j < |sorted|
      ensures sorted[i] < sorted[j]
    {
      if sorted[i] == sorted[j] {
        CountTwo(sorted, i, j);
        assert false;
      }
    }
  }

  lemma {:induction false} DistinctCountsOne(xs: seq<int>)
    requires forall i, j :: 0 <= i < j < |xs| ==> Identity(xs[i]) != Identity(xs[j])
    decreases |xs|
    ensures forall v :: multiset(xs)[v] <= 1
  {
    if xs != [] {
      assert xs == [xs[0]] + xs[1..];
      assert forall i, j :: 0 <= i < j < |xs[1..]| ==> Identity(xs[1..][i]) != Identity(xs[1..][j]) by {
        forall i, j | 0 <= i < j < |xs[1..]|
          ensures Identity(xs[1..][i]) != Identity(xs[1..][j])
        {
          assert xs[1..][i] == xs[i + 1] && xs[1..][j] == xs[j + 1];
        }
      }
      DistinctCountsOne(xs[1..]);
      assert xs[0] !in xs[1..] by {
        forall k | 0 <= k < |xs[1..]|
          ensures xs[1..][k] != xs[0]
        {
          assert Identity(xs[0]) != Identity(xs[k + 1]);
        }
      }
    }
  }

  lemma {:induction false} CountTwo(xs: seq<int>, i: nat, j: nat)
    requires i < j < |xs| && xs[i] == xs[j]
    ensures multiset(xs)[xs[i]] >= 2
  {
    assert xs == xs[..j] + [xs[j]] + xs[j + 1..];
    assert xs[..j][i] == xs[i];
    assert xs[i] in multiset(xs[..j]);
  }

  /** `collectChords` keeps one chord per name, the first found, in the order found, and drops no name. */
  lemma {:induction false} CollectChordsSpecKeepsFirst(track: Track, chordMap: ChordMap)
    ensures forall i, j :: 0 <= i < j < |CollectChordsSpec(track, chordMap)| ==>
      CollectChordsSpec(track, chordMap)[i].name != CollectChordsSpec(track, chordMap)[j].name
    ensures forall c :: c in CollectChordsSpec(track, chordMap) ==> c in ChordsOfMeasures(track.measures, chordMap)
    ensures forall j :: 0 <= j < |ChordsOfMeasures(track.measures, chordMap)| ==>
      exists i :: 0 <= i < |CollectChordsSpec(track, chordMap)| &&
        CollectChordsSpec(track, chordMap)[i].name == ChordsOfMeasures(track.measures, chordMap)[j].name
    ensures forall j :: (0 <= j < |ChordsOfMeasures(track.measures, chordMap)| &&
      forall i :: 0 <= i < j ==> ChordsOfMeasures(track.measures, chordMap)[i].name != ChordsOfMeasures(track.measures, chordMap)[j].name) ==>
        ChordsOfMeasures(track.measures, chordMap)[j] in CollectChordsSpec(track, chordMap)
    ensures exists idx :: KeptInOrder(ChordsOfMeasures(track.measures, chordMap), ChordName, CollectChordsSpec(track, chordMap), idx)
  {
    var all := ChordsOfMeasures(track.measures, chordMap);
    var kept := CollectChordsSpec(track, chordMap);
    assert kept == UniqBy(all, ChordName);
    UniqByKeepsFirst(all, ChordName);
    UniqByInOrder(all, ChordName);
    forall j | 0 <= j < |all| && forall i :: 0 <= i < j ==> all[i].name != all[j].name
      ensures all[j] in kept
    {
      assert forall i :: 0 <= i < j ==> ChordName(all[i]) != ChordName(all[j]);
    }
  }

  /** Every chord any event names is among the chords of the track, in measure-then-event order. */
  lemma {:induction false} ChordsOfEventsSpec(events: seq<Event>, chordMap: ChordMap)
    decreases |events|
    ensures forall c :: c in ChordsOfEvents(events, chordMap) <==> exists e :: e in events && GetChord(e.notes, chordMap) == Some(c)
  {
    if events != [] {
      var init := events[..|events| - 1];
      ChordsOfEventsSpec(init, chordMap);
      assert forall e :: e in events <==> e in init || e == events[|events| - 1] by {
        assert events == init + [events[|events| - 1]];
      }
    }
  }

  lemma {:induction false} ChordsOfMeasuresSpec(measures: seq<Measure>, chordMap: ChordMap)
    decreases |measures|
    ensures forall c :: c in ChordsOfMeasures(measures, chordMap) <==>
      exists m, e :: m in measures && e in m.events && GetChord(e.notes, chordMap) == Some(c)
  {
    if measures != [] {
      var init := measures[..|measures| - 1];
      var last := measures[|measures| - 1];
      ChordsOfMeasuresSpec(init, chordMap);
      ChordsOfEventsSpec(last.events, chordMap);
      assert forall m :: m in measures <==> m in init || m == last by {
        assert measures == init + [last];
      }
    }
  }
}
