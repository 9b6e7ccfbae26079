/**
 * Conversion between semitone counts and interval names through a 24-entry
 * table covering two octaves, with one extra spelling ("bb7") accepted by
 * name only.
 */
module Intervals {
  import opened Wrappers
  import opened JsBuiltins

  /** Entry `i` of the table; positions past the end read as the last entry. */
  function IntervalNameAt(i: nat): string {
    match i
    case 0 => "1"
    case 1 => "b2"
    case 2 => "2"
    case 3 => "b3"
    case 4 => "3"
    case 5 => "4"
    case 6 => "b5"
    case 7 => "5"
    case 8 => "#5"
    case 9 => "6"
    case 10 => "b7"
    case 11 => "7"
    case 12 => "8"
    case 13 => "b9"
    case 14 => "9"
    case 15 => "#9"
    case 16 => "10"
    case 17 => "11"
    case 18 => "#11"
    case 19 => "12"
    case 20 => "b13"
    case 21 => "13"
    case 22 => "#13"
    case _ => "14"
  }

  const IntervalNames: seq<string> := IntervalTable()

  function IntervalTable(): (t: seq<string>)
    ensures |t| == 24 && forall i :: 0 <= i < 24 ==> t[i] == IntervalNameAt(i)
  {
    seq(24, i requires 0 <= i < 24 => IntervalNameAt(i))
  }

  /** Spellings accepted by name but never produced. */
  const UncommonIntervals: map<string, int> := map["bb7" := 9]

  /** The thrown "Invalid semitones" and "Invalid interval" errors. */
  datatype IntervalError = InvalidSemitones(semitones: int) | InvalidInterval(interval: string)

  /**
   * `getInterval`: the entry at `semitones % 24` with JavaScript's `%`, so a
   * negative count names nothing unless it is a multiple of 24.
   */
  function IntervalOf(semitones: int): (r: Result<string, IntervalError>)
    ensures r.Ok? <==> semitones >= 0 || semitones % 24 == 0
    ensures r.Ok? ==> r.value == IntervalNames[semitones % 24]
    ensures r.Err? ==> r.error == InvalidSemitones(semitones)
  {
    var k := JsRem(semitones, |IntervalNames|);
    if 0 <= k < |IntervalNames| then Ok(IntervalNames[k]) else Err(InvalidSemitones(semitones))
  }

  /** `getSemitones`: the first table position of the name, else the extra spelling, else an error. */
  function SemitonesOf(interval: string): (r: Result<int, IntervalError>)
    ensures r.Ok? ==> 0 <= r.value < |IntervalNames|
    ensures r.Err? ==> r.error == InvalidInterval(interval)
  {
    var index := IndexOf(IntervalNames, interval);
    if index != -1 then Ok(index)
    else if interval in UncommonIntervals then Ok(UncommonIntervals[interval])
    else Err(InvalidInterval(interval))
  }

  // ---------------------------------------------------------------------------
  // Properties

  /** No name occurs twice in the table. */
  lemma {:induction false} IntervalNamesDistinct(i: nat, j: nat)
    requires i < j < |IntervalNames|
    ensures IntervalNames[i] != IntervalNames[j]
  {
  }

  /** For counts that name something, adding two octaves names the same interval. */
  lemma {:induction false} IntervalOfPeriodic(semitones: int)
    requires semitones >= 0
    ensures IntervalOf(semitones + 24) == IntervalOf(semitones)
  {
    assert (semitones + 24) % 24 == semitones % 24;
  }

  /** A negative count is refused unless it is a multiple of 24, which names the unison. */
  lemma {:induction false} IntervalOfNegative()
    ensures IntervalOf(-1) == Err(InvalidSemitones(-1))
    ensures IntervalOf(-25) == Err(InvalidSemitones(-25))
    ensures IntervalOf(-24) == Ok("1")
  {
  }

  /** Every table position is found again from its name. */
  lemma {:induction false} SemitonesOfTableName(s: nat)
    requires s < |IntervalNames|
    ensures SemitonesOf(IntervalNames[s]) == Ok(s)
  {
    forall i | 0 <= i < s
      ensures IntervalNames[..s][i] != IntervalNames[s]
    {
      IntervalNamesDistinct(i, s);
    }
    IndexOfFirstOccurrence(IntervalNames, IntervalNames[s], s);
  }

  /** Naming a count below 24 and reading the name back gives the count. */
  lemma {:induction false} IntervalRoundTrip(s: nat)
    requires s < |IntervalNames|
    ensures IntervalOf(s).Ok? && SemitonesOf(IntervalOf(s).value) == Ok(s)
  {
    assert IntervalOf(s) == Ok(IntervalNames[s]) by {
      assert s % 24 == s;
    }
    SemitonesOfTableName(s);
  }

  /** Reading a table name and naming the count gives the name back. */
  lemma {:induction false} SemitonesRoundTrip(interval: string)
    requires interval in IntervalNames
    ensures SemitonesOf(interval).Ok? && IntervalOf(SemitonesOf(interval).value) == Ok(interval)
  {
    IndexOfIsFirst(IntervalNames, interval);
    var r := IndexOf(IntervalNames, interval);
    assert SemitonesOf(interval) == Ok(r);
    assert IntervalOf(r) == Ok(IntervalNames[r]) by {
      assert r % 24 == r;
    }
  }

  /** A name is accepted exactly when it is in the table or is the extra spelling. */
  lemma {:induction false} SemitonesOfAccepts(interval: string)
    ensures SemitonesOf(interval).Ok? <==> interval in IntervalNames || interval in UncommonIntervals
  {
    IndexOfIsFirst(IntervalNames, interval);
  }

  /** "bb7" reads as 9 semitones, but 9 is named "6": the two directions disagree there. */
  lemma {:induction false} DoubleFlatSevenIsSixth()
    ensures SemitonesOf("bb7") == Ok(9)
    ensures IntervalOf(9) == Ok("6")
    ensures IntervalOf(SemitonesOf("bb7").value) != Ok("bb7")
  {
    assert "bb7" !in IntervalNames by {
      forall i | 0 <= i < |IntervalNames|
        ensures IntervalNames[i] != "bb7"
      {
      }
    }
    IndexOfIsFirst(IntervalNames, "bb7");
  }

  /** A name in neither table is refused. */
  lemma {:induction false} SemitonesOfUnknown()
    ensures SemitonesOf("x") == Err(InvalidInterval("x"))
    ensures SemitonesOf("b1") == Err(InvalidInterval("b1"))
  {
    assert "x" !in IntervalNames && "b1" !in IntervalNames by {
      forall i | 0 <= i < |IntervalNames|
        ensures IntervalNames[i] != "x" && IntervalNames[i] != "b1"
      {
      }
    }
    SemitonesOfAccepts("x");
    SemitonesOfAccepts("b1");
  }
}
