/**
 * Attributing a transcript segment to a speaker (app.py
 * `get_speaker_for_segment`). The diarization engine's output is a sequence of
 * turns in its own enumeration order, or nothing at all when the engine failed.
 * Times are whole milliseconds; the midpoint `(start + end) / 2` is compared
 * doubled, `2 * turn.start <= start + end <= 2 * turn.end`, so that it stays exact.
 */
module Diarization {
  import opened Wrappers

  /** One diarization turn: a closed time interval and the speaker label the engine gave it. */
  datatype Turn = Turn(start: nat, end: nat, speaker: string)

  /** The label of a segment whose speaker could not be determined. */
  const Unknown: string := "Unknown"

  /** The turn's closed interval `[start, end]` holds the segment's midpoint. */
  predicate HoldsMidpoint(turn: Turn, start: nat, end: nat) {
    2 * turn.start <= start + end <= 2 * turn.end
  }

  /** Index of the first turn, in enumeration order, that holds the midpoint. */
  function FirstHolding(turns: seq<Turn>, start: nat, end: nat): (r: Option<nat>)
    ensures r.Some? ==> r.value < |turns| && HoldsMidpoint(turns[r.value], start, end)
    ensures r.Some? ==> forall j :: 0 <= j < r.value ==> !HoldsMidpoint(turns[j], start, end)
    ensures r.None? <==> forall j :: 0 <= j < |turns| ==> !HoldsMidpoint(turns[j], start, end)
  {
    if turns == [] then None
    else if HoldsMidpoint(turns[0], start, end) then Some(0)
    else match FirstHolding(turns[1..], start, end)
      case None => None
      case Some(i) => Some(i + 1)
  }

  /**
   * The speaker of a segment: `Unknown` without diarization or when no turn
   * holds the midpoint, otherwise the speaker of the first turn that does.
   */
  function SpeakerForSegment(diarization: Option<seq<Turn>>, start: nat, end: nat): (speaker: string)
    ensures diarization.None? ==> speaker == Unknown
    ensures diarization.Some? ==>
      (forall j :: 0 <= j < |diarization.value| ==> !HoldsMidpoint(diarization.value[j], start, end)) ==>
      speaker == Unknown
    ensures diarization.Some? ==> forall i :: 0 <= i < |diarization.value| ==>
      HoldsMidpoint(diarization.value[i], start, end) &&
      (forall j :: 0 <= j < i ==> !HoldsMidpoint(diarization.value[j], start, end)) ==>
      speaker == diarization.value[i].speaker
  {
    match diarization
    case None => Unknown
    case Some(turns) =>
      match FirstHolding(turns, start, end)
      case None => Unknown
      case Some(i) => turns[i].speaker
  }

  /**
   * Both ends of a turn are inclusive: a midpoint exactly on a turn's end (or
   * start) is attributed to that turn when no earlier turn holds it.
   */
  lemma BoundaryIsInclusive(turns: seq<Turn>, i: nat, start: nat, end: nat)
    requires i < |turns| && turns[i].start <= turns[i].end
    requires start + end == 2 * turns[i].end || start + end == 2 * turns[i].start
    requires forall j :: 0 <= j < i ==> !HoldsMidpoint(turns[j], start, end)
    ensures SpeakerForSegment(Some(turns), start, end) == turns[i].speaker
  {
  }

  /**
   * Overlapping turns: when two turns hold the midpoint, the one the engine
   * enumerates first decides, whatever the other says.
   */
  lemma FirstOverlapWins(a: Turn, b: Turn, rest: seq<Turn>, start: nat, end: nat)
    requires HoldsMidpoint(a, start, end) && HoldsMidpoint(b, start, end)
    ensures SpeakerForSegment(Some([a, b] + rest), start, end) == a.speaker
  {
  }
}
