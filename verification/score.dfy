/** The part of a music21 score the notation code inspects, and
    `validate_score`. */
module Score {
  import opened Constants

  datatype KeySpec = KeySpec(tonic: string, mode: string)

  /** Non-note elements a part carries. */
  datatype Marker =
    | InstrumentMark(instrument: Instrument)
    | KeyMark(key: KeySpec)
    | TimeMark(meter: string)
    | TempoMark(bpm: int)
    | Unclassified

  /** A part element. Durations are quarter lengths counted in halves. */
  datatype Element =
    | Note(pitch: string, halves: int)
    | Rest(halves: int)
    | Other(marker: Marker)

  type Part = seq<Element>

  datatype Score = Score(title: string, composer: string, parts: seq<Part>)

  /** What `validate_score` may be handed: None, a Score, or any other
      object. */
  datatype PyObject = PyNone | ScoreObject(score: Score) | NonScore

  /** Whether some element of the part is a pitched note. */
  predicate HasNote(part: Part)
    ensures HasNote(part) <==> exists k :: 0 <= k < |part| && part[k].Note?
  {
    if |part| == 0 then false
    else part[0].Note? || (assert forall k :: 1 <= k < |part| ==> part[1..][k - 1] == part[k]; HasNote(part[1..]))
  }

  /** `validate_score`: a Score whose first part holds a pitched note. */
  function ValidateScore(x: PyObject): (ok: bool)
    ensures ok <==> (x.ScoreObject? && |x.score.parts| > 0
                     && exists k :: 0 <= k < |x.score.parts[0]| && x.score.parts[0][k].Note?)
  {
    match x
    case ScoreObject(s) => |s.parts| > 0 && HasNote(s.parts[0])
    case _ => false
  }

  /** Rests and markers added to the first part, and any later parts, do
      not change the verdict; None, non-scores and part-less scores fail. */
  lemma ValidateIgnoresRestsAndLaterParts(title: string, composer: string, first: Part, extra: Part, later: seq<Part>)
    requires forall k :: 0 <= k < |extra| ==> !extra[k].Note?
    ensures ValidateScore(ScoreObject(Score(title, composer, [first + extra] + later)))
        == ValidateScore(ScoreObject(Score(title, composer, [first])))
    ensures !ValidateScore(PyNone) && !ValidateScore(NonScore)
    ensures !ValidateScore(ScoreObject(Score(title, composer, [])))
  {
    var p := first + extra;
    assert ([p] + later)[0] == p;
    assert [first][0] == first;
    if HasNote(p) {
      var k :| 0 <= k < |p| && p[k].Note?;
      assert k < |first|;
      assert first[k].Note?;
    }
    if HasNote(first) {
      var k :| 0 <= k < |first| && first[k].Note?;
      assert p[k] == first[k];
    }
  }
}
