/** The instrument and duration tables of the notation package and the two
    lookups built on them. */
module Constants {

  /** The five supported instruments. */
  datatype Instrument = Trumpet | Piano | Violin | Clarinet | Flute

  function NameOf(i: Instrument): string {
    match i
    case Trumpet => "Trumpet"
    case Piano => "Piano"
    case Violin => "Violin"
    case Clarinet => "Clarinet"
    case Flute => "Flute"
  }

  const InstrumentNames: set<string> := {"Trumpet", "Piano", "Violin", "Clarinet", "Flute"}

  /** Clef by instrument name. */
  const InstrumentClefs: map<string, string> := map[
    "Trumpet" := "treble",
    "Piano" := "grand staff",
    "Violin" := "treble",
    "Clarinet" := "treble",
    "Flute" := "treble"
  ]

  /** Staff kind by instrument name. */
  const InstrumentStaves: map<string, string> := map[
    "Trumpet" := "staff",
    "Piano" := "grand staff",
    "Violin" := "staff",
    "Clarinet" := "staff",
    "Flute" := "staff"
  ]

  /** Eighth-note units to quarter lengths, with quarter lengths counted in
      halves (0.5 -> 1, 1.0 -> 2, 2.0 -> 4, 4.0 -> 8). */
  const DurationMap: map<int, int> := map[1 := 1, 2 := 2, 4 := 4, 8 := 8]

  /** The two instrument tables cover the same five names, the names of the
      `Instrument` values, and only Piano has a grand staff. */
  lemma TablesAgree()
    ensures InstrumentClefs.Keys == InstrumentNames == InstrumentStaves.Keys
    ensures forall n :: n in InstrumentClefs ==>
      (InstrumentClefs[n] == "grand staff" <==> n == "Piano")
    ensures forall n :: n in InstrumentClefs && n != "Piano" ==> InstrumentClefs[n] == "treble"
    ensures forall n :: n in InstrumentStaves ==>
      (InstrumentStaves[n] == "grand staff" <==> n == "Piano")
    ensures forall n :: n in InstrumentStaves && n != "Piano" ==> InstrumentStaves[n] == "staff"
    ensures forall i: Instrument :: NameOf(i) in InstrumentNames
  {
  }

  /** `get_clef_for_instrument`: the table entry, "treble" for an unknown
      name. */
  function ClefForInstrument(name: string): (clef: string)
    ensures clef == "grand staff" <==> name == "Piano"
    ensures clef != "grand staff" ==> clef == "treble"
    ensures name in InstrumentClefs ==> clef == InstrumentClefs[name]
  {
    if name in InstrumentClefs then InstrumentClefs[name] else "treble"
  }

  /** `get_instrument_music21`: the instrument of that name, Trumpet for an
      unknown name. */
  function InstrumentFor(name: string): (i: Instrument)
    ensures name in InstrumentNames ==> NameOf(i) == name
    ensures name !in InstrumentNames ==> i == Trumpet
  {
    if name == "Piano" then Piano
    else if name == "Violin" then Violin
    else if name == "Clarinet" then Clarinet
    else if name == "Flute" then Flute
    else Trumpet
  }

  /** Looking an instrument up by its own name gives it back. */
  lemma InstrumentNameRoundTrip(i: Instrument)
    ensures InstrumentFor(NameOf(i)) == i
  {
  }

  /** `duration_units_to_quarter_length`, in halves of a quarter: the table
      value for 1, 2, 4 and 8 units, `units * 0.5` otherwise. Either way the
      quarter length is half the unit count. */
  function DurationToHalves(units: int): (halves: int)
    ensures halves == units
  {
    if units in DurationMap then DurationMap[units] else units
  }

  /** The table has exactly the keys 1, 2, 4, 8, and each entry is the key
      times 0.5, so table and fallback agree; the four pinned values. */
  lemma DurationMapIsHalving()
    ensures DurationMap.Keys == {1, 2, 4, 8}
    ensures forall u :: u in DurationMap ==> DurationMap[u] == u
    ensures DurationToHalves(1) == 1 && DurationToHalves(2) == 2
    ensures DurationToHalves(4) == 4 && DurationToHalves(8) == 8
  {
  }
}
