/** `json_to_music21_score`: note items in, a one-part score out, with
    `parse_key_signature` and `parse_time_signature` reduced to their
    fallback logic. */
module Ingest {
  import opened Wrappers
  import opened Text
  import opened Json
  import opened Constants
  import opened Score

  /** The collaborators the builder calls but this model does not define:
      `json.loads`, `clean_note_string`, whether `note_name_to_midi`
      accepts a name, `str()` of floats, lists and dicts, and whether
      music21 accepts a key (tonic, mode) or a time-signature string. */
  datatype Theory = Theory(
    loads: string -> Option<Json>,
    clean: string -> string,
    isNoteName: string -> bool,
    repr: Json -> string,
    keyOk: (string, string) -> bool,
    meterOk: string -> bool)

  /** `parse_key_signature`: tonic and lower-cased mode from the first two
      words; C major when there are fewer than two words or music21
      rejects them. */
  function ParseKeySignature(s: string, th: Theory): (k: KeySpec)
    ensures |SplitWords(s)| < 2 ==> k == KeySpec("C", "major")
    ensures k != KeySpec("C", "major") ==>
      |SplitWords(s)| >= 2 && k.tonic == SplitWords(s)[0] && k.mode == AsciiLower(SplitWords(s)[1])
      && th.keyOk(k.tonic, k.mode)
  {
    var words := SplitWords(s);
    if |words| >= 2 && th.keyOk(words[0], AsciiLower(words[1])) then
      KeySpec(words[0], AsciiLower(words[1]))
    else KeySpec("C", "major")
  }

  /** A key given as a single word (no mode) falls back to C major. */
  lemma SingleWordKeyIsCMajor(s: string, th: Theory)
    requires |s| > 0 && NoSpace(s)
    ensures ParseKeySignature(s, th) == KeySpec("C", "major")
  {
    SplitWordsOfWord(s);
  }

  /** `parse_time_signature`: the string when music21 accepts it, else
      "4/4". */
  function ParseTimeSignature(s: string, th: Theory): string {
    if th.meterOk(s) then s else "4/4"
  }

  /** Unpacks one item to (note value, duration units): a dict supplies
      `note` (default "C4") and `duration` (default 2); anything else must
      unpack to exactly two values, as a two-element list or a
      two-character string does. None when unpacking or `int()` raises. */
  function Unpack(item: Json): Option<(Json, int)> {
    match item
    case JObj(fields) => UnpackDict(Get(fields, "note"), Get(fields, "duration"))
    case JArr(xs) =>
      if |xs| != 2 then None
      else
        var units := PyInt(xs[1]);
        if units.Some? then Some((xs[0], units.value)) else None
    case JStr(s) =>
      if |s| != 2 then None
      else
        var units := PyInt(JStr([s[1]]));
        if units.Some? then Some((JStr([s[0]]), units.value)) else None
    case _ => None
  }

  /** A dict item, from its "note" and "duration" lookups. */
  function UnpackDict(note: Option<Json>, duration: Option<Json>): Option<(Json, int)> {
    var units := PyInt(duration.ValueOr(JInt(2)));
    if units.Some? then Some((note.ValueOr(JStr("C4")), units.value)) else None
  }

  /** An empty dict is a quarter-note C4; a two-character string such as
      "C4" unpacks character by character. */
  lemma UnpackDefaults()
    ensures Unpack(JObj([])) == Some((JStr("C4"), 2))
    ensures Unpack(JStr("C4")) == Some((JStr("C"), 4))
  {
    assert Strip("4") == "4";
    assert DigitsValue("4") == 4;
  }

  /** One pass of the note loop: the note it appends, or None when the item
      is skipped. */
  function ConvertItem(item: Json, th: Theory): (r: Option<Element>)
    ensures r.Some? ==> r.value.Note? && th.isNoteName(r.value.pitch)
    ensures r.Some? <==>
      Unpack(item).Some? && th.isNoteName(th.clean(PyStr(Unpack(item).value.0, th.repr)))
    ensures r.Some? ==>
      r.value == Note(th.clean(PyStr(Unpack(item).value.0, th.repr)), DurationToHalves(Unpack(item).value.1))
  {
    ConvertUnpacked(Unpack(item), th)
  }

  /** The items the loop skips whatever their contents: a dict whose
      duration `int()` rejects, a list or string that does not unpack to
      two values, and a null, boolean or number. */
  lemma UnreadableItemsSkipped(fields: seq<(string, Json)>, xs: seq<Json>, s: string, b: bool, i: int, m: int, e: int, th: Theory)
    ensures PyInt(Get(fields, "duration").ValueOr(JInt(2))).None? ==> ConvertItem(JObj(fields), th).None?
    ensures |xs| != 2 ==> ConvertItem(JArr(xs), th).None?
    ensures |s| != 2 ==> ConvertItem(JStr(s), th).None?
    ensures ConvertItem(JNull, th).None? && ConvertItem(JBool(b), th).None?
    ensures ConvertItem(JInt(i), th).None? && ConvertItem(JFloat(m, e), th).None?
  {
  }

  /** The note an unpacked item becomes, if its cleaned name is accepted. */
  function ConvertUnpacked(u: Option<(Json, int)>, th: Theory): (r: Option<Element>)
    ensures r.Some? ==> r.value.Note? && th.isNoteName(r.value.pitch)
  {
    match u
    case None => None
    case Some(nu) =>
      var name := th.clean(PyStr(nu.0, th.repr));
      if th.isNoteName(name) then Some(Note(name, DurationToHalves(nu.1))) else None
  }

  /** A dict item is read through its "note" and "duration" keys only:
      two dicts that agree on those two lookups convert alike, whatever
      else they hold. */
  lemma ConvertItemReadsTwoKeys(f1: seq<(string, Json)>, f2: seq<(string, Json)>, th: Theory)
    requires Get(f1, "note") == Get(f2, "note")
    requires Get(f1, "duration") == Get(f2, "duration")
    ensures ConvertItem(JObj(f1), th) == ConvertItem(JObj(f2), th)
  {
    assert Unpack(JObj(f1)) == Unpack(JObj(f2));
  }

  /** A field under any other key is ignored. */
  lemma ExtraFieldIgnored(fields: seq<(string, Json)>, k: string, v: Json, th: Theory)
    requires k != "note" && k != "duration"
    ensures ConvertItem(JObj(fields + [(k, v)]), th) == ConvertItem(JObj(fields), th)
  {
    GetSkipsOtherKey(fields, k, v, "note");
    GetSkipsOtherKey(fields, k, v, "duration");
    ConvertItemReadsTwoKeys(fields + [(k, v)], fields, th);
  }

  /** When "note" repeats, the later value is the one converted. */
  lemma LaterNoteWins(fields: seq<(string, Json)>, v1: Json, v2: Json, th: Theory)
    ensures ConvertItem(JObj(fields + [("note", v1), ("note", v2)]), th)
         == ConvertItem(JObj(fields + [("note", v2)]), th)
  {
    var f1 := fields + [("note", v1), ("note", v2)];
    var f2 := fields + [("note", v2)];
    assert Get(f1, "note") == Some(v2) == Get(f2, "note");
    assert f1 == (fields + [("note", v1)]) + [("note", v2)];
    GetSkipsOtherKey(fields + [("note", v1)], "note", v2, "duration");
    GetSkipsOtherKey(fields, "note", v1, "duration");
    GetSkipsOtherKey(fields, "note", v2, "duration");
    ConvertItemReadsTwoKeys(f1, f2, th);
  }

  /** The legacy pair `[note, duration]` converts exactly as the dict
      `{"note": note, "duration": duration}` does. */
  lemma LegacyPairAsDict(n: Json, d: Json, th: Theory)
    ensures ConvertItem(JArr([n, d]), th) == ConvertItem(JObj([("note", n), ("duration", d)]), th)
  {
    var fields := [("note", n), ("duration", d)];
    assert Get(fields, "duration") == Some(d);
    assert fields[..1] == [("note", n)];
    assert Get(fields, "note") == Some(n);
    assert Unpack(JArr([n, d])) == Unpack(JObj(fields));
  }

  /** The notes the loop appends, in input order. */
  function KeptNotes(items: seq<Json>, th: Theory): (notes: seq<Element>)
    ensures |notes| <= |items|
    ensures forall k :: 0 <= k < |notes| ==> notes[k].Note? && th.isNoteName(notes[k].pitch)
    decreases |items|
  {
    if |items| == 0 then []
    else
      var init := KeptNotes(items[..|items| - 1], th);
      match ConvertItem(items[|items| - 1], th)
      case None => init
      case Some(n) => init + [n]
  }

  /** Positions of the items the loop keeps. */
  function KeptIndices(items: seq<Json>, th: Theory): (idx: seq<nat>)
    decreases |items|
  {
    if |items| == 0 then []
    else
      var init := KeptIndices(items[..|items| - 1], th);
      if ConvertItem(items[|items| - 1], th).Some? then init + [|items| - 1] else init
  }

  /** What the loop makes of each item, position by position. */
  function Conversions(items: seq<Json>, th: Theory): (cs: seq<Option<Element>>)
    ensures |cs| == |items|
  {
    seq(|items|, k requires 0 <= k < |items| => ConvertItem(items[k], th))
  }

  /** The present values of a sequence of outcomes, in order. */
  function Somes<T>(cs: seq<Option<T>>): seq<T>
    decreases |cs|
  {
    if |cs| == 0 then []
    else
      var init := Somes(cs[..|cs| - 1]);
      if cs[|cs| - 1].Some? then init + [cs[|cs| - 1].value] else init
  }

  /** The positions of the present values, in order. */
  function SomePositions<T>(cs: seq<Option<T>>): seq<nat>
    decreases |cs|
  {
    if |cs| == 0 then []
    else
      var init := SomePositions(cs[..|cs| - 1]);
      if cs[|cs| - 1].Some? then init + [|cs| - 1] else init
  }

  /** The positions are in range, strictly increasing, cover exactly the
      present values, and line up with `Somes`. */
  lemma {:induction false} SomePositionsShape<T>(cs: seq<Option<T>>)
    ensures |SomePositions(cs)| == |Somes(cs)|
    ensures forall j :: 0 <= j < |SomePositions(cs)| ==>
      SomePositions(cs)[j] < |cs| && cs[SomePositions(cs)[j]] == Some(Somes(cs)[j])
    ensures forall i, j :: 0 <= i < j < |SomePositions(cs)| ==> SomePositions(cs)[i] < SomePositions(cs)[j]
    ensures forall k :: 0 <= k < |cs| ==> (cs[k].Some? <==> k in SomePositions(cs))
    decreases |cs|
  {
    if |cs| > 0 {
      var init := cs[..|cs| - 1];
      var last := |cs| - 1;
      SomePositionsShape(init);
      assert forall k :: 0 <= k < |init| ==> init[k] == cs[k];
      if cs[last].Some? {
        assert SomePositions(cs) == SomePositions(init) + [last];
        assert Somes(cs) == Somes(init) + [cs[last].value];
      } else {
        assert SomePositions(cs) == SomePositions(init);
        assert Somes(cs) == Somes(init);
      }
    }
  }

  /** The loop's notes and positions are those of the item-by-item
      outcomes. */
  lemma {:induction false} KeptAsSomes(items: seq<Json>, th: Theory)
    ensures KeptNotes(items, th) == Somes(Conversions(items, th))
    ensures KeptIndices(items, th) == SomePositions(Conversions(items, th))
    decreases |items|
  {
    if |items| > 0 {
      var init := items[..|items| - 1];
      KeptAsSomes(init, th);
      assert Conversions(items, th)[..|items| - 1] == Conversions(init, th);
    }
  }

  /** The loop keeps exactly the items that unpack and carry an accepted
      pitch, each converted, in input order. */
  lemma KeptExactly(items: seq<Json>, th: Theory)
    ensures |KeptIndices(items, th)| == |KeptNotes(items, th)|
    ensures forall j :: 0 <= j < |KeptIndices(items, th)| ==> KeptIndices(items, th)[j] < |items|
    ensures forall i, j :: 0 <= i < j < |KeptIndices(items, th)| ==> KeptIndices(items, th)[i] < KeptIndices(items, th)[j]
    ensures forall k :: 0 <= k < |items| ==> (ConvertItem(items[k], th).Some? <==> k in KeptIndices(items, th))
    ensures forall j :: 0 <= j < |KeptIndices(items, th)| ==>
      Some(KeptNotes(items, th)[j]) == ConvertItem(items[KeptIndices(items, th)[j]], th)
  {
    KeptAsSomes(items, th);
    SomePositionsShape(Conversions(items, th));
  }

  /** The note loop as written: one pass per item, appending or skipping. */
  method CollectNotes(items: seq<Json>, th: Theory) returns (notes: seq<Element>)
    ensures notes == KeptNotes(items, th)
  {
    notes := [];
    var i := 0;
    while i < |items|
      invariant 0 <= i <= |items|
      invariant notes == KeptNotes(items[..i], th)
    {
      assert items[..i + 1][..i] == items[..i];
      match ConvertItem(items[i], th) {
        case None =>
        case Some(n) => notes := notes + [n];
      }
      i := i + 1;
    }
    assert items[..|items|] == items;
  }

  /** The decoded note list: a string argument goes through `json.loads`,
      anything else is used as given. */
  function Decode(data: Json, th: Theory): Option<Json> {
    if data.JStr? then th.loads(data.s) else Some(data)
  }

  /** The part before the notes: instrument, key, time signature, tempo. */
  function Preamble(instrumentName: string, keySig: string, timeSig: string, tempoBpm: int, th: Theory): (p: Part)
    ensures |p| == 4 && forall k :: 0 <= k < 4 ==> p[k].Other?
  {
    [Other(InstrumentMark(InstrumentFor(instrumentName))),
     Other(KeyMark(ParseKeySignature(keySig, th))),
     Other(TimeMark(ParseTimeSignature(timeSig, th))),
     Other(TempoMark(tempoBpm))]
  }

  /** `json_to_music21_score`. `measures` is accepted and unused, as in the
      source. */
  function BuildScore(data: Json, instrumentName: string, keySig: string, timeSig: string,
                      tempoBpm: int, measures: int, th: Theory): (r: Option<Score>)
    ensures r.Some? ==> ValidateScore(ScoreObject(r.value))
    ensures r.Some? ==> r.value.title == instrumentName + " Exercise" && r.value.composer == "HarmonyHub"
    ensures r.Some? ==> exists items :: (Decode(data, th).Some? && Iterate(Decode(data, th).value) == Some(items)
                                         && r.value.parts == [Preamble(instrumentName, keySig, timeSig, tempoBpm, th) + KeptNotes(items, th)])
    ensures Decode(data, th).None? ==> r.None?
  {
    match Decode(data, th)
    case None => None
    case Some(v) =>
      match Iterate(v)
      case None => None
      case Some(items) =>
        var part := Preamble(instrumentName, keySig, timeSig, tempoBpm, th) + KeptNotes(items, th);
        var score := Score(instrumentName + " Exercise", "HarmonyHub", [part]);
        if ValidateScore(ScoreObject(score)) then Some(score) else None
  }

  /** The build fails exactly when the string is not JSON, the decoded
      value cannot be iterated, or no note survives the loop. */
  lemma BuildFailsIff(data: Json, instrumentName: string, keySig: string, timeSig: string,
                      tempoBpm: int, measures: int, th: Theory)
    ensures BuildScore(data, instrumentName, keySig, timeSig, tempoBpm, measures, th).None?
      <==> Decode(data, th).None? || Iterate(Decode(data, th).value).None?
           || |KeptNotes(Iterate(Decode(data, th).value).value, th)| == 0
  {
    match Decode(data, th)
    case None =>
    case Some(v) =>
      match Iterate(v)
      case None =>
      case Some(items) =>
        var pre := Preamble(instrumentName, keySig, timeSig, tempoBpm, th);
        PartValidIff(instrumentName + " Exercise", pre, KeptNotes(items, th));
  }

  /** A score whose one part is the preamble and the kept notes is valid
      exactly when some note was kept. */
  lemma PartValidIff(title: string, pre: Part, notes: seq<Element>)
    requires forall k :: 0 <= k < |pre| ==> pre[k].Other?
    requires forall k :: 0 <= k < |notes| ==> notes[k].Note?
    ensures ValidateScore(ScoreObject(Score(title, "HarmonyHub", [pre + notes]))) <==> |notes| > 0
  {
    var part := pre + notes;
    assert [part][0] == part;
    if |notes| > 0 {
      assert part[|pre|] == notes[0];
    } else {
      assert part == pre;
    }
  }

  /** A dict item with a string note and an integer duration. */
  function Item(name: string, units: int): Json {
    JObj([("note", JStr(name)), ("duration", JInt(units))])
  }

  /** Such an item becomes that note, provided the cleaned name is itself
      and is accepted. */
  lemma ConvertPlainItem(name: string, units: int, th: Theory)
    requires th.clean(name) == name && th.isNoteName(name)
    ensures ConvertItem(Item(name, units), th) == Some(Note(name, units))
  {
    var fields := [("note", JStr(name)), ("duration", JInt(units))];
    assert Get(fields, "duration") == Some(JInt(units));
    assert fields[..1] == [("note", JStr(name))];
    assert Get(fields, "note") == Some(JStr(name));
  }

  /** ... and is skipped when the name is rejected. */
  lemma SkipRejectedItem(name: string, units: int, th: Theory)
    requires th.clean(name) == name && !th.isNoteName(name)
    ensures ConvertItem(Item(name, units), th).None?
  {
    var fields := [("note", JStr(name)), ("duration", JInt(units))];
    assert Get(fields, "duration") == Some(JInt(units));
    assert fields[..1] == [("note", JStr(name))];
    assert Get(fields, "note") == Some(JStr(name));
  }

  /** Appending an item appends its note, if it has one. */
  lemma KeptNotesSnoc(items: seq<Json>, x: Json, th: Theory)
    ensures KeptNotes(items + [x], th)
         == KeptNotes(items, th) + (if ConvertItem(x, th).Some? then [ConvertItem(x, th).value] else [])
  {
    var y := items + [x];
    assert y[..|y| - 1] == items && y[|y| - 1] == x;
    match ConvertItem(x, th) {
      case None =>
        assert KeptNotes(y, th) == KeptNotes(items, th);
      case Some(n) =>
        assert KeptNotes(y, th) == KeptNotes(items, th) + [n];
    }
  }

  /** Dict items `{"note": name, "duration": units}`, one per name. */
  function PlainItems(names: seq<string>, units: int): (items: seq<Json>)
    ensures |items| == |names|
  {
    seq(|names|, k requires 0 <= k < |names| => Item(names[k], units))
  }

  /** The notes those items stand for. */
  function PlainNotes(names: seq<string>, units: int): (notes: seq<Element>)
    ensures |notes| == |names|
  {
    seq(|names|, k requires 0 <= k < |names| => Note(names[k], units))
  }

  /** Items with accepted names that clean to themselves are all kept, in
      order, each at its duration. */
  lemma PlainItemsKept(names: seq<string>, units: int, th: Theory)
    requires forall k :: 0 <= k < |names| ==> th.clean(names[k]) == names[k] && th.isNoteName(names[k])
    ensures KeptNotes(PlainItems(names, units), th) == PlainNotes(names, units)
  {
    var items := PlainItems(names, units);
    var notes := PlainNotes(names, units);
    forall k | 0 <= k < |names|
      ensures Conversions(items, th)[k] == Some(notes[k])
    {
      ConvertPlainItem(names[k], units, th);
    }
    KeptAsSomes(items, th);
    SomesAll(Conversions(items, th), notes);
  }

  /** The sample exercise: the quarter notes C4 D4 E4 F4 are all kept ... */
  lemma SampleExerciseKept(th: Theory)
    requires th.clean("C4") == "C4" && th.isNoteName("C4")
    requires th.clean("D4") == "D4" && th.isNoteName("D4")
    requires th.clean("E4") == "E4" && th.isNoteName("E4")
    requires th.clean("F4") == "F4" && th.isNoteName("F4")
    ensures KeptNotes(PlainItems(["C4", "D4", "E4", "F4"], 2), th) == PlainNotes(["C4", "D4", "E4", "F4"], 2)
  {
    PlainItemsKept(["C4", "D4", "E4", "F4"], 2, th);
  }

  /** ... and give a valid score. */
  lemma SampleExercise(th: Theory)
    requires th.clean("C4") == "C4" && th.isNoteName("C4")
    requires th.clean("D4") == "D4" && th.isNoteName("D4")
    requires th.clean("E4") == "E4" && th.isNoteName("E4")
    requires th.clean("F4") == "F4" && th.isNoteName("F4")
    ensures BuildScore(JArr(PlainItems(["C4", "D4", "E4", "F4"], 2)), "Trumpet", "C Major", "4/4", 120, 1, th).Some?
  {
    SampleExerciseKept(th);
    BuildsWhenKept(PlainItems(["C4", "D4", "E4", "F4"], 2), "Trumpet", "C Major", "4/4", 120, 1, th);
  }

  /** A list of items from which some note is kept builds a score. */
  lemma BuildsWhenKept(items: seq<Json>, instrumentName: string, keySig: string, timeSig: string,
                       tempoBpm: int, measures: int, th: Theory)
    requires |KeptNotes(items, th)| > 0
    ensures BuildScore(JArr(items), instrumentName, keySig, timeSig, tempoBpm, measures, th).Some?
  {
    BuildFailsIff(JArr(items), instrumentName, keySig, timeSig, tempoBpm, measures, th);
  }

  /** When every outcome is present, `Somes` drops nothing. */
  lemma {:induction false} SomesAll<T>(cs: seq<Option<T>>, vs: seq<T>)
    requires |vs| == |cs|
    requires forall k :: 0 <= k < |cs| ==> cs[k] == Some(vs[k])
    ensures Somes(cs) == vs
    decreases |cs|
  {
    if |cs| > 0 {
      var n := |cs| - 1;
      SomesAll(cs[..n], vs[..n]);
      assert vs == vs[..n] + [vs[n]];
    }
  }

  /** An invalid pitch ahead of a valid one is skipped and the rest is
      kept. */
  lemma InvalidPitchSkipped(th: Theory)
    requires th.clean("H9") == "H9" && !th.isNoteName("H9")
    requires th.clean("C4") == "C4" && th.isNoteName("C4")
    ensures KeptNotes([Item("H9", 2), Item("C4", 2)], th) == [Note("C4", 2)]
    ensures BuildScore(JArr([Item("H9", 2), Item("C4", 2)]), "Trumpet", "C Major", "4/4", 120, 1, th).Some?
  {
    var items := [Item("H9", 2), Item("C4", 2)];
    SkipRejectedItem("H9", 2, th);
    ConvertPlainItem("C4", 2, th);
    KeptNotesSnoc([], Item("H9", 2), th);
    KeptNotesSnoc([Item("H9", 2)], Item("C4", 2), th);
    BuildFailsIff(JArr(items), "Trumpet", "C Major", "4/4", 120, 1, th);
  }
}
