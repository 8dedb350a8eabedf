/** The note listing on the reportlab summary page of `render_score_to_pdf`:
    which notes are listed, the label of each, where each is drawn, where
    the listing stops, and the footer's count.

    Positions are in twentieths of an inch from the bottom-left corner of a
    US-letter page (8.5 by 11 inches): the half-inch left margin is 10, a
    two-inch column is 40, a quarter-inch row is 5. Durations are quarter
    lengths counted in halves, as in `Score`. */
module Layout {
  import opened Wrappers
  import opened Text
  import opened Score

  /** One `drawString(x, y, text)` call. */
  datatype Line = Line(x: int, y: int, text: string)

  /** The elements of every part, in order; one part's elements are its
      own order. */
  function Flatten(parts: seq<Part>): (es: seq<Element>)
    decreases |parts|
  {
    if |parts| == 0 then [] else Flatten(parts[..|parts| - 1]) + parts[|parts| - 1]
  }

  /** The pitched elements of a flat element list, as (pitch name,
      halves): rests and markers carry no pitch and are passed over. */
  function Pitched(es: seq<Element>): seq<(string, int)>
    decreases |es|
  {
    if |es| == 0 then []
    else
      var init := Pitched(es[..|es| - 1]);
      match es[|es| - 1]
      case Note(p, h) => init + [(p, h)]
      case _ => init
  }

  /** How many notes a flat element list holds. */
  function CountNotes(es: seq<Element>): nat
    decreases |es|
  {
    if |es| == 0 then 0
    else CountNotes(es[..|es| - 1]) + (if es[|es| - 1].Note? then 1 else 0)
  }

  /** The loop that builds `notes_list` and `note_count`. */
  method CollectPitched(parts: seq<Part>) returns (notes: seq<(string, int)>, count: nat)
    ensures notes == Pitched(Flatten(parts))
    ensures count == |notes| == CountNotes(Flatten(parts))
  {
    var es := Flatten(parts);
    notes, count := [], 0;
    var i := 0;
    while i < |es|
      invariant 0 <= i <= |es|
      invariant notes == Pitched(es[..i])
      invariant count == |notes| == CountNotes(es[..i])
    {
      assert es[..i + 1][..i] == es[..i];
      match es[i] {
        case Note(p, h) =>
          notes := notes + [(p, h)];
          count := count + 1;
        case _ =>
      }
      i := i + 1;
    }
    assert es[..|es|] == es;
  }

  /** Positions of the notes in a flat element list. */
  function NotePositions(es: seq<Element>): seq<nat>
    decreases |es|
  {
    if |es| == 0 then []
    else
      var init := NotePositions(es[..|es| - 1]);
      if es[|es| - 1].Note? then init + [|es| - 1] else init
  }

  /** The listing keeps exactly the notes, in order, with their durations:
      its entries sit at strictly increasing positions of the list, each
      position holds the note of its entry, and every note's position is
      among them. */
  lemma {:induction false} PitchedExactly(es: seq<Element>)
    ensures |NotePositions(es)| == |Pitched(es)| == CountNotes(es) <= |es|
    ensures forall j :: 0 <= j < |NotePositions(es)| ==>
      NotePositions(es)[j] < |es| && es[NotePositions(es)[j]] == Note(Pitched(es)[j].0, Pitched(es)[j].1)
    ensures forall i, j :: 0 <= i < j < |NotePositions(es)| ==> NotePositions(es)[i] < NotePositions(es)[j]
    ensures forall k :: 0 <= k < |es| ==> (es[k].Note? <==> k in NotePositions(es))
    decreases |es|
  {
    if |es| > 0 {
      var init := es[..|es| - 1];
      var last := |es| - 1;
      PitchedExactly(init);
      assert forall k :: 0 <= k < |init| ==> init[k] == es[k];
      if es[last].Note? {
        assert NotePositions(es) == NotePositions(init) + [last];
        assert Pitched(es) == Pitched(init) + [(es[last].pitch, es[last].halves)];
      } else {
        assert NotePositions(es) == NotePositions(init);
        assert Pitched(es) == Pitched(init);
      }
    }
  }

  /** Rests and markers added anywhere after the notes leave the listing
      unchanged. */
  lemma {:induction false} PitchedIgnoresUnpitched(es: seq<Element>, extra: seq<Element>)
    requires forall k :: 0 <= k < |extra| ==> !extra[k].Note?
    ensures Pitched(es + extra) == Pitched(es)
    decreases |extra|
  {
    if |extra| > 0 {
      var n := |extra| - 1;
      var all := es + extra;
      assert all[..|all| - 1] == es + extra[..n];
      assert all[|all| - 1] == extra[n];
      PitchedIgnoresUnpitched(es, extra[..n]);
      assert Pitched(all) == Pitched(all[..|all| - 1]);
    } else {
      assert es + extra == es;
    }
  }

  // ---------------------------------------------------------------------
  // Labels

  /** Python's `str()` of the float `halves / 2`: sign, whole part, and
      ".5" or ".0". */
  function QuarterText(halves: int): (s: string)
    ensures |s| >= 3
  {
    var m: nat := if halves < 0 then -halves else halves;
    (if halves < 0 then "-" else "") + NatToString(m / 2) + (if m % 2 == 1 then ".5" else ".0")
  }

  /** The duration label: the four named lengths, otherwise the quarter
      length followed by "QL". */
  function Label(halves: int): string {
    if halves == 1 then "8th"
    else if halves == 2 then "Q"
    else if halves == 4 then "H"
    else if halves == 8 then "W"
    else QuarterText(halves) + "QL"
  }

  /** One listing entry: the pitch name, then the label in parentheses. */
  function NoteText(note: (string, int)): string {
    note.0 + " (" + Label(note.1) + ")"
  }

  /** Reads back a label made by `QuarterText`. */
  function ReadQuarter(s: string): Option<int> {
    if |s| < 3 || s[|s| - 2] != '.' || (s[|s| - 1] != '5' && s[|s| - 1] != '0') then None
    else ReadHalves(s[..|s| - 2], s[|s| - 1] == '5')
  }

  /** Reads an optionally signed whole number of quarters, plus a half when
      `odd`, as a number of halves. */
  function ReadHalves(w: string, odd: bool): Option<int> {
    var neg := |w| > 0 && w[0] == '-';
    var digits := if neg then w[1..] else w;
    if |digits| == 0 || !AllDigits(digits) then None
    else
      var m := 2 * DigitsValue(digits) + (if odd then 1 else 0);
      Some(if neg then -m else m)
  }

  /** The quarter-length text reads back to the duration it was made from. */
  lemma ReadQuarterText(halves: int)
    ensures ReadQuarter(QuarterText(halves)) == Some(halves)
  {
    var m: nat := if halves < 0 then -halves else halves;
    var odd := m % 2 == 1;
    var h := 2 * (m / 2) + (if odd then 1 else 0);
    assert h == m;
    var d := NatToString(m / 2);
    var tail := if odd then ".5" else ".0";
    DigitsValueOfNatToString(m / 2);
    if halves < 0 {
      assert QuarterText(halves) == ("-" + d) + tail;
      ReadQuarterTail("-" + d, odd);
      ReadHalvesNegative(d, odd);
    } else {
      assert QuarterText(halves) == d + tail;
      ReadQuarterTail(d, odd);
      ReadHalvesUnsigned(d, odd);
    }
  }

  /** A ".5" or ".0" tail is split off and read as the half. */
  lemma ReadQuarterTail(w: string, odd: bool)
    requires |w| > 0
    ensures ReadQuarter(w + (if odd then ".5" else ".0")) == ReadHalves(w, odd)
  {
    var s := w + (if odd then ".5" else ".0");
    assert s[..|s| - 2] == w;
  }

  /** A digit string reads back as the number it spells. */
  lemma ReadHalvesUnsigned(d: string, odd: bool)
    requires |d| > 0 && AllDigits(d)
    ensures ReadHalves(d, odd) == Some(2 * DigitsValue(d) + (if odd then 1 else 0))
  {
    assert IsDigit(d[0]);
  }

  /** A minus sign before a digit string reads back as the negated number. */
  lemma ReadHalvesNegative(d: string, odd: bool)
    requires |d| > 0 && AllDigits(d)
    ensures ReadHalves("-" + d, odd) == Some(-(2 * DigitsValue(d) + (if odd then 1 else 0)))
  {
    var w := "-" + d;
    assert |w| > 0 && w[0] == '-';
    assert w[1..] == d;
  }

  /** The label table, and every other duration labelled by its quarter
      length. */
  lemma LabelTable(halves: int)
    ensures Label(1) == "8th" && Label(2) == "Q" && Label(4) == "H" && Label(8) == "W"
    ensures halves !in {1, 2, 4, 8} ==>
      var s := Label(halves);
      |s| >= 5 && s[|s| - 2..] == "QL" && ReadQuarter(s[..|s| - 2]) == Some(halves)
  {
    if halves !in {1, 2, 4, 8} {
      var q := QuarterText(halves);
      ReadQuarterText(halves);
      assert (q + "QL")[..|q|] == q;
    }
  }

  /** Different durations get different labels. */
  lemma LabelInjective(h1: int, h2: int)
    requires h1 != h2
    ensures Label(h1) != Label(h2)
  {
    LabelTable(h1);
    LabelTable(h2);
  }

  // ---------------------------------------------------------------------
  // The grid

  /** How many notes fit when the first row sits at height `top`: the
      loop checks the height after moving on, so it always draws at least
      one note, and stops after the row that leaves the height below the
      half-inch margin. */
  function Capacity(top: int): (c: nat)
    ensures c >= 1
  {
    if top < 10 then 1 else 3 * ((top - 10) / 5 + 1)
  }

  /** After `j` notes (j >= 1) the loop stops exactly when `j` has reached
      the capacity. */
  lemma CapacityStops(top: int, j: nat)
    requires j >= 1
    ensures Row(top, j) < 10 <==> j >= Capacity(top)
  {
  }

  /** The column of the `k`-th listed note: three two-inch columns from
      the half-inch margin. */
  function Column(k: nat): int {
    10 + 40 * (k % 3)
  }

  /** The height of the `k`-th listed note: a quarter inch lower every
      three notes. */
  function Row(top: int, k: nat): int {
    top - 5 * (k / 3)
  }

  /** Moving on by one note: the next column, and the next row after the
      third column. */
  lemma GridStep(top: int, i: nat)
    ensures Column(i) == 10 + 40 * (i % 3)
    ensures (i + 1) % 3 == (if i % 3 + 1 >= 3 then 0 else i % 3 + 1)
    ensures Row(top, i + 1) == (if i % 3 + 1 >= 3 then Row(top, i) - 5 else Row(top, i))
  {
  }

  /** The grid loop, drawing the entry texts from height `top` down. */
  method DrawGrid(texts: seq<string>, top: int) returns (lines: seq<Line>)
    ensures |lines| == if |texts| < Capacity(top) then |texts| else Capacity(top)
    ensures forall k :: 0 <= k < |lines| ==> lines[k] == Line(Column(k), Row(top, k), texts[k])
  {
    lines := [];
    var y := top;
    var col := 0;
    var i := 0;
    while i < |texts|
      invariant 0 <= i <= |texts| && i < Capacity(top)
      invariant col == i % 3 && y == Row(top, i)
      invariant |lines| == i
      invariant forall k :: 0 <= k < i ==> lines[k] == Line(Column(k), Row(top, k), texts[k])
    {
      GridStep(top, i);
      lines := lines + [Line(10 + 40 * col, y, texts[i])];
      col := col + 1;
      if col >= 3 {
        col := 0;
        y := y - 5;
      }
      i := i + 1;
      CapacityStops(top, i);
      if y < 10 {
        break;
      }
    }
  }

  /** Two listed notes never share a position. */
  lemma GridPositionsDistinct(top: int, k: nat, j: nat)
    requires k != j
    ensures (Column(k), Row(top, k)) != (Column(j), Row(top, j))
  {
  }

  /** Every note drawn from a first row at or above the margin stays at or
      above the margin, clear of the footer at 0.3 inch. */
  lemma GridAboveMargin(top: int, k: nat)
    requires top >= 10 && k < Capacity(top)
    ensures Row(top, k) >= 10 > 6
  {
  }

  // ---------------------------------------------------------------------
  // The page

  /** The height of the first row: 11 inches, less 1.5 for the title
      block, 0.25 for the instrument line when there is one, 0.35 for the
      key line and 0.2 for the "Notes:" heading. */
  function FirstRow(instrumentLine: bool): int {
    220 - 30 - (if instrumentLine then 5 else 0) - 7 - 4
  }

  /** A letter page holds 99 notes below an instrument line and 102
      without one. */
  lemma PageCapacity()
    ensures FirstRow(true) == 174 && Capacity(FirstRow(true)) == 99
    ensures FirstRow(false) == 179 && Capacity(FirstRow(false)) == 102
  {
  }

  function Footer(count: nat): string {
    "Generated by HarmonyHub | " + NatToString(count) + " notes total"
  }

  /** The note listing and the footer of the summary page. The footer
      counts every pitched note, including those the page had no room
      for. */
  method NoteListing(parts: seq<Part>, instrumentLine: bool) returns (lines: seq<Line>, footer: Line)
    ensures |lines| <= |Pitched(Flatten(parts))| == CountNotes(Flatten(parts))
    ensures |lines| < CountNotes(Flatten(parts)) <==> CountNotes(Flatten(parts)) > Capacity(FirstRow(instrumentLine))
    ensures forall k :: 0 <= k < |lines| ==>
      lines[k].text == NoteText(Pitched(Flatten(parts))[k]) && lines[k].y >= 10
    ensures footer == Line(10, 6, Footer(CountNotes(Flatten(parts))))
  {
    var notes, count := CollectPitched(parts);
    var texts := seq(|notes|, k requires 0 <= k < |notes| => NoteText(notes[k]));
    lines := DrawGrid(texts, FirstRow(instrumentLine));
    forall k | 0 <= k < |lines|
      ensures lines[k].y >= 10
    {
      GridAboveMargin(FirstRow(instrumentLine), k);
    }
    footer := Line(10, 6, Footer(count));
  }
}
