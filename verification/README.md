# Sheet-music notation core, modelled in Dafny

This project models the notation core of a music-exercise generator:

- how `json_to_music21_score` turns a JSON list of note items into a one-part score;
- `validate_score`;
- the instrument and duration tables;
- the fallback chain of `render_score_to_pdf` and `render_score_to_image`: MuseScore, then LilyPond, then PNG-to-PDF conversion, then a reportlab summary page, then a hand-written PDF;
- the path-suffix rules the chain relies on;
- the layout arithmetic of the reportlab summary page;
- the bytes of the hand-written PDF.

Every collaborator is a parameter, never a definition:

- `Render.Env`: the external tools (`mscore`, `lilypond`, `convert`), music21's exporters, PIL, matplotlib, reportlab and `tempfile`.
- `Ingest.Theory`: `json.loads`, `clean_note_string`, `note_name_to_midi`, and music21's acceptance of a key or meter.

Each is an outcome oracle. The file system is the set of paths that exist.

Quarter lengths are always multiples of 0.5, so durations are integers counted in half-quarters. Page positions are multiples of 0.05 inch, so they are integers counted in twentieths of an inch. A US-letter page is 220 high, the margin is 10 and the footer line is at 6.

The two render functions call each other with no depth bound. The model gives them a `fuel` argument:

- every nested call spends one unit;
- a call made with no fuel left counts as raising into the caller's handler, and the run is marked `exhausted`.

The properties about fuel therefore say which runs end and which need more fuel than any bound (`Render.RecursionUnbounded`).

A PDF run keeps two records of the backends it tried:

- `tried` holds the call's own attempts;
- `log` holds every attempt in the order made, including those of the PDF chain that a nested image export falls back to.

Modules:

- `Wrappers`: Option.
- `Text`: digits, `str`, `int`, `strip`, `split`, `lower`.
- `Json`: decoded values, `int()`, `str()`, `dict.get`, iteration.
- `Constants`, `Score`, `Ingest`: the build.
- `Paths`: suffixes.
- `Render`: the chains.
- `Layout`: the summary page.
- `MinimalPdf`: the hand-written file.

## Model

| member | source | states |
|---|---|---|
| Constants.TablesAgree | processing/notation/constants.py:12-27 | The clef and staff tables have exactly the five instrument names as keys. "grand staff" appears exactly for Piano. Every other entry is "treble" (clefs) or "staff" (staves). |
| Constants.ClefForInstrument | processing/notation/sheet_music.py:26-28 | A known name gives its table entry, and any other name gives "treble". The result is "grand staff" exactly for Piano. |
| Constants.InstrumentFor | processing/notation/sheet_music.py:54-64 | The five table names give the instrument of that name, and any other name gives Trumpet. |
| Constants.InstrumentNameRoundTrip | processing/notation/sheet_music.py:56-64 | Looking an instrument up by its own name gives it back, so the map's keys are the tables' names. |
| Constants.DurationMapIsHalving | processing/notation/constants.py:32-37 | The duration table has exactly the keys 1, 2, 4 and 8, and each maps to half the key in quarters. So the table and the `units * 0.5` fallback agree, and the four tested values come out as 0.5, 1, 2 and 4 quarters. |
| Constants.DurationToHalves | processing/notation/sheet_music.py:31-35 | Every integer number of eighth-note units is that many half-quarters, whether it is in the table or not. |
| Score.ValidateScore | processing/notation/sheet_music.py:38-51 | True exactly for a Score with at least one part whose first part holds a pitched note. None, a non-score and a part-less score give false. |
| Score.ValidateIgnoresRestsAndLaterParts | processing/notation/sheet_music.py:41-48 | Rests and markers added to the first part, and any later parts, do not change the verdict. None, a non-score and an empty score are rejected. |
| Text.ParseInt | processing/notation/sheet_music.py:144 | `int()` of a string succeeds only on a string that is non-blank once whitespace is stripped. `Text.ParseIntAccepts` and `Text.ParseIntOnlyNumerals` together give the exact set of strings accepted. |
| Text.ParseIntOfIntToString | processing/notation/sheet_music.py:144-148 | `int(str(i)) == i` for every integer, negative ones included. |
| Text.StripPadded | processing/notation/sheet_music.py:144 | `int()` ignores exactly the whitespace around its numeral: stripping a core padded with whitespace on both sides gives the core back. |
| Text.ParseIntAccepts | processing/notation/sheet_music.py:144 | Every numeral parses. That is whitespace, an optional '+' or '-', a non-empty run of ASCII digits, then whitespace. The result is the digits' value, negated after '-'. |
| Text.ParseIntOnlyNumerals | processing/notation/sheet_music.py:144 | Only numerals parse. A string that `int()` accepts is, once stripped, a non-empty run of ASCII digits, or a sign followed by one. |
| Text.ParseIntRejects | processing/notation/sheet_music.py:144 | "abc", "1.5" and "- 5" are rejected, so an item with such a duration is skipped. |
| Text.SplitWords | processing/notation/sheet_music.py:70 | `str.split()` yields only non-empty runs free of whitespace. Which runs it yields is stated for one word by `Text.SplitWordsOfWord` and for two by `Text.SplitWordsTwo`. |
| Text.SplitWordsOfWord | processing/notation/sheet_music.py:70-76 | A whitespace-free string splits into itself alone. |
| Text.SplitWordsTwo | processing/notation/sheet_music.py:70-76 | Two whitespace-free words separated by any non-empty run of whitespace split into exactly those two words, so "C major" gives tonic "C" and mode "major". |
| Text.SplitWordsSkipsSpace | processing/notation/sheet_music.py:70 | Leading whitespace adds no word. |
| Text.AsciiLower | processing/notation/sheet_music.py:73 | Lower-casing keeps the length, shifts exactly the capitals A-Z, and leaves every other character alone. |
| Json.PyInt | processing/notation/sheet_music.py:144-148 | `int()` keeps integers, maps booleans to 0/1, parses strings, truncates floats, and fails on None, lists and dicts. |
| Json.PyIntOfFraction | processing/notation/sheet_music.py:144 | `int()` of a fractional float rounds toward zero. The result is within one unit below a non-negative value, or above a negative one. |
| Json.PyIntTruncatesTowardZero | processing/notation/sheet_music.py:144 | `int(-2.5) == -2` and `int(2.5) == 2`. |
| Json.PyStr | processing/notation/sheet_music.py:151 | `str()` of a string is the string itself. |
| Json.PyStrOfInt | processing/notation/sheet_music.py:144-151 | `str()` of an integer is the numeral that `int()` reads back to the same integer. This is the round-trip partner of `Text.ParseInt`, for the `str(note_name)` of line 151 applied to a numeric note value. |
| Json.Get | processing/notation/sheet_music.py:143-144 | `dict.get` finds a key exactly when some field has it, and then returns the value of the last field with that key. |
| Json.GetSkipsOtherKey | processing/notation/sheet_music.py:143-144 | A field under another key does not change a lookup. |
| Json.DistinctKeys | processing/notation/sheet_music.py:139 | Iterating a dict yields each key once. Every key yielded is a field's key, and every field's key is yielded. |
| Json.Iterate | processing/notation/sheet_music.py:139 | A list yields its elements, and a string yields its characters as one-character strings. Numbers, booleans and None are not iterable. |
| Ingest.ParseKeySignature | processing/notation/sheet_music.py:67-79 | With fewer than two words the key is C major. Any other key is the first word as tonic and the lower-cased second word as mode, accepted by music21. |
| Ingest.SingleWordKeyIsCMajor | processing/notation/sheet_music.py:70-76 | A key string of one word falls back to C major. |
| Ingest.UnpackDefaults | processing/notation/sheet_music.py:142-148 | An empty dict is a quarter-note C4 (defaults 'C4' and 2). A two-character string unpacks like a legacy pair of its characters. |
| Ingest.ConvertItem | processing/notation/sheet_music.py:140-169 | An item yields a note exactly when it unpacks and `note_name_to_midi` accepts the cleaned `str()` of its note value. The note is then that cleaned name, lasting the unpacked number of units in half-quarters. |
| Ingest.UnreadableItemsSkipped | processing/notation/sheet_music.py:142-148 | These items are skipped whatever else they hold: a dict whose duration (default 2) `int()` rejects, a list or string that does not unpack to two values, and None, a boolean or a number. |
| Ingest.ConvertItemReadsTwoKeys | processing/notation/sheet_music.py:142-144 | Two dict items that agree on their "note" and "duration" lookups convert alike. |
| Ingest.ExtraFieldIgnored | processing/notation/sheet_music.py:142-144 | Adding a field under any other key (such as the tests' "cumulative_duration") does not change the result. |
| Ingest.LaterNoteWins | processing/notation/sheet_music.py:143 | When "note" repeats in the JSON object, the later value is the one converted. |
| Ingest.LegacyPairAsDict | processing/notation/sheet_music.py:142-148 | A legacy `[note, duration]` pair converts exactly as the dict with those two fields. |
| Ingest.KeptNotes | processing/notation/sheet_music.py:139-169 | The loop keeps at most one note per item, each with an accepted pitch. |
| Ingest.KeptExactly | processing/notation/sheet_music.py:139-169 | The kept positions are in range and increasing, and they are exactly the items that convert. The j-th kept note is the conversion of the j-th kept item, so the order is the input order and nothing is invented. |
| Ingest.KeptNotesSnoc | processing/notation/sheet_music.py:139-169 | Appending an item appends its note, if it has one; earlier items are unaffected. |
| Ingest.CollectNotes | processing/notation/sheet_music.py:139-169 | The loop as written, appending or skipping one item per pass, yields exactly `KeptNotes`. |
| Ingest.Preamble | processing/notation/sheet_music.py:114-136 | The part starts with four non-note elements: instrument, key, meter and tempo. |
| Ingest.BuildScore | processing/notation/sheet_music.py:104-183 | Any score returned is valid, titled "<instrument> Exercise" and composed by "HarmonyHub". Its one part is the preamble followed by the kept notes of the decoded items. A string that is not JSON gives None. |
| Ingest.BuildFailsIff | processing/notation/sheet_music.py:104-111 | The build returns None exactly when the string is not JSON, the decoded value is not iterable, or no note is kept. |
| Ingest.PartValidIff | processing/notation/sheet_music.py:171-177 | The preamble plus the kept notes validates exactly when at least one note was kept. |
| Ingest.ConvertPlainItem | processing/notation/sheet_music.py:150-165 | `{"note": n, "duration": u}` with an accepted, already clean name becomes the note n lasting u half-quarters. |
| Ingest.SkipRejectedItem | processing/notation/sheet_music.py:153-158 | An item whose name `note_name_to_midi` rejects is skipped. |
| Ingest.PlainItemsKept | processing/notation/sheet_music.py:139-169 | Items whose names are all accepted are all kept, in order. |
| Ingest.BuildsWhenKept | processing/notation/sheet_music.py:171-179 | A list from which some note is kept always builds a score. |
| Ingest.SampleExercise | tests/processing/test_sheet_music.py:30-53 | The tests' C4 D4 E4 F4 quarter notes build a score. |
| Ingest.SampleExerciseKept | tests/processing/test_sheet_music.py:30-37 | All four of those notes are kept, as quarter notes. |
| Ingest.InvalidPitchSkipped | tests/processing/test_sheet_music.py:133-148 | An invalid "H9" before a valid "C4" is skipped. Only C4 is kept, and the score still builds. |
| Paths.RsplitStem | processing/notation/sheet_music.py:204 | The stem is everything before the last '.' of the whole path, or the whole path when it has no '.'. |
| Paths.EnsurePdf | processing/notation/sheet_music.py:202-204 | The target always ends in ".pdf". A path already ending in ".pdf" is unchanged; any other path is cut at its last '.' before ".pdf" is appended. |
| Paths.EnsurePdfStable | processing/notation/sheet_music.py:202-204 | Forcing ".pdf" is idempotent. LilyPond's `-o <stem>` output `<stem>.pdf` is the target itself (line 240). |
| Paths.StemCutsIntoDirectories | processing/notation/sheet_music.py:204 | The cut happens at a '.' inside a directory name: "out.v2/sheet" becomes "out.pdf". |
| Paths.StemOfExtension | processing/notation/sheet_music.py:240 | For a path ending in a one-dot extension, the stem is the path minus the extension. |
| Paths.RemoveAllLength | processing/notation/sheet_music.py:438 | `replace(ext, '')` shortens the string by exactly one pattern length per occurrence removed. |
| Paths.RemoveTrailingExtension | processing/notation/sheet_music.py:480 | For a dot-free stem, removing the extension from stem+extension gives the stem back. |
| Paths.ForceSuffix | processing/notation/sheet_music.py:437-438 | The image path always ends in the requested extension and is unchanged when it already did. It grows by at most the extension. |
| Paths.PngPath | processing/notation/sheet_music.py:259 | The PNG request is `<stem>_temp.png`, with the same stem as the PDF target. |
| Paths.FallbackPdf | processing/notation/sheet_music.py:450 | The fallback path ends in ".pdf". Its length is the image path's, less the removed occurrences, plus four. |
| Paths.FallbackOfPngPathDiffers | processing/notation/sheet_music.py:259-260 | Neither the PNG request nor its ".pdf" fallback is the PDF target itself. |
| Paths.NestedLevelPaths | processing/notation/sheet_music.py:480-481 | For a dot-free stem the recursion walks `s.pdf`, `s_temp.png`, `s_temp.pdf`, `s_temp_temp.png`, and so on. |
| Render.TempName | processing/notation/sheet_music.py:196-197 | A temporary file name ends in the suffix it was asked for. |
| Render.PdfTarget | processing/notation/sheet_music.py:195-204 | The PDF target ends in ".pdf". It is the given path with ".pdf" forced, or a temporary name. |
| Render.PdfStartFiles | processing/notation/sheet_music.py:195-198 | With no path given, the empty temporary file exists at the target from the start; otherwise the files are unchanged. |
| Render.TryMuseScore | processing/notation/sheet_music.py:207-220 | MuseScore succeeds exactly when it exits with 0 and the target then exists. Only the target can appear. |
| Render.TryLilyPond | processing/notation/sheet_music.py:231-251 | LilyPond succeeds exactly when the .ly export returns, the compiler exits (with any code) and the target exists. The .ly file remains exactly when the step failed. |
| Render.ConvertToPdf | processing/notation/sheet_music.py:262-296 | The conversion can succeed only on a PNG export result that exists, and success leaves the target in place. |
| Render.ConvertToPdfSucceeds | processing/notation/sheet_music.py:262-296 | PIL succeeds exactly when the target exists and its size is over 100 bytes. After PIL raised, ImageMagick succeeds exactly when it exits and the target exists. Either way a success removes the PNG and creates nothing besides the target. |
| Render.TryReportlab | processing/notation/sheet_music.py:300-405 | reportlab is tried once. Only a failed import adds the hand-written PDF as a second attempt. A success leaves the target in place. |
| Render.ReportlabSucceeds | processing/notation/sheet_music.py:382-401 | reportlab succeeds exactly when it returns and the target exists. After a failed import, the hand-written PDF succeeds exactly when writing it returns and the target exists. |
| Render.FullOrder | processing/notation/sheet_music.py:206-405 | The priority order starts with MuseScore and ends with the hand-written PDF, and names no backend twice. LilyPond is in it exactly when it is gated in. |
| Render.ImageTarget | processing/notation/sheet_music.py:434-456 | The exported path ends in the format's extension and is the given path when that already did. |
| Render.ImageStartFiles | processing/notation/sheet_music.py:425-430 | With no path given, the empty temporary file exists from the start. |
| Render.ImageFront | processing/notation/sheet_music.py:434-481 | A finished export returns only its own target, once that exists. A fallback hands on the ".pdf" fallback path. |
| Render.ImageFrontFallsBack | processing/notation/sheet_music.py:434-484 | The export falls back to the PDF chain exactly when every writer for its format raised. An unsupported format returns None and writes nothing. |
| Render.ImageChain | processing/notation/sheet_music.py:434-484 | An image export returns, if anything, an existing path: its target or that target's ".pdf" fallback. `Render.ImageChainSucceeds` says when. |
| Render.ImageChainSucceeds | processing/notation/sheet_music.py:434-475 | A writer that returns decides the export by existence alone. The target is returned exactly when it exists afterwards, whether the writer created it or it was already there. The same holds for matplotlib's figure after the PNG writer raised. An unsupported format returns None and touches nothing. |
| Render.ImageAfter | processing/notation/sheet_music.py:449-451 | A finished export keeps its run. A fallback returns, if anything, the fallback PDF path, which then exists. |
| Render.ImageChainExhausted | processing/notation/sheet_music.py:464-481 | An image export runs out of fuel only when every writer for its format raised. |
| Render.RenderImage | processing/notation/sheet_music.py:417-488 | An unsupported format gives None without recursion. Otherwise the result is None or an existing path: the forced target or its ".pdf" fallback. `Render.ExistingFileCountsAsImage` shows that a file already there counts as a success. |
| Render.ExistingFileCountsAsImage | processing/notation/sheet_music.py:425-463 | A writer that returns without writing still succeeds when the forced target already exists. With no path given it always does, because the empty temporary file was made first (lines 428-430). |
| Render.PdfFront | processing/notation/sheet_music.py:206-253 | An early success returns the target, which exists. It makes no nested call, so its log is its own trace. |
| Render.PdfFrontShape | processing/notation/sheet_music.py:206-253 | The chain ends before the PNG step exactly when MuseScore succeeds, or when LilyPond is enabled, probed available and succeeds. The trace is then [MuseScore ok] or [MuseScore failed, LilyPond ok]. |
| Render.PngImage | processing/notation/sheet_music.py:257-260 | The PNG step returns, if anything, an existing `<stem>_temp.png` or its ".pdf" fallback. |
| Render.AfterPng | processing/notation/sheet_music.py:255-405 | From the PNG step on, any result is the target and it exists. Fuel runs out here only if the PNG export ran out. These steps make no nested call, so their log is their trace. |
| Render.AfterPngTrace | processing/notation/sheet_music.py:255-405 | From the PNG step on, the trace is a conversion and then reportlab's attempts. It returns a path exactly when the last attempt succeeded, and none after a reportlab error other than a failed import. |
| Render.AfterPngRecords | processing/notation/sheet_music.py:262-405 | The conversion attempt records the conversion's own verdict, and the following attempts are reportlab's own. |
| Render.AfterPngLastResort | processing/notation/sheet_music.py:300-401 | A written reportlab page, or a written hand-made PDF after a failed import, is returned whatever the PNG step did. |
| Render.PdfChain | processing/notation/sheet_music.py:206-408 | Any result of the chain is its target, which then exists. |
| Render.FromPng | processing/notation/sheet_music.py:255-260 | Past the front, any result is the target and it exists. |
| Render.PdfChainTrace | processing/notation/sheet_music.py:206-408 | The trace is a prefix of the fixed order, and every attempt but the last failed. It stops short only on a success or a non-import reportlab error. A path is returned exactly when the last attempt succeeded. A run out of fuel got as far as the PNG step. |
| Render.RenderPdf | processing/notation/sheet_music.py:186-414 | `render_score_to_pdf` returns the target or None, with the well-formed trace above. |
| Render.ChainNeverRetries | processing/notation/sheet_music.py:206-408 | One call tries no backend twice among its own attempts (`tried`). Nested chains run them again (`Render.NestedLevelRerunsBackends`). |
| Render.ChainGatesOn | processing/notation/sheet_music.py:206-405 | These gates hold for one call's own attempts. MuseScore is tried first, with its own verdict. LilyPond is tried exactly when it is enabled, probed available and MuseScore failed. The hand-written PDF is tried exactly when reportlab was reached and failed to import. A reportlab error gives None. |
| Render.ChainGates | processing/notation/sheet_music.py:206-405 | The same gates for `render_score_to_pdf`'s own attempts, together with no retries among them. |
| Render.ChainLogFront | processing/notation/sheet_music.py:206-253 | Every chain, nested or not, logs MuseScore first with its own verdict. When LilyPond is gated in and MuseScore failed, it logs LilyPond second. |
| Render.PdfChainLogPastFront | processing/notation/sheet_music.py:255-405 | Past the front, the log is the failed early attempts, then the PNG export's nested attempts, then the conversion and reportlab's attempts. |
| Render.NestedLevelRerunsBackends | processing/notation/sheet_music.py:257-260 | When the early backends fail and both PNG writers raise, the nested chain (line 481, `use_lilypond` at its default) runs MuseScore a second time. It runs LilyPond whenever the probe passes and the nested MuseScore fails, even when the outer call was asked not to use LilyPond and its own attempts include none. |
| Render.ChainRecordsStages | processing/notation/sheet_music.py:216-251 | The MuseScore attempt records MuseScore's verdict. The LilyPond attempt records LilyPond's verdict on the files MuseScore left. |
| Render.ChainRecordsLateStages | processing/notation/sheet_music.py:262-405 | Past the front, the next attempt records the conversion's verdict on the PNG result. After a failed conversion come reportlab's own attempts. |
| Render.EmptyTempFileCountsAsPdf | processing/notation/sheet_music.py:195-198 | With no path given, a LilyPond compile that fails outright still counts as a success, because the empty temporary file is at the target (line 245). |
| Render.ReportlabPageIsReturned | processing/notation/sheet_music.py:382-385 | A written reportlab page makes `render_score_to_pdf` return its target, whatever came before and for every fuel. |
| Render.MinimalPdfIsReturned | processing/notation/sheet_music.py:386-401 | A hand-made PDF written after reportlab failed to import makes `render_score_to_pdf` return its target, for every fuel. |
| Render.ChainLastResort | processing/notation/sheet_music.py:300-401 | The chain returns its target when the last resort writes it. |
| Render.PdfChainFuelMonotone | processing/notation/sheet_music.py:260 | A chain that did not run out of fuel has its final outcome: any larger fuel gives the same run. |
| Render.RenderPdfFuelMonotone | processing/notation/sheet_music.py:481 | The same for `render_score_to_pdf` through the mutual recursion. |
| Render.StalledChainExhausts | processing/notation/sheet_music.py:257-260 | When every level fails before the PNG step and both PNG writers raise, the chain runs out of any fuel. |
| Render.RecursionUnbounded | processing/notation/sheet_music.py:464-481 | On such a host `render_score_to_pdf` exhausts every fuel: the recursion has no base case. |
| Render.PngExporterStopsRecursion | processing/notation/sheet_music.py:459-463 | When music21's PNG writer works at every path, one unit of fuel is enough. |
| Render.PngWriterFinishes | processing/notation/sheet_music.py:453-463 | A PNG export whose writer returns never runs out of fuel. |
| Render.TryLilyPondScoped | processing/notation/sheet_music.py:233-251 | The corrected LilyPond step never leaves its .ly file behind. |
| Render.LilyPondScopedAgrees | processing/notation/sheet_music.py:245-251 | The corrected step gives the same verdict, and the same files on success. On failure it leaves the written step's files minus the .ly file, which the written step does leave. |
| Render.GuardedPngImage | processing/notation/sheet_music.py:464-481 | The corrected PNG export never runs out of fuel and logs no nested attempt. It returns, if anything, the existing `<stem>_temp.png`. |
| Render.GuardedPdfChain | processing/notation/sheet_music.py:257-260 | The corrected chain always ends, needing no fuel, and returns, if anything, its existing target. |
| Render.GuardedChainAgrees | processing/notation/sheet_music.py:260 | Where some PNG writer works at every path, the corrected chain is the written chain at every fuel of at least one: the same result, files and trace. |
| Render.GuardedChainGates | processing/notation/sheet_music.py:206-260 | In the corrected chain nothing is nested. Its log is its own trace, which starts with MuseScore and its verdict and names no backend twice. LilyPond is in it exactly when it is enabled, probed available and MuseScore failed. |
| Render.FromPngUnnested | processing/notation/sheet_music.py:255-260 | Past the front, a PNG export that logged nothing leaves the call's trace as its whole log, with no backend twice and LilyPond exactly when gated in. |
| Render.GuardedChainEnds | processing/notation/sheet_music.py:478-481 | On a stalled host the written chain exhausts every fuel. The corrected chain still returns the target once reportlab or the hand-made PDF writes it. |
| Layout.CollectPitched | processing/notation/sheet_music.py:345-353 | The note loop lists exactly the pitched notes of the flattened score, and its count is their number. |
| Layout.PitchedExactly | processing/notation/sheet_music.py:348-353 | The listing keeps exactly the notes, in order, with their durations. Its entries sit at strictly increasing positions of the flattened list, and each position holds the note of its entry. Every note's position is among them, and the count is their number. |
| Layout.PitchedIgnoresUnpitched | processing/notation/sheet_music.py:348-349 | Rests and markers appended after the elements do not change the listing. |
| Layout.QuarterText | processing/notation/sheet_music.py:361 | The quarter-length text has at least three characters: a whole part, ".", and a digit. |
| Layout.ReadQuarterText | processing/notation/sheet_music.py:361 | The quarter-length text reads back to the duration it was printed from, negative ones included. |
| Layout.LabelTable | processing/notation/sheet_music.py:361 | 0.5, 1, 2 and 4 quarters are labelled "8th", "Q", "H" and "W". Every other duration is labelled by its quarter length followed by "QL", which reads back to the duration. |
| Layout.LabelInjective | processing/notation/sheet_music.py:361 | Different durations get different labels. |
| Layout.Capacity | processing/notation/sheet_music.py:367-373 | At least one note is always drawn. |
| Layout.CapacityStops | processing/notation/sheet_music.py:367-373 | After j notes the loop stops exactly when j reaches the capacity, that is, when the next row would fall below the half-inch margin. |
| Layout.GridStep | processing/notation/sheet_music.py:364-370 | Each note moves one column right, and after the third column back to the first and a quarter inch down. |
| Layout.DrawGrid | processing/notation/sheet_music.py:355-373 | The grid loop draws the first min(count, capacity) entries, entry k at column k mod 3 and row k / 3. |
| Layout.GridPositionsDistinct | processing/notation/sheet_music.py:364-370 | No two entries share a position. |
| Layout.GridAboveMargin | processing/notation/sheet_music.py:372-373 | From a first row at or above the margin, every drawn entry stays at or above it and above the footer. |
| Layout.PageCapacity | processing/notation/sheet_music.py:319-343 | The first row is at 8.7 inches below an instrument line and at 8.95 inches without one. A page holds 99 and 102 notes respectively. |
| Layout.NoteListing | processing/notation/sheet_music.py:345-377 | The drawn entries are the first pitched notes as "name (label)", all above the margin. Fewer entries than notes are drawn exactly when the notes exceed the page's capacity. The footer counts every pitched note, truncated or not. |
| MinimalPdf.ChunkAt | processing/notation/sheet_music.py:390-397 | Each chunk sits in the written file at the sum of the lengths of the chunks before it. |
| MinimalPdf.EntryRoundTrip | processing/notation/sheet_music.py:396 | An entry with the two-byte end-of-line is 20 bytes for offsets of up to ten digits, and reads back to its offset. |
| MinimalPdf.BuildConsistent | processing/notation/sheet_music.py:390-397 | In a file built with computed offsets, every offset in the table leads to its object, and `startxref` leads to the `xref` keyword. |
| MinimalPdf.WrittenFrame | processing/notation/sheet_music.py:391-397 | The written file opens with `%PDF-1.4` and ends with `%%EOF`. |
| MinimalPdf.WrittenStreamDeclares | processing/notation/sheet_music.py:395 | The written stream object declares a length of 50. |
| MinimalPdf.WrittenXrefDeclares | processing/notation/sheet_music.py:396 | The written table records objects at 9, 58, 115 and 203, in entries ended by a bare line feed. |
| MinimalPdf.WrittenTrailerDeclares | processing/notation/sheet_music.py:397 | The written trailer declares 5 objects and `startxref` 303. |
| MinimalPdf.WrittenOffsets | processing/notation/sheet_music.py:391-396 | Counting the writes puts the objects at 9, 58, 115 and 202, and the table at 294. |
| MinimalPdf.WrittenFirstOffsetsRight | processing/notation/sheet_music.py:396 | The first three recorded offsets lead to their objects. |
| MinimalPdf.WrittenObjectFourMisplaced | processing/notation/sheet_music.py:396 | Object 4 starts at 202. At the recorded 203 a reader does not find it. |
| MinimalPdf.WrittenStartXrefMisplaced | processing/notation/sheet_music.py:397 | The table starts at 294. At the recorded 303 there is no `xref` keyword. |
| MinimalPdf.WrittenLengthWrong | processing/notation/sheet_music.py:395 | The stream holds 42 bytes, not the declared 50, so the written object is not a stream object with a correct `/Length`. |
| MinimalPdf.WrittenEntriesShort | processing/notation/sheet_music.py:396 | Each written entry is 19 bytes, where the entry with a two-byte end-of-line is 20. |
| MinimalPdf.CorrectedStream | processing/notation/sheet_music.py:395 | The corrected stream object (declaring 42) is 92 bytes, the same size as the written one, so the later offsets do not move. |
| MinimalPdf.CorrectedOffsets | processing/notation/sheet_music.py:390-397 | The corrected file records 9, 58, 115 and 202, and a table start of 294. |
| MinimalPdf.CorrectedConsistent | processing/notation/sheet_music.py:390-397 | In the corrected file every recorded offset leads to its object, and 294 leads to `xref`. |

## Left out

- Render.Env: `os.makedirs` is not modelled. Its failure makes both functions return None at sheet_music.py:200 and 432, and the model assumes the directory can be made.
- Logging (`print`, `traceback.print_exc`) has no effect on results and is left out.
- Render.Env: the subprocess timeouts (5, 10 and 30 seconds) are folded into `Proc.Raised`, which stands for any exception the call raises.
- Render.RenderPdf: `dpi` is only passed on to the exporters, so it is not a parameter.
- Render.TempName: `NamedTemporaryFile` is an oracle keyed by suffix and purpose. The freshness of its names is not modelled, so a temporary name may collide with an existing path.
- Ingest.ConvertItem: constructing the music21 `Note` (line 164) is assumed never to raise once `note_name_to_midi` accepted the name.
- Ingest.Theory: `clean_note_string` and `note_name_to_midi` belong to a theory module that is not part of this model, so they are oracles.
- Ingest.Preamble: music21's Key, TimeSignature, MetronomeMark and Instrument objects are reduced to markers.
- Render.PdfChain: the fuel is a chosen abstraction, not Python's behaviour. The interpreter raises RecursionError wherever its stack limit falls, possibly inside a deeper level whose own handlers (lines 219, 252, 297, 404, 410) absorb it and carry on. The model instead counts a call with no fuel as raising into its caller's handler. The fuel lemmas state which runs end under some bound and which need more than any bound; they do not predict the stack depth at which Python gives up.
- Text.ParseInt: digit separators (PEP 515, so `int("1_0") == 10`) are not accepted, so an item with duration "1_0" is skipped where Python keeps it.
- Text.ParseInt: non-ASCII decimal digits (`int("٤") == 4`) are not accepted.
- Text.AsciiLower: Python's `str.lower()` also lower-cases non-ASCII letters, so a mode spelled with them keeps its case here.
- Json.PyInt: JSON floats are exact decimals, not binary doubles. `2.9999999999999999` decodes to 3.0 in Python, so `int()` gives 3 where the model gives 2.
- Json.PyInt: a float too large for a double (such as `1e400`) decodes to infinity, and `int(inf)` raises OverflowError, so Python skips the item. The model keeps it.
- Constants.DurationToHalves: `units * 0.5` is exact here. In Python it overflows for magnitudes beyond about 1.8e308 (the item is skipped) and rounds above 2^53.
- Layout.QuarterText: `str()` of a float of at least 1e16 quarters uses exponent notation, which the model does not reproduce.
- Layout.NoteListing: music21's ordering of `flatten()` across parts is modelled as the parts' elements concatenated in order.
- Layout.NoteListing: `str(pitch)` is the pitch name as the build stored it.
- Layout.NoteListing: whether an instrument line is drawn is a parameter. The key, time and tempo line's text is not modelled, only its height.
- Layout.NoteListing: positions are exact in twentieths of an inch where reportlab uses floats. The truncation test never compares equal values, so rounding cannot change which notes are drawn.
- Render.ConvertToPdf: the size of the PIL output is an oracle (`pilLarge`).
- Render.ConvertToPdf: `os.remove` is assumed to succeed. The model always removes the PNG (and `TryLilyPond` the .ly file on success), whereas a failed removal, which the source ignores, leaves the file behind.
- Json.Json: `json.loads` also accepts the literals NaN, Infinity and -Infinity, which the model cannot represent. As a duration, `int()` raises on them, so Python skips such an item.
- Ingest.ParseTimeSignature: music21's meter parser is the oracle `meterOk`. The function only chooses between the string and "4/4", so it has no contract of its own.
- Text.SplitWords: the words' contents are proved for one and two words (`Text.SplitWordsOfWord`, `Text.SplitWordsTwo`), the cases `parse_key_signature` reads, not for any number of words.
- Render.ChainNeverRetries: it is about one call's own attempts (`tried`). Counted over the whole log, a nested chain does retry MuseScore (`Render.NestedLevelRerunsBackends`).
- Render.ChainGatesOn: the LilyPond gate is about one call's own attempts. A nested chain runs with `use_lilypond` at its default, whatever the outer call was given.
- Render.ChainGates: the same restriction as `Render.ChainGatesOn` and `Render.ChainNeverRetries`.
- reportlab drawing, matplotlib, PIL and ImageMagick are foreign libraries: only their outcomes and the summary page's layout arithmetic are modelled.
- `create_sheet_music_files` uses random file names and calls the three exports independently, so it is not modelled.
- The DPI, colour and display constants (constants.py:39-73) are unused configuration.

## Findings

| source | as written | input that shows it | evidently intended | confidence | as-written member | corrected member |
|---|---|---|---|---|---|---|
| processing/notation/sheet_music.py:396 | The xref entry for object 4 records offset 203. | The minimal PDF itself: the first four writes are 9+49+57+87 = 202 bytes. | 202, the byte where `4 0 obj` starts (ISO 32000-1, section 7.5.4). | high, not executed | MinimalPdf.WrittenObjectFourMisplaced | MinimalPdf.CorrectedConsistent |
| processing/notation/sheet_music.py:397 | `startxref` is 303. | The minimal PDF itself: the objects end at byte 294. | 294, the offset of the `xref` keyword (ISO 32000-1, section 7.5.5). | high, not executed | MinimalPdf.WrittenStartXrefMisplaced | MinimalPdf.CorrectedConsistent |
| processing/notation/sheet_music.py:395 | The content stream declares `/Length 50`. | The stream data "BT ... ET" is 42 bytes. | `/Length 42` (ISO 32000-1, section 7.3.8). | high, not executed | MinimalPdf.WrittenLengthWrong | MinimalPdf.CorrectedStream |
| processing/notation/sheet_music.py:396 | The xref entries end in a bare line feed and are 19 bytes long. | Any entry, e.g. "0000000009 00000 n\n". | 20-byte entries ending in space plus line feed (ISO 32000-1, section 7.5.4). | high, not executed | MinimalPdf.WrittenEntriesShort | MinimalPdf.EntryRoundTrip |
| processing/notation/sheet_music.py:260 | The PNG step calls `render_score_to_image`, which falls back to `render_score_to_pdf` (line 481), which asks for a PNG again, with no depth bound. | A host with no MuseScore and no LilyPond where both PNG writers raise: the calls alternate until RecursionError. | The PNG step should not re-enter the PDF chain: a failed PNG export should move on to reportlab. | medium, not executed | Render.RecursionUnbounded | Render.GuardedChainEnds |
| processing/notation/sheet_music.py:481 | The image export's PDF fallback calls `render_score_to_pdf` with `use_lilypond` at its default True, so the nested chain runs MuseScore again and runs LilyPond even when the caller passed False. | `use_lilypond=False`, MuseScore fails, both PNG writers raise, the LilyPond probe passes: LilyPond compiles the nested fallback PDF, which the outer conversion then returns. | A chain asked not to use LilyPond never runs it, and no backend runs twice in one export. | medium, not executed | Render.NestedLevelRerunsBackends | Render.GuardedChainGates |
| processing/notation/sheet_music.py:245-251 | The temporary .ly file is removed only when LilyPond succeeds. | The probe passes, and the compile exits without writing the target. | The intermediate file is cleaned up on every path, as the PNG branch does for its temporary PNG (sheet_music.py:269-273). | medium, not executed | Render.TryLilyPond | Render.TryLilyPondScoped |

The corrected PDF file is `MinimalPdf.Corrected`: the same four objects with a true `/Length`, and a table built from the offsets they actually land at. `MinimalPdf.BuildConsistent` proves that any file built this way is consistent.

The corrected chain members behave as follows:

- `Render.GuardedPdfChain` ends without fuel.
- `Render.GuardedChainGates` proves that it logs no backend twice and runs LilyPond only when gated in.
- `Render.GuardedChainAgrees` proves it equal to the written chain wherever a PNG writer works.
- `Render.LilyPondScopedAgrees` ties the scoped LilyPond step to the written one.

The chain itself (`Render.PdfChain`) keeps the steps as written, so its traces and file sets describe what the program does.
