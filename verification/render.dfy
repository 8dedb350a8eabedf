/** The fallback chains of `render_score_to_pdf` and `render_score_to_image`.

    Every collaborator (MuseScore, LilyPond, PIL, ImageMagick, reportlab,
    the music21 exporters, matplotlib, `tempfile`) is an outcome oracle in
    `Env`, keyed by the paths it reads and writes. The file system is the
    set of existing paths.

    The two functions call each other without bound in the source. The
    model bounds the nesting with `fuel`: every nested call spends one
    unit, and a call made with no fuel left counts as raising into the
    caller's exception handler, with the run marked `exhausted`. This is a
    chosen abstraction, not Python's behaviour: the interpreter raises
    RecursionError wherever its stack limit happens to fall, possibly inside
    a deeper level whose own handlers absorb it. What the model claims about
    the recursion is therefore only which runs need more fuel than any
    bound. */
module Render {
  import opened Wrappers
  import opened Text
  import opened Paths

  type Files = set<Path>

  /** A subprocess: it raised (binary missing, timeout, any error) or it
      exited with a code. `wrote` says whether the target appeared. */
  datatype Proc = Raised(wrote: bool) | Exited(code: int, wrote: bool)

  /** An in-process library call: its import failed, it raised, or it
      returned. `wrote` says whether the target appeared. */
  datatype Lib = ImportFailed | Threw(wrote: bool) | Returned(wrote: bool)

  function Wrote(l: Lib): bool {
    match l
    case ImportFailed => false
    case Threw(w) => w
    case Returned(w) => w
  }

  datatype Env = Env(
    tempStem: (string, Path) -> Path,  // NamedTemporaryFile(suffix) name, minus the suffix
    mscore: Path -> Proc,              // mscore -o <t> -F - (musicxml on stdin)
    lilyProbe: Proc,                   // lilypond --version
    lilyExport: Path -> bool,          // score.write('lily') returns
    lilypond: Path -> Proc,            // lilypond -o <stem> <tmp.ly>
    pil: (Path, Path) -> Lib,          // Image.open(png).convert('RGB').save(t, 'PDF')
    pilLarge: (Path, Path) -> bool,    // os.path.getsize(t) > 100 after PIL saved png to t
    convert: (Path, Path) -> Proc,     // convert <png> <t>
    reportlab: Path -> Lib,            // the reportlab summary page
    minimal: Path -> Lib,              // writing the hand-made PDF
    svgWriter: Path -> Lib,            // score.write('svg')
    pngWriter: Path -> Lib,            // score.write('png')
    matplotlib: Path -> Lib)           // score.show('MusNotation').savefig

  function Write(fs: Files, p: Path, wrote: bool): Files {
    if wrote then fs + {p} else fs
  }

  /** The name `NamedTemporaryFile(suffix=...)` picks. */
  function TempName(env: Env, suffix: string, key: Path): (p: Path)
    ensures EndsWith(p, suffix)
  {
    env.tempStem(suffix, key) + suffix
  }

  // ---------------------------------------------------------------------
  // PDF chain

  datatype Backend = MuseScore | LilyPond | PngConversion | Reportlab | MinimalPdf

  datatype Attempt = Attempt(backend: Backend, ok: bool)

  datatype Stage = Stage(ok: bool, files: Files)

  /** A PDF export: the returned path, the files afterwards, the backends
      this call tried in order, every attempt made in order (those of the
      calls nested inside this one included), and whether a nested call
      ran out of fuel. */
  datatype PdfRun = PdfRun(result: Option<Path>, files: Files, tried: seq<Attempt>, log: seq<Attempt>, exhausted: bool)

  /** An image export: the returned path, the files afterwards, every
      attempt of the PDF chain it fell back to, and whether a nested call
      ran out of fuel. */
  datatype ImageRun = ImageRun(result: Option<Path>, files: Files, log: seq<Attempt>, exhausted: bool)

  /** The fixed priority order; LilyPond is present only when enabled and
      its version probe exits 0. */
  function FullOrder(lily: bool): (order: seq<Backend>)
    ensures |order| >= 4 && order[0] == MuseScore && order[|order| - 1] == MinimalPdf
    ensures forall i, j :: 0 <= i < j < |order| ==> order[i] != order[j]
    ensures LilyPond in order <==> lily
  {
    [MuseScore] + (if lily then [LilyPond] else []) + [PngConversion, Reportlab, MinimalPdf]
  }

  function Backends(tried: seq<Attempt>): (bs: seq<Backend>)
    ensures |bs| == |tried| && forall i :: 0 <= i < |tried| ==> bs[i] == tried[i].backend
  {
    seq(|tried|, i requires 0 <= i < |tried| => tried[i].backend)
  }

  predicate LilyAvailable(env: Env) {
    env.lilyProbe.Exited? && env.lilyProbe.code == 0
  }

  /** The path the PDF chain writes: the given path with ".pdf" forced, or
      a fresh temporary ".pdf" file. */
  function PdfTarget(env: Env, out: Option<Path>): (t: Path)
    ensures EndsWith(t, ".pdf")
    ensures out.Some? ==> t == EnsurePdf(out.value)
  {
    match out
    case Some(p) => EnsurePdf(p)
    case None => EnsurePdf(TempName(env, ".pdf", ""))
  }

  /** With no path given, the empty temporary file exists from the start. */
  function PdfStartFiles(env: Env, fs: Files, out: Option<Path>): (fs': Files)
    ensures out.None? ==> fs' == fs + {PdfTarget(env, out)}
    ensures out.Some? ==> fs' == fs
  {
    if out.None? then fs + {TempName(env, ".pdf", "")} else fs
  }

  /** MuseScore succeeds only with exit code 0 and the target present. */
  function TryMuseScore(env: Env, fs: Files, t: Path): (s: Stage)
    ensures s.ok <==> env.mscore(t).Exited? && env.mscore(t).code == 0 && (t in fs || env.mscore(t).wrote)
    ensures s.ok ==> t in s.files
    ensures s.files - {t} == fs - {t}
  {
    match env.mscore(t)
    case Raised(w) => Stage(false, Write(fs, t, w))
    case Exited(code, w) =>
      var fs' := Write(fs, t, w);
      Stage(code == 0 && t in fs', fs')
  }

  function LyTemp(env: Env, t: Path): (ly: Path)
    ensures EndsWith(ly, ".ly")
  {
    TempName(env, ".ly", t)
  }

  /** LilyPond, once its probe passed: export to a temporary .ly file,
      compile to `<stem>.pdf` (the target itself), succeed when the target
      exists. The .ly file is removed on success only. */
  function TryLilyPond(env: Env, fs: Files, t: Path): (s: Stage)
    requires EndsWith(t, ".pdf")
    ensures s.ok <==> env.lilyExport(t) && env.lilypond(t).Exited? && (t in fs || env.lilypond(t).wrote)
    ensures s.ok ==> t in s.files
    ensures LyTemp(env, t) in s.files <==> !s.ok
  {
    var ly := LyTemp(env, t);
    var fs1 := fs + {ly};
    var compiled := RsplitStem(t) + ".pdf";
    StemOfExtension(t, ".pdf");
    assert compiled == t;
    assert ly[|ly| - 1] == 'y' && t[|t| - 1] == 'f';
    if !env.lilyExport(t) then Stage(false, fs1)
    else
      match env.lilypond(t)
      case Raised(w) => Stage(false, Write(fs1, compiled, w))
      case Exited(_, w) =>
        var fs2 := Write(fs1, compiled, w);
        if t in fs2 then Stage(true, fs2 - {ly}) else Stage(false, fs2)
  }

  /** The PNG-to-PDF step after the PNG export returned `png`: PIL, and
      ImageMagick only when PIL raised (a failed PIL import raises too).
      PIL succeeds when the target exists and is over 100 bytes once the
      PNG is removed, ImageMagick whenever the target exists afterwards. */
  function ConvertToPdf(env: Env, fs: Files, t: Path, png: Option<Path>): (s: Stage)
    ensures s.ok ==> png.Some? && png.value in fs
    ensures s.ok && png.value != t ==> t in s.files
  {
    match png
    case None => Stage(false, fs)
    case Some(p) =>
      if p !in fs then Stage(false, fs)
      else
        match env.pil(p, t)
        case Returned(w) =>
          var fs2 := Write(fs, t, w) - {p};
          Stage(t in fs2 && env.pilLarge(p, t), fs2)
        case _ =>
          var fs2 := Write(fs, t, Wrote(env.pil(p, t)));
          match env.convert(p, t)
          case Raised(w) => Stage(false, Write(fs2, t, w))
          case Exited(_, w) =>
            var fs3 := Write(fs2, t, w);
            if t in fs3 then Stage(true, fs3 - {p}) else Stage(false, fs3)
  }

  /** When the conversion succeeds: PIL's result is judged by the
      target's existence and size, ImageMagick's by existence alone; either
      way the PNG is gone afterwards, and nothing but the target is
      created. */
  lemma ConvertToPdfSucceeds(env: Env, fs: Files, t: Path, png: Option<Path>)
    ensures var s := ConvertToPdf(env, fs, t, png);
      && (png.Some? && png.value in fs && env.pil(png.value, t).Returned? ==>
           (s.ok <==> (t in fs || env.pil(png.value, t).wrote) && png.value != t && env.pilLarge(png.value, t)))
      && (png.Some? && png.value in fs && !env.pil(png.value, t).Returned? ==>
           (s.ok <==> env.convert(png.value, t).Exited?
                      && (t in fs || Wrote(env.pil(png.value, t)) || env.convert(png.value, t).wrote)))
      && (s.ok && png.value != t ==> png.value !in s.files)
      && s.files - {t} <= fs
  {
  }

  datatype Tail = Tail(tried: seq<Attempt>, files: Files)

  /** reportlab, and the hand-made PDF only when importing reportlab fails;
      any other reportlab error ends the chain. */
  function TryReportlab(env: Env, fs: Files, t: Path): (r: Tail)
    ensures |r.tried| >= 1 && r.tried[0].backend == Reportlab
    ensures env.reportlab(t).ImportFailed? ==>
      |r.tried| == 2 && !r.tried[0].ok && r.tried[1].backend == MinimalPdf
    ensures !env.reportlab(t).ImportFailed? ==> |r.tried| == 1
    ensures r.tried[|r.tried| - 1].ok ==> t in r.files
    ensures r.files - {t} == fs - {t}
  {
    match env.reportlab(t)
    case ImportFailed =>
      var fs' := Write(fs, t, Wrote(env.minimal(t)));
      Tail([Attempt(Reportlab, false), Attempt(MinimalPdf, env.minimal(t).Returned? && t in fs')], fs')
    case Threw(w) => Tail([Attempt(Reportlab, false)], Write(fs, t, w))
    case Returned(w) =>
      var fs' := Write(fs, t, w);
      Tail([Attempt(Reportlab, t in fs')], fs')
  }

  /** reportlab, and the hand-made PDF after a failed import, succeed
      exactly when they return and the target exists; any other reportlab
      error is a failure. */
  lemma ReportlabSucceeds(env: Env, fs: Files, t: Path)
    ensures var r := TryReportlab(env, fs, t);
      && (r.tried[0].ok <==> env.reportlab(t).Returned? && (t in fs || env.reportlab(t).wrote))
      && (env.reportlab(t).ImportFailed? ==>
           (r.tried[1].ok <==> env.minimal(t).Returned? && (t in fs || Wrote(env.minimal(t)))))
  {
  }

  // ---------------------------------------------------------------------
  // Image export

  datatype ImageFormat = Svg | Png | Unsupported

  /** `format.lower()` compared with 'svg' and 'png'. */
  function FormatOf(format: string): ImageFormat {
    var f := AsciiLower(format);
    if f == "svg" then Svg else if f == "png" then Png else Unsupported
  }

  /** The extension an export of that kind forces; an unsupported format
      gets a ".png" temporary file. */
  function Extension(kind: ImageFormat): (ext: string)
    ensures |ext| == 4 && ext[0] == '.' && forall i :: 1 <= i < 4 ==> ext[i] != '.'
  {
    if kind == Svg then ".svg" else ".png"
  }

  function ImageStart(env: Env, out: Option<Path>, kind: ImageFormat): Path {
    match out
    case Some(p) => p
    case None => TempName(env, Extension(kind), "")
  }

  /** The path the exporter writes. */
  function ImageTarget(env: Env, out: Option<Path>, kind: ImageFormat): (p: Path)
    ensures EndsWith(p, Extension(kind))
    ensures out.Some? && EndsWith(out.value, Extension(kind)) ==> p == out.value
  {
    ForceSuffix(ImageStart(env, out, kind), Extension(kind))
  }


  /** The files when an image export starts: with no path given, the
      empty temporary file exists. */
  function ImageStartFiles(env: Env, fs: Files, out: Option<Path>, kind: ImageFormat): (fs': Files)
    ensures out.None? ==> fs' == fs + {ImageStart(env, out, kind)}
    ensures out.Some? ==> fs' == fs
  {
    if out.None? then fs + {ImageStart(env, out, kind)} else fs
  }

  /** How an image export ends before any nested call: with its own
      outcome, or by handing a ".pdf" path to the PDF chain because the
      writers raised. */
  datatype ImageStep = Finished(run: ImageRun) | Fallback(files: Files, q: Path)

  /** `render_score_to_image` on its forced target `p`, up to the fallback
      to the PDF chain. */
  function ImageFront(env: Env, fs: Files, p: Path, kind: ImageFormat): (s: ImageStep)
    ensures s.Finished? ==> !s.run.exhausted
    ensures s.Finished? && s.run.result.Some? ==> s.run.result.value == p && p in s.run.files
    ensures s.Fallback? ==> s.q == FallbackPdf(p, Extension(kind)) && EndsWith(s.q, ".pdf")
  {
    match kind
    case Unsupported => Finished(ImageRun(None, fs, [], false))
    case Svg =>
      (match env.svgWriter(p)
       case Returned(w) =>
         var fs1 := Write(fs, p, w);
         Finished(ImageRun(if p in fs1 then Some(p) else None, fs1, [], false))
       case _ => Fallback(Write(fs, p, Wrote(env.svgWriter(p))), FallbackPdf(p, ".svg")))
    case Png =>
      match env.pngWriter(p)
      case Returned(w) =>
        var fs1 := Write(fs, p, w);
        Finished(ImageRun(if p in fs1 then Some(p) else None, fs1, [], false))
      case _ =>
        var fs1 := Write(fs, p, Wrote(env.pngWriter(p)));
        match env.matplotlib(p)
        case Returned(w) =>
          var fs2 := Write(fs1, p, w);
          Finished(ImageRun(if p in fs2 then Some(p) else None, fs2, [], false))
        case _ => Fallback(Write(fs1, p, Wrote(env.matplotlib(p))), FallbackPdf(p, ".png"))
  }

  /** The image export falls back to the PDF chain exactly when every
      writer for its format raised; an unsupported format writes nothing. */
  lemma ImageFrontFallsBack(env: Env, fs: Files, p: Path, kind: ImageFormat)
    ensures var s := ImageFront(env, fs, p, kind);
      && (kind == Unsupported ==> s == Finished(ImageRun(None, fs, [], false)))
      && (s.Fallback? <==>
           || (kind == Svg && !env.svgWriter(p).Returned?)
           || (kind == Png && !env.pngWriter(p).Returned? && !env.matplotlib(p).Returned?))
  {
  }

  /** `render_score_to_image` on its forced target `p`. */
  function ImageChain(env: Env, fs: Files, p: Path, kind: ImageFormat, fuel: nat): (r: ImageRun)
    ensures r.result.Some? ==> r.result.value in r.files
    ensures r.result.Some? ==> r.result.value == p || r.result.value == FallbackPdf(p, Extension(kind))
    decreases fuel, 2
  {
    ImageAfter(env, ImageFront(env, fs, p, kind), fuel)
  }

  /** An image export from where its front leaves it: the finished run,
      or `render_score_to_pdf` on the ".pdf" fallback with `use_lilypond`
      at its default. With no fuel left the nested call raises and the
      outer handler returns None. */
  function ImageAfter(env: Env, step: ImageStep, fuel: nat): (r: ImageRun)
    requires step.Fallback? ==> EndsWith(step.q, ".pdf")
    ensures step.Finished? ==> r == step.run
    ensures step.Fallback? && r.result.Some? ==> r.result.value == step.q && step.q in r.files
    decreases fuel, 1
  {
    match step
    case Finished(run) => run
    case Fallback(files, q) =>
      if fuel == 0 then ImageRun(None, files, [], true)
      else
        var pdf := PdfChain(env, files, q, true, fuel - 1);
        ImageRun(pdf.result, pdf.files, pdf.log, pdf.exhausted)
  }

  /** An image export runs out of fuel only through the fallback, so only
      when every writer for its format raised. */
  lemma ImageChainExhausted(env: Env, fs: Files, p: Path, kind: ImageFormat, fuel: nat)
    ensures ImageChain(env, fs, p, kind, fuel).exhausted ==>
      || (kind == Svg && !env.svgWriter(p).Returned?)
      || (kind == Png && !env.pngWriter(p).Returned? && !env.matplotlib(p).Returned?)
  {
    ImageFrontFallsBack(env, fs, p, kind);
  }

  /** A writer that returns decides the export by existence alone: it
      succeeds exactly when the target is there afterwards, whether the
      writer created it or it was there before. So does matplotlib's figure
      once the PNG writer raised. An unsupported format writes nothing. */
  lemma ImageChainSucceeds(env: Env, fs: Files, p: Path, kind: ImageFormat, fuel: nat)
    ensures var r := ImageChain(env, fs, p, kind, fuel);
      && (kind == Svg && env.svgWriter(p).Returned? ==>
           r.result == (if p in fs || env.svgWriter(p).wrote then Some(p) else None))
      && (kind == Png && env.pngWriter(p).Returned? ==>
           r.result == (if p in fs || env.pngWriter(p).wrote then Some(p) else None))
      && (kind == Png && !env.pngWriter(p).Returned? && env.matplotlib(p).Returned? ==>
           r.result == (if p in fs || Wrote(env.pngWriter(p)) || env.matplotlib(p).wrote then Some(p) else None))
      && (kind == Unsupported ==> r == ImageRun(None, fs, [], false))
  {
  }

  /** `render_score_to_image`: the format is compared case-insensitively
      with "svg" and "png"; the path is forced to the format's extension
      (an unsupported format returns before any writing). */
  function RenderImage(env: Env, fs: Files, out: Option<Path>, format: string, fuel: nat): (r: ImageRun)
    ensures FormatOf(format) == Unsupported ==> r.result.None? && !r.exhausted
    ensures r.result.Some? ==>
      var p := ImageTarget(env, out, FormatOf(format));
      && r.result.value in r.files
      && (r.result.value == p || r.result.value == FallbackPdf(p, Extension(FormatOf(format))))
      && (EndsWith(r.result.value, Extension(FormatOf(format))) || EndsWith(r.result.value, ".pdf"))
  {
    var kind := FormatOf(format);
    ImageChain(env, ImageStartFiles(env, fs, out, kind), ImageTarget(env, out, kind), kind, fuel)
  }

  /** A writer that returns without writing still succeeds when the
      target is already there: the empty temporary file made when no path
      is given, or an existing file at the forced path. */
  lemma ExistingFileCountsAsImage(env: Env, fs: Files, out: Option<Path>, format: string, fuel: nat)
    requires FormatOf(format) != Unsupported
    requires out.None? || ImageTarget(env, out, FormatOf(format)) in fs
    requires FormatOf(format) == Svg ==> env.svgWriter(ImageTarget(env, out, Svg)) == Returned(false)
    requires FormatOf(format) == Png ==> env.pngWriter(ImageTarget(env, out, Png)) == Returned(false)
    ensures RenderImage(env, fs, out, format, fuel).result == Some(ImageTarget(env, out, FormatOf(format)))
  {
    var kind := FormatOf(format);
    var p := ImageTarget(env, out, kind);
    if out.None? {
      assert p == ImageStart(env, out, kind);
    }
    assert p in ImageStartFiles(env, fs, out, kind);
    ImageChainSucceeds(env, ImageStartFiles(env, fs, out, kind), p, kind, fuel);
  }

  // ---------------------------------------------------------------------
  // The PDF chain as a whole

  /** What a trace of the PDF chain looks like: a prefix of the fixed
      order, every attempt but the last failed, and the chain stops short
      of the end only on a success or on a reportlab error other than a
      failed import. */
  predicate ChainTrace(tried: seq<Attempt>, gate: bool, importFailed: bool) {
    && |tried| > 0
    && Backends(tried) <= FullOrder(gate)
    && (forall i :: 0 <= i < |tried| - 1 ==> !tried[i].ok)
    && (|tried| < |FullOrder(gate)| ==>
         tried[|tried| - 1].ok || (tried[|tried| - 1].backend == Reportlab && !importFailed))
  }

  /** The attempts before the PNG step once MuseScore failed. */
  function Before(gate: bool, lilyOk: bool): seq<Attempt> {
    [Attempt(MuseScore, false)] + (if gate then [Attempt(LilyPond, lilyOk)] else [])
  }

  /** What `TryReportlab` records. */
  predicate TailShape(tail: seq<Attempt>, importFailed: bool) {
    && |tail| >= 1 && tail[0].backend == Reportlab
    && (importFailed ==> |tail| == 2 && !tail[0].ok && tail[1].backend == MinimalPdf)
    && (!importFailed ==> |tail| == 1)
  }

  /** What the chain records from the PNG step on: a successful
      conversion, or a failed one followed by the reportlab attempts. */
  predicate PngTrace(tried: seq<Attempt>, importFailed: bool) {
    || tried == [Attempt(PngConversion, true)]
    || (|tried| > 1 && tried[0] == Attempt(PngConversion, false) && TailShape(tried[1..], importFailed))
  }

  /** The early exits give a well-formed trace. */
  lemma EarlyTraces(gate: bool, importFailed: bool)
    ensures ChainTrace([Attempt(MuseScore, true)], gate, importFailed)
    ensures gate ==> ChainTrace(Before(gate, true), gate, importFailed)
  {
    assert Backends([Attempt(MuseScore, true)]) == FullOrder(gate)[..1];
    if gate {
      assert Backends(Before(gate, true)) == FullOrder(gate)[..2];
    }
  }

  /** Reaching the PNG step gives a well-formed trace. */
  lemma LateTrace(gate: bool, importFailed: bool, rest: seq<Attempt>)
    requires PngTrace(rest, importFailed)
    ensures ChainTrace(Before(gate, false) + rest, gate, importFailed)
    ensures PngConversion in Backends(Before(gate, false) + rest)
  {
    var q := Before(gate, false) + rest;
    assert Backends(q) == FullOrder(gate)[..|q|];
    assert Backends(q)[|Before(gate, false)|] == PngConversion;
  }

  /** The attempts before the PNG step. */
  datatype PdfStep = Done(run: PdfRun) | Continue(files: Files)

  /** The PDF chain on target `t` up to the PNG step: MuseScore and, when
      gated in, LilyPond. */
  function PdfFront(env: Env, fs: Files, t: Path, useLily: bool): (s: PdfStep)
    requires EndsWith(t, ".pdf")
    ensures s.Done? ==> s.run.result == Some(t) && t in s.run.files && !s.run.exhausted
    ensures s.Done? ==> s.run.log == s.run.tried
  {
    var gate := useLily && LilyAvailable(env);
    var muse := TryMuseScore(env, fs, t);
    if muse.ok then Done(PdfRun(Some(t), muse.files, [Attempt(MuseScore, true)], [Attempt(MuseScore, true)], false))
    else
      var lily := if gate then TryLilyPond(env, muse.files, t) else Stage(false, muse.files);
      if lily.ok then Done(PdfRun(Some(t), lily.files, Before(gate, true), Before(gate, true), false))
      else Continue(lily.files)
  }

  /** MuseScore's success ends the chain at once; otherwise LilyPond's,
      when it is gated in, ends it after two attempts. */
  lemma PdfFrontShape(env: Env, fs: Files, t: Path, useLily: bool)
    requires EndsWith(t, ".pdf")
    ensures var s := PdfFront(env, fs, t, useLily);
      && (s.Done? && TryMuseScore(env, fs, t).ok ==> s.run.tried == [Attempt(MuseScore, true)])
      && (s.Done? && !TryMuseScore(env, fs, t).ok ==>
           useLily && LilyAvailable(env) && s.run.tried == Before(true, true))
      && (s.Done? <==>
           || TryMuseScore(env, fs, t).ok
           || (useLily && LilyAvailable(env) && TryLilyPond(env, TryMuseScore(env, fs, t).files, t).ok))
  {
  }

  /** The PNG export the PDF chain asks for, on `<stem>_temp.png` (which
      already ends in ".png", so it is the export's target as given); with
      no fuel left the call raises, which the chain's PNG handler absorbs. */
  function PngImage(env: Env, fs: Files, t: Path, fuel: nat): (r: ImageRun)
    ensures r.result.Some? ==> r.result.value in r.files
    ensures r.result.Some? ==>
      r.result.value == PngPath(t) || r.result.value == FallbackPdf(PngPath(t), ".png")
    decreases fuel, 3
  {
    if fuel == 0 then ImageRun(None, fs, [], true)
    else ImageChain(env, fs, PngPath(t), Png, fuel - 1)
  }

  /** From the PNG step on, given the PNG export's outcome: convert it,
      then fall back to reportlab. */
  function AfterPng(env: Env, t: Path, img: ImageRun): (r: PdfRun)
    requires EndsWith(t, ".pdf")
    requires img.result.Some? ==> img.result.value in img.files
    requires img.result.Some? ==>
      img.result.value == PngPath(t) || img.result.value == FallbackPdf(PngPath(t), ".png")
    ensures r.result.Some? ==> r.result.value == t && t in r.files
    ensures r.exhausted == img.exhausted
    ensures r.log == r.tried
  {
    FallbackOfPngPathDiffers(t);
    var conv := ConvertToPdf(env, img.files, t, img.result);
    if conv.ok then PdfRun(Some(t), conv.files, [Attempt(PngConversion, true)], [Attempt(PngConversion, true)], img.exhausted)
    else
      var tail := TryReportlab(env, conv.files, t);
      var ok := tail.tried[|tail.tried| - 1].ok;
      var tried := [Attempt(PngConversion, false)] + tail.tried;
      PdfRun(if ok then Some(t) else None, tail.files, tried, tried, img.exhausted)
  }

  /** From the PNG step on, the chain records a conversion and then the
      reportlab attempts; it returns a path exactly when its last attempt
      succeeded, and none after a reportlab error other than a failed
      import. */
  lemma AfterPngTrace(env: Env, t: Path, img: ImageRun)
    requires EndsWith(t, ".pdf")
    requires img.result.Some? ==> img.result.value in img.files
    requires img.result.Some? ==>
      img.result.value == PngPath(t) || img.result.value == FallbackPdf(PngPath(t), ".png")
    ensures var r := AfterPng(env, t, img);
      && PngTrace(r.tried, env.reportlab(t).ImportFailed?)
      && (r.result.Some? <==> r.tried[|r.tried| - 1].ok)
      && (env.reportlab(t).Threw? && |r.tried| > 1 ==> r.result.None?)
  {
    var r := AfterPng(env, t, img);
    if |r.tried| > 1 {
      assert r.tried[1..] == TryReportlab(env, ConvertToPdf(env, img.files, t, img.result).files, t).tried;
    }
  }

  /** The conversion and reportlab attempts record those steps' own
      outcomes: the conversion's on the PNG export's result, reportlab's
      and the hand-made PDF's on the files the conversion left. */
  lemma AfterPngRecords(env: Env, t: Path, img: ImageRun)
    requires EndsWith(t, ".pdf")
    requires img.result.Some? ==> img.result.value in img.files
    requires img.result.Some? ==>
      img.result.value == PngPath(t) || img.result.value == FallbackPdf(PngPath(t), ".png")
    ensures var r := AfterPng(env, t, img);
      var conv := ConvertToPdf(env, img.files, t, img.result);
      var tail := TryReportlab(env, conv.files, t);
      && r.tried[0] == Attempt(PngConversion, conv.ok)
      && (!conv.ok ==> r.tried[1..] == tail.tried)
  {
  }

  /** A reportlab page that is written, or a hand-made PDF that is written
      after reportlab failed to import, is returned whatever happened
      before. */
  lemma AfterPngLastResort(env: Env, t: Path, img: ImageRun)
    requires EndsWith(t, ".pdf")
    requires img.result.Some? ==> img.result.value in img.files
    requires img.result.Some? ==>
      img.result.value == PngPath(t) || img.result.value == FallbackPdf(PngPath(t), ".png")
    requires env.reportlab(t) == Returned(true) || (env.reportlab(t).ImportFailed? && env.minimal(t) == Returned(true))
    ensures AfterPng(env, t, img).result == Some(t)
  {
  }

  /** The PDF chain on its target `t`. */
  function PdfChain(env: Env, fs: Files, t: Path, useLily: bool, fuel: nat): (r: PdfRun)
    requires EndsWith(t, ".pdf")
    ensures r.result.Some? ==> r.result.value == t && t in r.files
    decreases fuel, 4
  {
    match PdfFront(env, fs, t, useLily)
    case Done(run) => run
    case Continue(files) => FromPng(env, t, useLily && LilyAvailable(env), PngImage(env, files, t, fuel))
  }

  /** The chain past its front, given the PNG export's outcome: the failed
      attempts before the PNG step come first. */
  function FromPng(env: Env, t: Path, gate: bool, img: ImageRun): (r: PdfRun)
    requires EndsWith(t, ".pdf")
    requires img.result.Some? ==> img.result.value in img.files
    requires img.result.Some? ==>
      img.result.value == PngPath(t) || img.result.value == FallbackPdf(PngPath(t), ".png")
    ensures r.result.Some? ==> r.result.value == t && t in r.files
  {
    var rest := AfterPng(env, t, img);
    PdfRun(rest.result, rest.files, Before(gate, false) + rest.tried, Before(gate, false) + img.log + rest.tried, rest.exhausted)
  }

  /** The trace of a chain that reached the PNG step is well formed. */
  lemma JoinedTrace(env: Env, t: Path, gate: bool, img: ImageRun)
    requires EndsWith(t, ".pdf")
    requires img.result.Some? ==> img.result.value in img.files
    requires img.result.Some? ==>
      img.result.value == PngPath(t) || img.result.value == FallbackPdf(PngPath(t), ".png")
    ensures var rest := AfterPng(env, t, img);
      var tried := Before(gate, false) + rest.tried;
      && ChainTrace(tried, gate, env.reportlab(t).ImportFailed?)
      && (rest.result.Some? <==> tried[|tried| - 1].ok)
      && PngConversion in Backends(tried)
  {
    var rest := AfterPng(env, t, img);
    AfterPngTrace(env, t, img);
    LateTrace(gate, env.reportlab(t).ImportFailed?, rest.tried);
    assert (Before(gate, false) + rest.tried)[|Before(gate, false) + rest.tried| - 1] == rest.tried[|rest.tried| - 1];
  }

  /** The chain's trace is well formed, it returns a path exactly when its
      last attempt succeeded, and a run out of fuel got as far as the PNG
      step. */
  lemma PdfChainTrace(env: Env, fs: Files, t: Path, useLily: bool, fuel: nat)
    requires EndsWith(t, ".pdf")
    ensures var r := PdfChain(env, fs, t, useLily, fuel);
      && ChainTrace(r.tried, useLily && LilyAvailable(env), env.reportlab(t).ImportFailed?)
      && (r.result.Some? <==> r.tried[|r.tried| - 1].ok)
      && (r.exhausted ==> PngConversion in Backends(r.tried))
  {
    match PdfFront(env, fs, t, useLily)
    case Done(run) =>
      PdfFrontShape(env, fs, t, useLily);
      EarlyTraces(useLily && LilyAvailable(env), env.reportlab(t).ImportFailed?);
    case Continue(files) =>
      JoinedTrace(env, t, useLily && LilyAvailable(env), PngImage(env, files, t, fuel));
  }

  /** `render_score_to_pdf`: the target is the given path with ".pdf"
      forced, or a fresh (and already existing) temporary file. */
  function RenderPdf(env: Env, fs: Files, out: Option<Path>, useLily: bool, fuel: nat): (r: PdfRun)
    ensures r.result.Some? ==> r.result.value == PdfTarget(env, out) && r.result.value in r.files
    ensures ChainTrace(r.tried, useLily && LilyAvailable(env), env.reportlab(PdfTarget(env, out)).ImportFailed?)
    ensures r.result.Some? <==> r.tried[|r.tried| - 1].ok
    ensures r.exhausted ==> PngConversion in Backends(r.tried)
  {
    PdfChainTrace(env, PdfStartFiles(env, fs, out), PdfTarget(env, out), useLily, fuel);
    PdfChain(env, PdfStartFiles(env, fs, out), PdfTarget(env, out), useLily, fuel)
  }

  // ---------------------------------------------------------------------
  // Properties of the chain

  /** A well-formed trace names no backend twice. */
  lemma TraceDistinct(tried: seq<Attempt>, gate: bool, importFailed: bool)
    requires ChainTrace(tried, gate, importFailed)
    ensures forall i, j :: 0 <= i < j < |tried| ==> tried[i].backend != tried[j].backend
  {
    var order := FullOrder(gate);
    forall i, j | 0 <= i < j < |tried|
      ensures tried[i].backend != tried[j].backend
    {
      assert Backends(tried)[i] == order[i] && Backends(tried)[j] == order[j];
    }
  }

  /** One call tries no backend twice. This is about the call's own
      attempts (`tried`): the chains nested inside it run the backends
      again, as `NestedLevelRerunsBackends` shows. */
  lemma ChainNeverRetries(env: Env, fs: Files, out: Option<Path>, useLily: bool, fuel: nat)
    ensures var r := RenderPdf(env, fs, out, useLily, fuel);
      forall i, j :: 0 <= i < j < |r.tried| ==> r.tried[i].backend != r.tried[j].backend
  {
    var r := RenderPdf(env, fs, out, useLily, fuel);
    TraceDistinct(r.tried, useLily && LilyAvailable(env), env.reportlab(PdfTarget(env, out)).ImportFailed?);
  }

  /** Which backends one call of the chain reaches on target `t` (its own
      attempts; nested chains are not gated by `useLily`): MuseScore always,
      first; LilyPond exactly when it is enabled, its probe passes and
      MuseScore failed; the hand-made PDF exactly when reportlab was reached
      and failed to import; any other reportlab error gives no PDF. */
  lemma ChainGatesOn(env: Env, fs: Files, t: Path, useLily: bool, fuel: nat)
    requires EndsWith(t, ".pdf")
    ensures var r := PdfChain(env, fs, t, useLily, fuel);
      && r.tried[0] == Attempt(MuseScore, TryMuseScore(env, fs, t).ok)
      && (LilyPond in Backends(r.tried) <==> useLily && LilyAvailable(env) && !r.tried[0].ok)
      && (MinimalPdf in Backends(r.tried) <==> Reportlab in Backends(r.tried) && env.reportlab(t).ImportFailed?)
      && (Reportlab in Backends(r.tried) && env.reportlab(t).Threw? ==> r.result.None?)
  {
    PdfFrontShape(env, fs, t, useLily);
    match PdfFront(env, fs, t, useLily)
    case Done(run) =>
      if TryMuseScore(env, fs, t).ok {
        assert Backends(run.tried) == [MuseScore];
      } else {
        assert Backends(run.tried) == [MuseScore, LilyPond];
      }
    case Continue(files) =>
      var img := PngImage(env, files, t, fuel);
      AfterPngTrace(env, t, img);
      LateGates(useLily && LilyAvailable(env), env.reportlab(t).ImportFailed?, AfterPng(env, t, img).tried);
  }

  /** `ChainGatesOn` once the chain reached the PNG step, for any trace
      of the steps from there on. */
  lemma LateGates(gate: bool, importFailed: bool, rest: seq<Attempt>)
    requires PngTrace(rest, importFailed)
    ensures var tried := Before(gate, false) + rest;
      && tried[0] == Attempt(MuseScore, false)
      && (LilyPond in Backends(tried) <==> gate)
      && (MinimalPdf in Backends(tried) <==> Reportlab in Backends(tried) && importFailed)
      && (Reportlab in Backends(tried) <==> |rest| > 1)
  {
    var b := Before(gate, false);
    assert Backends(b + rest) == Backends(b) + Backends(rest);
    if gate {
      assert Backends(b) == [MuseScore, LilyPond];
    } else {
      assert Backends(b) == [MuseScore];
    }
    if |rest| == 1 {
      assert Backends(rest) == [PngConversion];
    } else if |rest| == 2 {
      assert Backends(rest) == [PngConversion, Reportlab];
    } else {
      assert Backends(rest) == [PngConversion, Reportlab, MinimalPdf];
    }
  }

  /** `ChainGatesOn` for `render_score_to_pdf`, together with no retries,
      both about the call's own attempts. */
  lemma ChainGates(env: Env, fs: Files, out: Option<Path>, useLily: bool, fuel: nat)
    ensures var r := RenderPdf(env, fs, out, useLily, fuel);
      var t := PdfTarget(env, out);
      && r.tried[0] == Attempt(MuseScore, TryMuseScore(env, PdfStartFiles(env, fs, out), t).ok)
      && (LilyPond in Backends(r.tried) <==> useLily && LilyAvailable(env) && !r.tried[0].ok)
      && (MinimalPdf in Backends(r.tried) <==> Reportlab in Backends(r.tried) && env.reportlab(t).ImportFailed?)
      && (Reportlab in Backends(r.tried) && env.reportlab(t).Threw? ==> r.result.None?)
      && (forall i, j :: 0 <= i < j < |r.tried| ==> r.tried[i].backend != r.tried[j].backend)
  {
    ChainGatesOn(env, PdfStartFiles(env, fs, out), PdfTarget(env, out), useLily, fuel);
    ChainNeverRetries(env, fs, out, useLily, fuel);
  }

  /** Every chain, nested or not, logs its MuseScore attempt first and,
      when LilyPond is gated in and MuseScore failed, its LilyPond attempt
      second. */
  lemma ChainLogFront(env: Env, fs: Files, t: Path, useLily: bool, fuel: nat)
    requires EndsWith(t, ".pdf")
    ensures var r := PdfChain(env, fs, t, useLily, fuel);
      && |r.log| > 0 && r.log[0] == Attempt(MuseScore, TryMuseScore(env, fs, t).ok)
      && (useLily && LilyAvailable(env) && !TryMuseScore(env, fs, t).ok ==>
           |r.log| > 1 && r.log[1].backend == LilyPond)
  {
    PdfFrontShape(env, fs, t, useLily);
  }

  /** When MuseScore (and LilyPond, if gated in) fail and both PNG writers
      raise, the PNG export falls back to a whole nested PDF chain, called
      with `use_lilypond` at its default: MuseScore runs a second time, and
      LilyPond runs whenever its probe passes and the nested MuseScore
      fails, even in a chain that was asked not to use it. */
  lemma NestedLevelRerunsBackends(env: Env, fs: Files, t: Path, useLily: bool, fuel: nat)
    requires EndsWith(t, ".pdf")
    requires PdfFront(env, fs, t, useLily).Continue?
    requires !env.pngWriter(PngPath(t)).Returned? && !env.matplotlib(PngPath(t)).Returned?
    requires fuel >= 2
    ensures var r := PdfChain(env, fs, t, useLily, fuel);
      var f := ImageFront(env, PdfFront(env, fs, t, useLily).files, PngPath(t), Png);
      var k := |Before(useLily && LilyAvailable(env), false)|;
      && f.Fallback?
      && r.log[0] == Attempt(MuseScore, false)
      && |r.log| > k && r.log[k] == Attempt(MuseScore, TryMuseScore(env, f.files, f.q).ok)
      && (!useLily ==> LilyPond !in Backends(r.tried))
      && (LilyAvailable(env) && !TryMuseScore(env, f.files, f.q).ok ==>
           LilyPond in Backends(r.log))
  {
    var step := PdfFront(env, fs, t, useLily);
    var f := ImageFront(env, step.files, PngPath(t), Png);
    assert f.Fallback?;
    var b := Before(useLily && LilyAvailable(env), false);
    var nested := PdfChain(env, f.files, f.q, true, fuel - 2);
    PngStepIsNestedChain(env, step.files, t, fuel);
    var img := PngImage(env, step.files, t, fuel);
    PdfChainLogPastFront(env, fs, t, useLily, fuel);
    ChainLogFront(env, f.files, f.q, true, fuel - 2);
    ChainGatesOn(env, fs, t, useLily, fuel);
    LogAroundNested(b, nested.log, AfterPng(env, t, img).tried,
      TryMuseScore(env, f.files, f.q).ok, LilyAvailable(env));
  }

  /** The PNG step that falls back, with two units of fuel or more, logs
      the nested chain's attempts. */
  lemma PngStepIsNestedChain(env: Env, fs: Files, t: Path, fuel: nat)
    requires ImageFront(env, fs, PngPath(t), Png).Fallback?
    requires fuel >= 2
    ensures var f := ImageFront(env, fs, PngPath(t), Png);
      PngImage(env, fs, t, fuel).log == PdfChain(env, f.files, f.q, true, fuel - 2).log
  {
    PngImageUnfold(env, fs, t, fuel);
    ImageChainFallback(env, fs, PngPath(t), Png, fuel - 1);
  }

  /** Past the front, the log holds the failed early attempts, then the
      PNG export's nested attempts, then the conversion and reportlab. */
  lemma PdfChainLogPastFront(env: Env, fs: Files, t: Path, useLily: bool, fuel: nat)
    requires EndsWith(t, ".pdf")
    requires PdfFront(env, fs, t, useLily).Continue?
    ensures var img := PngImage(env, PdfFront(env, fs, t, useLily).files, t, fuel);
      PdfChain(env, fs, t, useLily, fuel).log ==
        Before(useLily && LilyAvailable(env), false) + img.log + AfterPng(env, t, img).tried
  {
  }

  /** Where a nested log that starts with MuseScore (then LilyPond) sits
      after the early attempts. */
  lemma LogAroundNested(b: seq<Attempt>, nested: seq<Attempt>, rest: seq<Attempt>, museOk: bool, lily: bool)
    requires |b| > 0 && b[0] == Attempt(MuseScore, false)
    requires |nested| > 0 && nested[0] == Attempt(MuseScore, museOk)
    requires lily && !museOk ==> |nested| > 1 && nested[1].backend == LilyPond
    ensures var log := b + nested + rest;
      && log[0] == Attempt(MuseScore, false)
      && |log| > |b| && log[|b|] == Attempt(MuseScore, museOk)
      && (lily && !museOk ==> LilyPond in Backends(log))
  {
    var log := b + nested + rest;
    if lily && !museOk {
      assert log[|b| + 1] == nested[1];
      assert Backends(log)[|b| + 1] == LilyPond;
    }
  }

  /** The early exits of a guarded or written chain, when LilyPond's gate
      is `gate` and MuseScore's verdict `museOk`. */
  lemma EarlyGates(gate: bool, museOk: bool, tried: seq<Attempt>)
    requires museOk ==> tried == [Attempt(MuseScore, true)]
    requires !museOk ==> gate && tried == Before(true, true)
    ensures tried[0] == Attempt(MuseScore, museOk)
    ensures forall i, j :: 0 <= i < j < |tried| ==> tried[i].backend != tried[j].backend
    ensures LilyPond in Backends(tried) <==> gate && !museOk
  {
    if museOk {
      assert Backends(tried) == [MuseScore];
    } else {
      assert Backends(tried) == [MuseScore, LilyPond];
    }
  }

  /** A trace that reached the PNG step names no backend twice and has
      LilyPond exactly when it was gated in. */
  lemma LateGuarded(gate: bool, importFailed: bool, rest: seq<Attempt>)
    requires PngTrace(rest, importFailed)
    ensures var tried := Before(gate, false) + rest;
      && tried[0] == Attempt(MuseScore, false)
      && (forall i, j :: 0 <= i < j < |tried| ==> tried[i].backend != tried[j].backend)
      && (LilyPond in Backends(tried) <==> gate)
  {
    LateTrace(gate, importFailed, rest);
    TraceDistinct(Before(gate, false) + rest, gate, importFailed);
    LateGates(gate, importFailed, rest);
  }

  /** With the guarded PNG export nothing is nested: the log is the
      call's own trace, no backend runs twice, and LilyPond runs exactly
      when it is enabled, its probe passes and MuseScore failed. */
  lemma GuardedChainGates(env: Env, fs: Files, t: Path, useLily: bool)
    requires EndsWith(t, ".pdf")
    ensures var r := GuardedPdfChain(env, fs, t, useLily);
      && r.log == r.tried
      && r.log[0] == Attempt(MuseScore, TryMuseScore(env, fs, t).ok)
      && (forall i, j :: 0 <= i < j < |r.log| ==> r.log[i].backend != r.log[j].backend)
      && (LilyPond in Backends(r.log) <==> useLily && LilyAvailable(env) && !r.log[0].ok)
  {
    var gate := useLily && LilyAvailable(env);
    var step := PdfFront(env, fs, t, useLily);
    PdfFrontShape(env, fs, t, useLily);
    if step.Done? {
      EarlyGates(gate, TryMuseScore(env, fs, t).ok, step.run.tried);
    } else {
      var img := GuardedPngImage(env, step.files, t);
      assert GuardedPdfChain(env, fs, t, useLily) == FromPng(env, t, gate, img);
      FromPngUnnested(env, t, gate, img);
    }
  }

  /** Past the front, a PNG export that logged nothing leaves the chain's
      own trace as its log. */
  lemma FromPngUnnested(env: Env, t: Path, gate: bool, img: ImageRun)
    requires EndsWith(t, ".pdf")
    requires img.result.Some? ==> img.result.value in img.files
    requires img.result.Some? ==>
      img.result.value == PngPath(t) || img.result.value == FallbackPdf(PngPath(t), ".png")
    requires img.log == []
    ensures var r := FromPng(env, t, gate, img);
      && r.log == r.tried
      && r.log[0] == Attempt(MuseScore, false)
      && (forall i, j :: 0 <= i < j < |r.log| ==> r.log[i].backend != r.log[j].backend)
      && (LilyPond in Backends(r.log) <==> gate)
  {
    var rest := AfterPng(env, t, img);
    AfterPngTrace(env, t, img);
    assert Before(gate, false) + img.log + rest.tried == Before(gate, false) + rest.tried;
    LateGuarded(gate, env.reportlab(t).ImportFailed?, rest.tried);
  }

  /** With no path given, the empty temporary file already sits at the
      target, so a LilyPond compile that fails outright still counts as a
      success once MuseScore has failed. */
  lemma EmptyTempFileCountsAsPdf(env: Env, fs: Files, fuel: nat)
    requires env.mscore(PdfTarget(env, None)) == Exited(1, false)
    requires LilyAvailable(env)
    requires env.lilyExport(PdfTarget(env, None))
    requires env.lilypond(PdfTarget(env, None)) == Exited(1, false)
    ensures RenderPdf(env, fs, None, true, fuel).result == Some(PdfTarget(env, None))
    ensures RenderPdf(env, fs, None, true, fuel).tried == [Attempt(MuseScore, false), Attempt(LilyPond, true)]
  {
    var t := PdfTarget(env, None);
    assert t in PdfStartFiles(env, fs, None);
  }

  /** Each attempt records its backend's own outcome: MuseScore's on the
      files the chain starts with, LilyPond's on the files MuseScore left,
      the conversion's on the PNG export's result, and reportlab's (then
      the hand-made PDF's) on the files the conversion left. */
  lemma ChainRecordsStages(env: Env, fs: Files, t: Path, useLily: bool, fuel: nat)
    requires EndsWith(t, ".pdf")
    ensures var r := PdfChain(env, fs, t, useLily, fuel);
      var muse := TryMuseScore(env, fs, t);
      var gate := useLily && LilyAvailable(env);
      && r.tried[0] == Attempt(MuseScore, muse.ok)
      && (gate && !muse.ok ==> |r.tried| > 1 && r.tried[1] == Attempt(LilyPond, TryLilyPond(env, muse.files, t).ok))
  {
    PdfFrontShape(env, fs, t, useLily);
    ChainGatesOn(env, fs, t, useLily, fuel);
    var step := PdfFront(env, fs, t, useLily);
    if step.Continue? {
      PdfChainPastFront(env, fs, t, useLily, fuel);
    }
  }

  /** Past the front: the attempt after the early ones is the conversion
      with its own outcome, and after a failed conversion come reportlab's
      attempts as `TryReportlab` records them. */
  lemma ChainRecordsLateStages(env: Env, fs: Files, t: Path, useLily: bool, fuel: nat)
    requires EndsWith(t, ".pdf")
    requires PdfFront(env, fs, t, useLily).Continue?
    ensures var r := PdfChain(env, fs, t, useLily, fuel);
      var img := PngImage(env, PdfFront(env, fs, t, useLily).files, t, fuel);
      var conv := ConvertToPdf(env, img.files, t, img.result);
      var k := |Before(useLily && LilyAvailable(env), false)|;
      && |r.tried| > k && r.tried[k] == Attempt(PngConversion, conv.ok)
      && (!conv.ok ==> r.tried[k + 1..] == TryReportlab(env, conv.files, t).tried)
  {
    var img := PngImage(env, PdfFront(env, fs, t, useLily).files, t, fuel);
    PdfChainPastFront(env, fs, t, useLily, fuel);
    AfterPngRecords(env, t, img);
    var b := Before(useLily && LilyAvailable(env), false);
    var rest := AfterPng(env, t, img).tried;
    assert (b + rest)[|b|..] == rest;
  }

  /** A reportlab page that is written ends `render_score_to_pdf` with
      the target, whatever the earlier backends did and for every amount
      of fuel. */
  lemma ReportlabPageIsReturned(env: Env, fs: Files, out: Option<Path>, useLily: bool, fuel: nat)
    requires env.reportlab(PdfTarget(env, out)) == Returned(true)
    ensures RenderPdf(env, fs, out, useLily, fuel).result == Some(PdfTarget(env, out))
  {
    ChainLastResort(env, PdfStartFiles(env, fs, out), PdfTarget(env, out), useLily, fuel);
  }

  /** So does a hand-made PDF that is written after reportlab failed to
      import. */
  lemma MinimalPdfIsReturned(env: Env, fs: Files, out: Option<Path>, useLily: bool, fuel: nat)
    requires env.reportlab(PdfTarget(env, out)).ImportFailed?
    requires env.minimal(PdfTarget(env, out)) == Returned(true)
    ensures RenderPdf(env, fs, out, useLily, fuel).result == Some(PdfTarget(env, out))
  {
    ChainLastResort(env, PdfStartFiles(env, fs, out), PdfTarget(env, out), useLily, fuel);
  }

  lemma ChainLastResort(env: Env, fs: Files, t: Path, useLily: bool, fuel: nat)
    requires EndsWith(t, ".pdf")
    requires env.reportlab(t) == Returned(true) || (env.reportlab(t).ImportFailed? && env.minimal(t) == Returned(true))
    ensures PdfChain(env, fs, t, useLily, fuel).result == Some(t)
  {
    if PdfFront(env, fs, t, useLily).Continue? {
      PdfChainPastFront(env, fs, t, useLily, fuel);
      AfterPngLastResort(env, t, PngImage(env, PdfFront(env, fs, t, useLily).files, t, fuel));
    } else {
      PdfChainDone(env, fs, t, useLily, fuel);
    }
  }

  // ---------------------------------------------------------------------
  // Fuel

  /** The chain depends on its fuel only through the PNG export. */
  lemma PdfChainStages(env: Env, fs: Files, t: Path, useLily: bool, fuel: nat, more: nat)
    requires EndsWith(t, ".pdf")
    ensures var step := PdfFront(env, fs, t, useLily);
      (step.Continue? ==> PngImage(env, step.files, t, fuel) == PngImage(env, step.files, t, more))
      ==> PdfChain(env, fs, t, useLily, more) == PdfChain(env, fs, t, useLily, fuel)
    ensures var step := PdfFront(env, fs, t, useLily);
      step.Continue? ==> PdfChain(env, fs, t, useLily, fuel).exhausted == PngImage(env, step.files, t, fuel).exhausted
  {
  }

  /** A chain that ends at its front is that front's run. */
  lemma PdfChainDone(env: Env, fs: Files, t: Path, useLily: bool, fuel: nat)
    requires EndsWith(t, ".pdf")
    requires PdfFront(env, fs, t, useLily).Done?
    ensures PdfChain(env, fs, t, useLily, fuel) == PdfFront(env, fs, t, useLily).run
  {
  }

  /** Past the front, the chain is the failed early attempts followed by
      the run from the PNG step on. */
  lemma PdfChainPastFront(env: Env, fs: Files, t: Path, useLily: bool, fuel: nat)
    requires EndsWith(t, ".pdf")
    requires PdfFront(env, fs, t, useLily).Continue?
    ensures var rest := AfterPng(env, t, PngImage(env, PdfFront(env, fs, t, useLily).files, t, fuel));
      && PdfChain(env, fs, t, useLily, fuel).result == rest.result
      && PdfChain(env, fs, t, useLily, fuel).tried == Before(useLily && LilyAvailable(env), false) + rest.tried
  {
  }

  /** Past the front, the chain runs out of fuel exactly when its PNG
      export does. */
  lemma PdfChainContinues(env: Env, fs: Files, t: Path, useLily: bool, fuel: nat)
    requires EndsWith(t, ".pdf")
    requires PdfFront(env, fs, t, useLily).Continue?
    ensures PdfChain(env, fs, t, useLily, fuel).exhausted ==
      PngImage(env, PdfFront(env, fs, t, useLily).files, t, fuel).exhausted
  {
  }

  /** An image export that falls back, with fuel left, ends as the nested
      PDF chain on the fallback path ends. */
  lemma ImageChainFallback(env: Env, fs: Files, p: Path, kind: ImageFormat, fuel: nat)
    requires ImageFront(env, fs, p, kind).Fallback?
    requires 0 < fuel
    ensures var f := ImageFront(env, fs, p, kind);
      var pdf := PdfChain(env, f.files, f.q, true, fuel - 1);
      ImageChain(env, fs, p, kind, fuel) == ImageRun(pdf.result, pdf.files, pdf.log, pdf.exhausted)
  {
  }

  /** With fuel left, the PNG step is the image export one level down. */
  lemma PngImageUnfold(env: Env, fs: Files, t: Path, fuel: nat)
    requires 0 < fuel
    ensures PngImage(env, fs, t, fuel) == ImageChain(env, fs, PngPath(t), Png, fuel - 1)
  {
  }

  /** An image export that finishes without the fallback does not use
      its fuel. */
  lemma ImageChainFinished(env: Env, fs: Files, p: Path, kind: ImageFormat, fuel: nat, more: nat)
    requires ImageFront(env, fs, p, kind).Finished?
    ensures ImageChain(env, fs, p, kind, more) == ImageChain(env, fs, p, kind, fuel)
    ensures !ImageChain(env, fs, p, kind, fuel).exhausted
  {
  }

  /** An image export that falls back with no fuel left runs out. */
  lemma ImageChainOutOfFuel(env: Env, fs: Files, p: Path, kind: ImageFormat)
    requires ImageFront(env, fs, p, kind).Fallback?
    ensures ImageChain(env, fs, p, kind, 0).exhausted
  {
  }

  /** A chain that did not run out of fuel has its final outcome: any
      larger amount of fuel gives the same run. */
  lemma {:induction false} PdfChainFuelMonotone(env: Env, fs: Files, t: Path, useLily: bool, fuel: nat, more: nat)
    requires EndsWith(t, ".pdf")
    requires fuel <= more
    ensures !PdfChain(env, fs, t, useLily, fuel).exhausted ==>
      PdfChain(env, fs, t, useLily, more) == PdfChain(env, fs, t, useLily, fuel)
    decreases fuel, 3
  {
    var step := PdfFront(env, fs, t, useLily);
    PdfChainStages(env, fs, t, useLily, fuel, more);
    if step.Continue? && fuel > 0 {
      PngImageFuelMonotone(env, step.files, t, fuel, more);
    }
  }

  lemma {:induction false} PngImageFuelMonotone(env: Env, fs: Files, t: Path, fuel: nat, more: nat)
    requires 0 < fuel <= more
    ensures !PngImage(env, fs, t, fuel).exhausted ==> PngImage(env, fs, t, more) == PngImage(env, fs, t, fuel)
    decreases fuel, 2
  {
    PngImageUnfold(env, fs, t, fuel);
    PngImageUnfold(env, fs, t, more);
    ImageChainFuelMonotone(env, fs, PngPath(t), Png, fuel - 1, more - 1);
  }

  lemma {:induction false} ImageChainFuelMonotone(env: Env, fs: Files, p: Path, kind: ImageFormat, fuel: nat, more: nat)
    requires fuel <= more
    ensures !ImageChain(env, fs, p, kind, fuel).exhausted ==>
      ImageChain(env, fs, p, kind, more) == ImageChain(env, fs, p, kind, fuel)
    decreases fuel, 2
  {
    ImageAfterMonotone(env, ImageFront(env, fs, p, kind), fuel, more);
  }

  /** `ImageChainFuelMonotone` from where the front leaves the export. */
  lemma {:induction false} ImageAfterMonotone(env: Env, step: ImageStep, fuel: nat, more: nat)
    requires step.Fallback? ==> EndsWith(step.q, ".pdf")
    requires fuel <= more
    ensures !ImageAfter(env, step, fuel).exhausted ==>
      ImageAfter(env, step, more) == ImageAfter(env, step, fuel)
    decreases fuel, 1
  {
    if step.Fallback? && fuel > 0 {
      var low := PdfChain(env, step.files, step.q, true, fuel - 1);
      PdfChainFuelMonotone(env, step.files, step.q, true, fuel - 1, more - 1);
      assert ImageAfter(env, step, fuel) == ImageRun(low.result, low.files, low.log, low.exhausted);
    }
  }

  /** A run of `render_score_to_pdf` that did not run out of fuel has its
      final outcome: any larger amount of fuel gives the same run. */
  lemma RenderPdfFuelMonotone(env: Env, fs: Files, out: Option<Path>, useLily: bool, fuel: nat, more: nat)
    requires fuel <= more
    ensures !RenderPdf(env, fs, out, useLily, fuel).exhausted ==>
      RenderPdf(env, fs, out, useLily, more) == RenderPdf(env, fs, out, useLily, fuel)
  {
    PdfChainFuelMonotone(env, PdfStartFiles(env, fs, out), PdfTarget(env, out), useLily, fuel, more);
  }

  /** Every level fails before the PNG step and both PNG exporters raise. */
  ghost predicate Stalled(env: Env) {
    && (forall p :: env.mscore(p).Raised?)
    && !LilyAvailable(env)
    && (forall p :: !env.pngWriter(p).Returned?)
    && (forall p :: !env.matplotlib(p).Returned?)
  }

  /** A stalled level fails before the PNG step. */
  lemma StalledFront(env: Env, fs: Files, t: Path, useLily: bool)
    requires Stalled(env)
    requires EndsWith(t, ".pdf")
    ensures PdfFront(env, fs, t, useLily).Continue?
  {
    assert env.mscore(t).Raised?;
  }

  /** A stalled PNG export falls back to the PDF chain. */
  lemma StalledImage(env: Env, fs: Files, p: Path)
    requires Stalled(env)
    ensures ImageFront(env, fs, p, Png).Fallback?
  {
    assert !env.pngWriter(p).Returned? && !env.matplotlib(p).Returned?;
  }

  /** When every level stalls, no amount of fuel is enough. */
  lemma {:induction false} StalledChainExhausts(env: Env, fs: Files, t: Path, useLily: bool, fuel: nat)
    requires Stalled(env)
    requires EndsWith(t, ".pdf")
    ensures PdfChain(env, fs, t, useLily, fuel).exhausted
    decreases fuel, 2
  {
    StalledFront(env, fs, t, useLily);
    var files := PdfFront(env, fs, t, useLily).files;
    PdfChainContinues(env, fs, t, useLily, fuel);
    if fuel > 0 {
      PngImageUnfold(env, files, t, fuel);
      StalledImageExhausts(env, files, PngPath(t), fuel - 1);
    }
  }

  /** ... and neither is it for a stalled PNG export. */
  lemma {:induction false} StalledImageExhausts(env: Env, fs: Files, p: Path, fuel: nat)
    requires Stalled(env)
    ensures ImageChain(env, fs, p, Png, fuel).exhausted
    decreases fuel, 1
  {
    StalledImage(env, fs, p);
    if fuel == 0 {
      ImageChainOutOfFuel(env, fs, p, Png);
    } else {
      StalledFallbackExhausts(env, fs, p, fuel);
    }
  }

  /** A stalled PNG export with fuel left hands the fallback PDF to a
      chain that stalls too. */
  lemma {:induction false} StalledFallbackExhausts(env: Env, fs: Files, p: Path, fuel: nat)
    requires Stalled(env)
    requires ImageFront(env, fs, p, Png).Fallback?
    requires 0 < fuel
    ensures ImageChain(env, fs, p, Png, fuel).exhausted
    decreases fuel, 0
  {
    var f := ImageFront(env, fs, p, Png);
    ImageChainFallback(env, fs, p, Png, fuel);
    StalledChainExhausts(env, f.files, f.q, true, fuel - 1);
  }

  /** When every level stalls, `render_score_to_pdf` exhausts any fuel:
      the source's recursion has no base case and ends only in a
      RecursionError. */
  lemma RecursionUnbounded(env: Env, fs: Files, out: Option<Path>, useLily: bool, fuel: nat)
    requires Stalled(env)
    ensures RenderPdf(env, fs, out, useLily, fuel).exhausted
  {
    StalledChainExhausts(env, PdfStartFiles(env, fs, out), PdfTarget(env, out), useLily, fuel);
  }

  /** When the PNG exporter works at every path, one unit of fuel is
      enough: the nested image export returns without recursing. */
  lemma PngExporterStopsRecursion(env: Env, fs: Files, out: Option<Path>, useLily: bool, fuel: nat)
    requires fuel >= 1
    requires forall p :: env.pngWriter(p).Returned?
    ensures !RenderPdf(env, fs, out, useLily, fuel).exhausted
  {
    PngExporterStopsChain(env, PdfStartFiles(env, fs, out), PdfTarget(env, out), useLily, fuel);
  }

  lemma PngExporterStopsChain(env: Env, fs: Files, t: Path, useLily: bool, fuel: nat)
    requires EndsWith(t, ".pdf")
    requires fuel >= 1
    requires forall p :: env.pngWriter(p).Returned?
    ensures !PdfChain(env, fs, t, useLily, fuel).exhausted
  {
    if PdfFront(env, fs, t, useLily).Continue? {
      var files := PdfFront(env, fs, t, useLily).files;
      PdfChainContinues(env, fs, t, useLily, fuel);
      PngImageUnfold(env, files, t, fuel);
      PngWriterFinishes(env, files, PngPath(t), fuel - 1);
    } else {
      PdfChainDone(env, fs, t, useLily, fuel);
    }
  }

  /** A PNG export whose writer returns finishes without the fallback. */
  lemma PngWriterFinishes(env: Env, fs: Files, p: Path, fuel: nat)
    requires env.pngWriter(p).Returned?
    ensures !ImageChain(env, fs, p, Png, fuel).exhausted
  {
    assert ImageFront(env, fs, p, Png).Finished?;
  }

  // ---------------------------------------------------------------------
  // As intended: scoped clean-up and no re-entry

  /** The LilyPond step with its temporary .ly file removed on every path,
      as a scoped clean-up would. */
  function TryLilyPondScoped(env: Env, fs: Files, t: Path): (s: Stage)
    requires EndsWith(t, ".pdf")
    ensures LyTemp(env, t) !in s.files
  {
    var s := TryLilyPond(env, fs, t);
    Stage(s.ok, s.files - {LyTemp(env, t)})
  }

  /** The scoped step reaches the same verdict and leaves the same files,
      bar the .ly file that the written step leaves behind on failure. */
  lemma LilyPondScopedAgrees(env: Env, fs: Files, t: Path)
    requires EndsWith(t, ".pdf")
    ensures var w := TryLilyPond(env, fs, t);
      var c := TryLilyPondScoped(env, fs, t);
      && c.ok == w.ok
      && (w.ok ==> c.files == w.files)
      && (!w.ok ==> c.files == w.files - {LyTemp(env, t)} && LyTemp(env, t) in w.files)
  {
  }

  /** The PNG export without the PDF chain behind it: when both image
      writers raise, the export returns None instead of re-entering the
      chain that asked for it. */
  function GuardedPngImage(env: Env, fs: Files, t: Path): (r: ImageRun)
    ensures !r.exhausted && r.log == []
    ensures r.result.Some? ==> r.result.value == PngPath(t) && r.result.value in r.files
  {
    match ImageFront(env, fs, PngPath(t), Png)
    case Finished(run) => run
    case Fallback(files, _) => ImageRun(None, files, [], false)
  }

  /** The PDF chain with the guarded PNG export: it needs no fuel. */
  function GuardedPdfChain(env: Env, fs: Files, t: Path, useLily: bool): (r: PdfRun)
    requires EndsWith(t, ".pdf")
    ensures r.result.Some? ==> r.result.value == t && t in r.files
    ensures !r.exhausted
  {
    match PdfFront(env, fs, t, useLily)
    case Done(run) => run
    case Continue(files) => FromPng(env, t, useLily && LilyAvailable(env), GuardedPngImage(env, files, t))
  }

  /** Wherever one of the image writers works, the guarded chain is the
      written chain at any fuel of at least one. */
  lemma GuardedChainAgrees(env: Env, fs: Files, t: Path, useLily: bool, fuel: nat)
    requires EndsWith(t, ".pdf")
    requires fuel >= 1
    requires forall p :: env.pngWriter(p).Returned? || env.matplotlib(p).Returned?
    ensures GuardedPdfChain(env, fs, t, useLily) == PdfChain(env, fs, t, useLily, fuel)
  {
    if PdfFront(env, fs, t, useLily).Continue? {
      var files := PdfFront(env, fs, t, useLily).files;
      var p := PngPath(t);
      assert env.pngWriter(p).Returned? || env.matplotlib(p).Returned?;
      GuardedPngAgrees(env, files, t, fuel);
    } else {
      PdfChainDone(env, fs, t, useLily, fuel);
    }
  }

  /** A PNG export that finishes without the fallback is the guarded one. */
  lemma GuardedPngAgrees(env: Env, fs: Files, t: Path, fuel: nat)
    requires fuel >= 1
    requires env.pngWriter(PngPath(t)).Returned? || env.matplotlib(PngPath(t)).Returned?
    ensures PngImage(env, fs, t, fuel) == GuardedPngImage(env, fs, t)
  {
    assert ImageFront(env, fs, PngPath(t), Png).Finished?;
    PngImageUnfold(env, fs, t, fuel);
  }

  /** Where the written chain exhausts every fuel, the guarded chain still
      ends, and a written reportlab page or hand-made PDF is returned. */
  lemma GuardedChainEnds(env: Env, fs: Files, t: Path, useLily: bool)
    requires EndsWith(t, ".pdf")
    requires Stalled(env)
    requires env.reportlab(t) == Returned(true) || (env.reportlab(t).ImportFailed? && env.minimal(t) == Returned(true))
    ensures GuardedPdfChain(env, fs, t, useLily).result == Some(t)
    ensures forall fuel: nat :: PdfChain(env, fs, t, useLily, fuel).exhausted
  {
    StalledFront(env, fs, t, useLily);
    var files := PdfFront(env, fs, t, useLily).files;
    AfterPngLastResort(env, t, GuardedPngImage(env, files, t));
    forall fuel: nat
      ensures PdfChain(env, fs, t, useLily, fuel).exhausted
    {
      StalledChainExhausts(env, fs, t, useLily, fuel);
    }
  }
}
