/** The path arithmetic of `render_score_to_pdf` and `render_score_to_image`:
    `str.endswith`, `str.rsplit('.', 1)[0]` and `str.replace(ext, '')`, on
    plain strings. */
module Paths {
  import opened Wrappers

  type Path = string

  predicate EndsWith(s: string, suffix: string) {
    |suffix| <= |s| && s[|s| - |suffix|..] == suffix
  }

  /** Two strings ending in different suffixes of the same length differ. */
  lemma DistinctSuffixes(a: string, b: string, x: string, y: string)
    requires |x| == |y| && x != y
    requires EndsWith(a, x) && EndsWith(b, y)
    ensures a != b
  {
  }

  /** Position of the last '.' in `s`, if any. */
  function LastDot(s: string): (r: Option<nat>)
    ensures r.Some? ==> (r.value < |s| && s[r.value] == '.'
                         && forall i :: r.value < i < |s| ==> s[i] != '.')
    ensures r.None? ==> forall i :: 0 <= i < |s| ==> s[i] != '.'
  {
    if |s| == 0 then None
    else if s[|s| - 1] == '.' then Some(|s| - 1)
    else LastDot(s[..|s| - 1])
  }

  /** `s.rsplit('.', 1)[0]`: everything before the last '.' of the whole
      string (directory names included), or `s` itself when it has no '.'. */
  function RsplitStem(s: string): (stem: string)
    ensures LastDot(s).None? ==> stem == s
    ensures LastDot(s).Some? ==> stem == s[..LastDot(s).value]
    ensures |stem| <= |s| && stem == s[..|stem|]
  {
    match LastDot(s)
    case None => s
    case Some(i) => s[..i]
  }

  /** The output path of `render_score_to_pdf`: unchanged when it already
      ends in ".pdf", otherwise its stem with ".pdf" appended. */
  function EnsurePdf(p: Path): (t: Path)
    ensures EndsWith(t, ".pdf")
    ensures EndsWith(p, ".pdf") ==> t == p
    ensures !EndsWith(p, ".pdf") ==> t == RsplitStem(p) + ".pdf"
  {
    if EndsWith(p, ".pdf") then p else RsplitStem(p) + ".pdf"
  }

  /** The stem of a path ending in `ext` (an extension starting with '.'
      and holding no other '.') is the path without `ext`. */
  lemma {:induction false} StemOfExtension(t: string, ext: string)
    requires |ext| > 0 && ext[0] == '.' && forall i :: 0 < i < |ext| ==> ext[i] != '.'
    requires EndsWith(t, ext)
    ensures RsplitStem(t) == t[..|t| - |ext|]
    ensures RsplitStem(t) + ext == t
  {
    var k := |t| - |ext|;
    assert t[k] == ext[0];
    LastDotIs(t, k);
  }

  lemma {:induction false} LastDotIs(s: string, k: nat)
    requires k < |s| && s[k] == '.' && forall i :: k < i < |s| ==> s[i] != '.'
    ensures LastDot(s) == Some(k)
    decreases |s|
  {
    if s[|s| - 1] != '.' {
      LastDotIs(s[..|s| - 1], k);
    }
  }

  /** Forcing ".pdf" is idempotent, and LilyPond's `-o <stem>` output,
      `<stem>.pdf`, is the forced path itself. */
  lemma EnsurePdfStable(p: Path)
    ensures EnsurePdf(EnsurePdf(p)) == EnsurePdf(p)
    ensures RsplitStem(EnsurePdf(p)) + ".pdf" == EnsurePdf(p)
  {
    StemOfExtension(EnsurePdf(p), ".pdf");
  }

  /** The stem is cut at the last '.' even when that '.' belongs to a
      directory name, so the PDF lands beside the directory. */
  lemma StemCutsIntoDirectories()
    ensures EnsurePdf("out.v2/sheet") == "out.pdf"
  {
    var s := "out.v2/sheet";
    LastDotIs(s, 3);
  }

  /** `s.replace(pat, '')`: removes the non-overlapping occurrences of
      `pat`, scanning from the left. */
  function RemoveAll(s: string, pat: string): (r: string)
    requires |pat| > 0
    ensures |r| <= |s|
    decreases |s|
  {
    if |s| < |pat| then s
    else if s[..|pat|] == pat then RemoveAll(s[|pat|..], pat)
    else [s[0]] + RemoveAll(s[1..], pat)
  }

  /** How many occurrences `RemoveAll` takes out. */
  function Occurrences(s: string, pat: string): nat
    requires |pat| > 0
    decreases |s|
  {
    if |s| < |pat| then 0
    else if s[..|pat|] == pat then 1 + Occurrences(s[|pat|..], pat)
    else Occurrences(s[1..], pat)
  }

  /** One more copy is `k` more characters. */
  lemma TimesSucc(c: int, k: int)
    ensures (c + 1) * k == c * k + k
  {
  }

  /** Removal shortens the string by whole copies of the pattern. */
  lemma {:induction false} RemoveAllLength(s: string, pat: string)
    requires |pat| > 0
    ensures |RemoveAll(s, pat)| + Occurrences(s, pat) * |pat| == |s|
    decreases |s|
  {
    if |s| < |pat| {
    } else if s[..|pat|] == pat {
      var rest := s[|pat|..];
      RemoveAllLength(rest, pat);
      var c := Occurrences(rest, pat);
      assert Occurrences(s, pat) == c + 1;
      assert RemoveAll(s, pat) == RemoveAll(rest, pat);
      TimesSucc(c, |pat|);
    } else {
      RemoveAllLength(s[1..], pat);
      assert |RemoveAll(s, pat)| == 1 + |RemoveAll(s[1..], pat)|;
    }
  }

  /** Removing a pattern that starts with a character absent from `s`
      leaves `s` as it is. */
  lemma {:induction false} RemoveAllAbsent(s: string, pat: string)
    requires |pat| > 0 && forall i :: 0 <= i < |s| ==> s[i] != pat[0]
    ensures RemoveAll(s, pat) == s
    decreases |s|
  {
    if |s| >= |pat| {
      assert s[..|pat|][0] == s[0];
      RemoveAllAbsent(s[1..], pat);
      assert [s[0]] + s[1..] == s;
    }
  }

  /** Removing an extension from a dot-free stem followed by that
      extension gives back the stem. */
  lemma {:induction false} RemoveTrailingExtension(stem: string, ext: string)
    requires |ext| > 0 && ext[0] == '.' && forall i :: 0 <= i < |stem| ==> stem[i] != '.'
    ensures RemoveAll(stem + ext, ext) == stem
    decreases |stem|
  {
    var s := stem + ext;
    if |stem| == 0 {
      assert s[..|ext|] == ext;
      assert s[|ext|..] == "";
    } else {
      assert s[..|ext|][0] == stem[0];
      assert s[1..] == stem[1..] + ext;
      RemoveTrailingExtension(stem[1..], ext);
      assert [stem[0]] + stem[1..] == stem;
    }
  }

  /** `p.replace(ext, '') + ext` unless `p` already ends in `ext`: the
      suffix forcing of the SVG and PNG exports. */
  function ForceSuffix(p: Path, ext: string): (q: Path)
    requires |ext| > 0
    ensures EndsWith(q, ext)
    ensures EndsWith(p, ext) ==> q == p
    ensures !EndsWith(p, ext) ==> |q| <= |p| + |ext|
  {
    if EndsWith(p, ext) then p else RemoveAll(p, ext) + ext
  }

  /** The PNG path the PDF chain asks for: `<stem>_temp.png`. */
  function PngPath(t: Path): (png: Path)
    ensures EndsWith(png, ".png")
    ensures png == RsplitStem(t) + "_temp.png"
  {
    RsplitStem(t) + "_temp.png"
  }

  /** The PDF path an image export falls back to: the image path with
      every occurrence of its extension removed, then ".pdf". */
  function FallbackPdf(p: Path, ext: string): (q: Path)
    requires |ext| > 0
    ensures EndsWith(q, ".pdf")
    ensures |q| + Occurrences(p, ext) * |ext| == |p| + 4
  {
    RemoveAllLength(p, ext);
    RemoveAll(p, ext) + ".pdf"
  }

  /** The PDF fallback of the chain's own PNG request never names the PDF
      being produced: removing ".png" takes whole groups of four
      characters, while "_temp.png" is nine characters longer than the
      stem. */
  lemma FallbackOfPngPathDiffers(t: Path)
    requires EndsWith(t, ".pdf")
    ensures FallbackPdf(PngPath(t), ".png") != t
    ensures PngPath(t) != t
  {
    StemOfExtension(t, ".pdf");
    var stem := RsplitStem(t);
    assert |PngPath(t)| == |stem| + 9;
    assert |t| == |stem| + 4;
    var k := Occurrences(PngPath(t), ".png");
    var q := FallbackPdf(PngPath(t), ".png");
    assert |q| + k * 4 == |stem| + 13;
    if k <= 2 {
      assert |q| >= |stem| + 5;
    } else {
      assert |q| <= |stem| + 1;
    }
    DistinctSuffixes(PngPath(t), t, ".png", ".pdf");
  }

  /** For a dot-free stem the recursion of the chain walks
      `<stem>.pdf` -> `<stem>_temp.png` -> `<stem>_temp.pdf` ->
      `<stem>_temp_temp.png`. */
  lemma NestedLevelPaths(stem: string)
    requires forall i :: 0 <= i < |stem| ==> stem[i] != '.'
    ensures PngPath(stem + ".pdf") == stem + "_temp.png"
    ensures FallbackPdf(stem + "_temp.png", ".png") == stem + "_temp.pdf"
    ensures EnsurePdf(stem + "_temp.pdf") == stem + "_temp.pdf"
    ensures PngPath(stem + "_temp.pdf") == stem + "_temp_temp.png"
  {
    PngPathOfDotFree(stem);
    var s1 := stem + "_temp";
    forall i | 0 <= i < |s1|
      ensures s1[i] != '.'
    {
      if i >= |stem| {
        assert s1[i] == "_temp"[i - |stem|];
      }
    }
    assert stem + "_temp.png" == s1 + ".png";
    RemoveTrailingExtension(s1, ".png");
    assert FallbackPdf(stem + "_temp.png", ".png") == s1 + ".pdf";
    assert s1 + ".pdf" == stem + "_temp.pdf";
    PngPathOfDotFree(s1);
    TempTwice(stem);
  }

  lemma PngPathOfDotFree(stem: string)
    requires forall i :: 0 <= i < |stem| ==> stem[i] != '.'
    ensures PngPath(stem + ".pdf") == stem + "_temp.png"
  {
    StemOfExtension(stem + ".pdf", ".pdf");
    assert (stem + ".pdf")[..|stem|] == stem;
  }

  lemma TempTwice(stem: string)
    ensures (stem + "_temp") + "_temp.png" == stem + "_temp_temp.png"
  {
    assert (stem + "_temp") + "_temp.png" == stem + ("_temp" + "_temp.png");
  }
}
