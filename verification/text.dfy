/** Character-level helpers that stand in for the Python string built-ins the
    notation code relies on: decimal printing (`str(int)`), `int(str)`,
    `str.strip`, `str.split()` and `str.lower()` restricted to ASCII letters. */
module Text {
  import opened Wrappers

  predicate IsDigit(c: char) {
    '0' <= c <= '9'
  }

  predicate AllDigits(s: string) {
    forall i :: 0 <= i < |s| ==> IsDigit(s[i])
  }

  function DigitValue(c: char): (d: nat)
    requires IsDigit(c)
    ensures d < 10
  {
    (c as int) - ('0' as int)
  }

  function DigitChar(d: nat): (c: char)
    requires d < 10
    ensures IsDigit(c) && DigitValue(c) == d
  {
    (('0' as int) + d) as char
  }

  /** Decimal digits of `n`, most significant first, no leading zeros. */
  function NatToString(n: nat): (s: string)
    ensures |s| > 0 && AllDigits(s)
    ensures n < 10 <==> |s| == 1
    decreases n
  {
    if n < 10 then [DigitChar(n)] else NatToString(n / 10) + [DigitChar(n % 10)]
  }

  /** The number a non-empty run of decimal digits denotes (leading zeros
      allowed, as `int()` allows them). */
  function DigitsValue(s: string): nat
    requires AllDigits(s)
  {
    if |s| == 0 then 0 else DigitsValue(s[..|s| - 1]) * 10 + DigitValue(s[|s| - 1])
  }

  /** Printing and reading back a natural number are inverse. */
  lemma {:induction false} DigitsValueOfNatToString(n: nat)
    ensures DigitsValue(NatToString(n)) == n
    decreases n
  {
    if n >= 10 {
      var s := NatToString(n);
      assert s[..|s| - 1] == NatToString(n / 10);
      DigitsValueOfNatToString(n / 10);
    }
  }

  /** `str(i)` for a Python int. */
  function IntToString(i: int): (s: string)
    ensures |s| > 0
    ensures i >= 0 ==> AllDigits(s)
    ensures i < 0 ==> s[0] == '-' && AllDigits(s[1..])
  {
    if i < 0 then "-" + NatToString(-i) else NatToString(i)
  }

  /** The characters for which Python's `str.isspace()` holds: the ASCII
      controls tab to carriage return, the information separators 0x1C-0x1F,
      space, next line, no-break space and the Unicode space separators,
      line and paragraph separators. */
  predicate IsSpace(c: char) {
    var n := c as int;
    (9 <= n <= 13) || (28 <= n <= 32) || n == 0x85 || n == 0xA0 || n == 0x1680
    || (0x2000 <= n <= 0x200A) || n == 0x2028 || n == 0x2029 || n == 0x202F
    || n == 0x205F || n == 0x3000
  }

  function StripLeft(s: string): (r: string)
    ensures |r| <= |s| && r == s[|s| - |r|..]
    ensures |r| > 0 ==> !IsSpace(r[0])
    ensures forall i :: 0 <= i < |s| - |r| ==> IsSpace(s[i])
  {
    if |s| > 0 && IsSpace(s[0]) then StripLeft(s[1..]) else s
  }

  function StripRight(s: string): (r: string)
    ensures |r| <= |s| && r == s[..|r|]
    ensures |r| > 0 ==> !IsSpace(r[|r| - 1])
    ensures forall i :: |r| <= i < |s| ==> IsSpace(s[i])
  {
    if |s| > 0 && IsSpace(s[|s| - 1]) then StripRight(s[..|s| - 1]) else s
  }

  /** `str.strip()` with no argument. */
  function Strip(s: string): string {
    StripRight(StripLeft(s))
  }

  /** `int(s)` for a string: surrounding whitespace, an optional sign and a
      non-empty run of ASCII decimal digits give a value. Every other string
      gives None, which stands for the ValueError `int()` raises; the digit
      separators and non-ASCII decimal digits that `int()` also accepts are
      among the strings this model rejects. */
  function ParseInt(s: string): (r: Option<int>)
    ensures r.Some? ==> |Strip(s)| > 0
  {
    ParseSigned(Strip(s))
  }

  /** An optional sign followed by a non-empty run of decimal digits. */
  function ParseSigned(t: string): Option<int> {
    if |t| == 0 then None
    else
      var neg := t[0] == '-';
      var digits := if t[0] == '-' || t[0] == '+' then t[1..] else t;
      if |digits| > 0 && AllDigits(digits) then
        var v: int := DigitsValue(digits);
        Some(if neg then -v else v)
      else None
  }

  /** `int(str(i)) == i` for every Python int. */
  lemma ParseIntOfIntToString(i: int)
    ensures ParseInt(IntToString(i)) == Some(i)
  {
    if i < 0 {
      ParseIntOfNegative(i);
    } else {
      ParseIntOfNatToString(i);
    }
  }

  lemma ParseIntOfNatToString(n: nat)
    ensures ParseInt(IntToString(n)) == Some(n)
  {
    var s := NatToString(n);
    assert IntToString(n) == s;
    StripUnpadded(s);
    DigitsValueOfNatToString(n);
  }

  lemma ParseIntOfNegative(i: int)
    requires i < 0
    ensures ParseInt(IntToString(i)) == Some(i)
  {
    var d := NatToString(-i);
    var s := "-" + d;
    assert IntToString(i) == s;
    StripUnpadded(s);
    ParseSignedNegative(d);
    DigitsValueOfNatToString(-i);
  }

  lemma ParseSignedNegative(d: string)
    requires |d| > 0 && AllDigits(d)
    ensures ParseSigned("-" + d) == Some(-(DigitsValue(d) as int))
  {
    assert ("-" + d)[1..] == d;
  }

  /** Stripping leaves a string that neither starts nor ends with
      whitespace unchanged. */
  lemma StripUnpadded(s: string)
    requires |s| > 0 && !IsSpace(s[0]) && !IsSpace(s[|s| - 1])
    ensures Strip(s) == s
  {
    assert StripLeft(s) == s;
  }

  /** Stripping removes exactly the whitespace padding around a core that
      neither starts nor ends with whitespace. */
  lemma StripPadded(pre: string, core: string, post: string)
    requires AllSpace(pre) && AllSpace(post)
    requires |core| > 0 && !IsSpace(core[0]) && !IsSpace(core[|core| - 1])
    ensures Strip(pre + core + post) == core
  {
    StripLeftPadded(pre, core + post);
    assert pre + core + post == pre + (core + post);
    StripRightPadded(core, post);
  }

  lemma {:induction false} StripLeftPadded(pre: string, rest: string)
    requires AllSpace(pre)
    requires |rest| > 0 && !IsSpace(rest[0])
    ensures StripLeft(pre + rest) == rest
  {
    if |pre| > 0 {
      assert (pre + rest)[1..] == pre[1..] + rest;
      StripLeftPadded(pre[1..], rest);
    }
  }

  lemma {:induction false} StripRightPadded(core: string, post: string)
    requires AllSpace(post)
    requires |core| > 0 && !IsSpace(core[|core| - 1])
    ensures StripRight(core + post) == core
  {
    if |post| > 0 {
      var init := post[..|post| - 1];
      assert (core + post)[..|core + post| - 1] == core + init;
      StripRightPadded(core, init);
    }
  }

  /** Every numeral parses: whitespace, an optional sign, a non-empty run of
      ASCII digits and whitespace give the digits' value, negated after a
      minus sign. */
  lemma ParseIntAccepts(pre: string, sign: string, digits: string, post: string)
    requires AllSpace(pre) && AllSpace(post)
    requires sign == "" || sign == "+" || sign == "-"
    requires |digits| > 0 && AllDigits(digits)
    ensures ParseInt(pre + (sign + digits) + post) ==
      Some(if sign == "-" then -(DigitsValue(digits) as int) else DigitsValue(digits))
  {
    var core := sign + digits;
    NumeralUnpadded(sign, digits);
    StripPadded(pre, core, post);
    ParseSignedOf(sign, digits);
  }

  /** A signed numeral neither starts nor ends with whitespace. */
  lemma NumeralUnpadded(sign: string, digits: string)
    requires sign == "" || sign == "+" || sign == "-"
    requires |digits| > 0 && AllDigits(digits)
    ensures var core := sign + digits;
      |core| > 0 && !IsSpace(core[0]) && !IsSpace(core[|core| - 1])
  {
    var core := sign + digits;
    assert IsDigit(digits[0]) && IsDigit(digits[|digits| - 1]);
    assert core[|core| - 1] == digits[|digits| - 1];
    assert core[0] == if sign == "" then digits[0] else sign[0];
  }

  lemma ParseSignedOf(sign: string, digits: string)
    requires sign == "" || sign == "+" || sign == "-"
    requires |digits| > 0 && AllDigits(digits)
    ensures ParseSigned(sign + digits) ==
      Some(if sign == "-" then -(DigitsValue(digits) as int) else DigitsValue(digits))
  {
    if sign == "" {
      assert sign + digits == digits;
      assert IsDigit(digits[0]);
    } else {
      assert (sign + digits)[1..] == digits;
    }
  }

  /** ... and only numerals parse: a string that `int()` accepts is, once
      stripped, an optional sign followed by a non-empty run of ASCII
      digits. */
  lemma ParseIntOnlyNumerals(s: string)
    ensures ParseInt(s).Some? ==>
      var t := Strip(s);
      && |t| > 0
      && (AllDigits(t) || ((t[0] == '-' || t[0] == '+') && |t| > 1 && AllDigits(t[1..])))
  {
  }

  /** Words, a decimal point and a space after the sign are rejected. */
  lemma ParseIntRejects()
    ensures ParseInt("abc").None? && ParseInt("1.5").None? && ParseInt("- 5").None?
  {
    RejectsAt("abc", 0);
    assert ParseInt("abc").None?;
    RejectsAt("1.5", 1);
    assert ParseInt("1.5").None?;
    RejectsAt("- 5", 1);
  }

  /** A string with no padding and a character at `k` that is neither a
      digit nor a leading sign does not parse. */
  lemma RejectsAt(s: string, k: nat)
    requires |s| > 0 && !IsSpace(s[0]) && !IsSpace(s[|s| - 1])
    requires k < |s| && !IsDigit(s[k])
    requires k == 0 ==> s[0] != '-' && s[0] != '+'
    ensures ParseInt(s).None?
  {
    StripUnpadded(s);
    if s[0] == '-' || s[0] == '+' {
      assert s[1..][k - 1] == s[k];
    }
  }

  /** `str.lower()` on ASCII letters; other characters are kept. */
  function AsciiLower(s: string): (r: string)
    ensures |r| == |s|
    ensures forall i :: 0 <= i < |s| ==>
      (if 'A' <= s[i] <= 'Z' then r[i] as int == s[i] as int + 32 else r[i] == s[i])
  {
    if |s| == 0 then ""
    else
      var c := s[0];
      [if 'A' <= c <= 'Z' then (c as int + 32) as char else c] + AsciiLower(s[1..])
  }

  /** The first whitespace-free run of `s`, which must not start with
      whitespace. */
  function TakeWord(s: string): (w: string)
    ensures |w| <= |s| && w == s[..|w|]
    ensures NoSpace(w)
    ensures |s| > 0 && !IsSpace(s[0]) ==> |w| > 0
    ensures |w| < |s| ==> IsSpace(s[|w|])
  {
    if |s| == 0 || IsSpace(s[0]) then "" else [s[0]] + TakeWord(s[1..])
  }

  predicate NoSpace(w: string) {
    forall i :: 0 <= i < |w| ==> !IsSpace(w[i])
  }

  predicate AllSpace(w: string) {
    forall i :: 0 <= i < |w| ==> IsSpace(w[i])
  }

  /** `str.split()` with no argument: the maximal whitespace-free runs. */
  function SplitWords(s: string): (ws: seq<string>)
    ensures forall k :: 0 <= k < |ws| ==> |ws[k]| > 0 && NoSpace(ws[k])
    decreases |s|
  {
    if |s| == 0 then []
    else if IsSpace(s[0]) then SplitWords(s[1..])
    else
      var w := TakeWord(s);
      var rest := SplitWords(s[|w|..]);
      assert forall k :: 1 <= k < |rest| + 1 ==> ([w] + rest)[k] == rest[k - 1];
      [w] + rest
  }

  /** A string without whitespace splits into itself alone. */
  lemma {:induction false} SplitWordsOfWord(s: string)
    requires |s| > 0 && NoSpace(s)
    ensures SplitWords(s) == [s]
  {
    TakeWordAll(s);
    assert s[|s|..] == "";
  }

  lemma {:induction false} TakeWordAll(s: string)
    requires NoSpace(s)
    ensures TakeWord(s) == s
  {
    if |s| > 0 {
      TakeWordAll(s[1..]);
    }
  }

  /** Two words with whitespace between them split into those words. */
  lemma SplitWordsTwo(w1: string, sp: string, w2: string)
    requires |w1| > 0 && NoSpace(w1) && |w2| > 0 && NoSpace(w2)
    requires |sp| > 0 && AllSpace(sp)
    ensures SplitWords(w1 + sp + w2) == [w1, w2]
  {
    var s := w1 + sp + w2;
    TakeWordBefore(w1, sp + w2);
    assert s == w1 + (sp + w2);
    assert s[|w1|..] == sp + w2;
    SplitWordsSkipsSpace(sp, w2);
    SplitWordsOfWord(w2);
  }

  /** The first word runs up to the first whitespace. */
  lemma {:induction false} TakeWordBefore(w: string, rest: string)
    requires NoSpace(w)
    requires |rest| > 0 && IsSpace(rest[0])
    ensures TakeWord(w + rest) == w
  {
    if |w| > 0 {
      assert (w + rest)[1..] == w[1..] + rest;
      TakeWordBefore(w[1..], rest);
    }
  }

  /** Leading whitespace adds no word. */
  lemma {:induction false} SplitWordsSkipsSpace(sp: string, s: string)
    requires AllSpace(sp)
    ensures SplitWords(sp + s) == SplitWords(s)
  {
    if |sp| > 0 {
      assert IsSpace(sp[0]) && (sp + s)[0] == sp[0] && (sp + s)[1..] == sp[1..] + s;
      assert SplitWords(sp + s) == SplitWords(sp[1..] + s);
      SplitWordsSkipsSpace(sp[1..], s);
    } else {
      assert sp + s == s;
    }
  }
}
