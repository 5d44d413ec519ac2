/** Decimal formatting as Go's `%d` verb and `strconv.Itoa` produce it,
    with the parser that inverts it, and joining with a separator. */
module Text {
  predicate IsDigit(c: char)
  {
    '0' <= c <= '9'
  }

  function DigitChar(d: nat): (c: char)
    requires d < 10
    ensures IsDigit(c) && (c as int) - ('0' as int) == d
  {
    ('0' as int + d) as char
  }

  function DigitValue(c: char): (d: nat)
    requires IsDigit(c)
    ensures d < 10 && DigitChar(d) == c
  {
    (c as int) - ('0' as int)
  }

  /** The decimal digits of `n`, most significant first, no leading zero. */
  function NatDigits(n: nat): (s: string)
    ensures s != [] && forall i :: 0 <= i < |s| ==> IsDigit(s[i])
    ensures |s| > 1 ==> s[0] != '0'
  {
    if n < 10 then [DigitChar(n)] else NatDigits(n / 10) + [DigitChar(n % 10)]
  }

  /** An optional minus sign followed by at least one digit. */
  predicate IsDecimal(s: string)
  {
    s != [] && (s[0] == '-' ==> |s| > 1) && (s[0] == '-' || IsDigit(s[0])) &&
    forall i :: 0 < i < |s| ==> IsDigit(s[i])
  }

  /** `fmt.Sprintf("%d", n)`: a minus sign for negative numbers. */
  function Decimal(n: int): (s: string)
    ensures IsDecimal(s)
    ensures n < 0 <==> s[0] == '-'
  {
    if n < 0 then "-" + NatDigits(-n) else NatDigits(n)
  }

  /** The value of a string of digits, read left to right. */
  function ParseDigits(s: string): (n: nat)
    requires forall i :: 0 <= i < |s| ==> IsDigit(s[i])
  {
    if s == [] then 0 else 10 * ParseDigits(s[..|s| - 1]) + DigitValue(s[|s| - 1])
  }

  function ParseDecimal(s: string): int
    requires IsDecimal(s)
  {
    if s[0] == '-' then -(ParseDigits(s[1..]) as int) else ParseDigits(s)
  }

  lemma {:induction false} NatDigitsRoundTrip(n: nat)
    ensures ParseDigits(NatDigits(n)) == n
  {
    if n >= 10 {
      NatDigitsRoundTrip(n / 10);
      var s := NatDigits(n);
      assert s[..|s| - 1] == NatDigits(n / 10);
    }
  }

  /** Reading back what `%d` printed gives the number. */
  lemma DecimalRoundTrip(n: int)
    ensures ParseDecimal(Decimal(n)) == n
  {
    if n < 0 {
      NatDigitsRoundTrip(-n);
      assert Decimal(n)[1..] == NatDigits(-n);
    } else {
      NatDigitsRoundTrip(n);
    }
  }

  /** Different numbers print differently. */
  lemma DecimalInjective(m: int, n: int)
    requires Decimal(m) == Decimal(n)
    ensures m == n
  {
    DecimalRoundTrip(m);
    DecimalRoundTrip(n);
  }

  /** `strings.Join(parts, sep)`. */
  function Join(parts: seq<string>, sep: string): (s: string)
    ensures parts == [] ==> s == []
    ensures |parts| == 1 ==> s == parts[0]
  {
    if parts == [] then []
    else if |parts| == 1 then parts[0]
    else Join(parts[..|parts| - 1], sep) + sep + parts[|parts| - 1]
  }

  /** Trailing-part unfolding of `Join`, the order the formatting loops
      build the string in. */
  lemma JoinSnoc(parts: seq<string>, p: string, sep: string)
    requires parts != []
    ensures Join(parts + [p], sep) == Join(parts, sep) + sep + p
  {
    assert (parts + [p])[..|parts|] == parts;
  }

  /** Whose idea of whitespace a trim uses: Go's `unicode.IsSpace` (for
      `strings.TrimSpace`) or Python's `str.isspace` (for `str.strip()`). */
  datatype Whitespace = GoUnicode | PythonStr

  /** Go's `unicode.IsSpace`: tab, newline, vertical tab, form feed,
      carriage return, space, U+0085 and U+00A0 in Latin-1, and beyond it
      the White_Space characters U+1680, U+2000 to U+200A, U+2028, U+2029,
      U+202F, U+205F and U+3000.  Python's `str.isspace` accepts all of
      these and also the separators U+001C to U+001F. */
  predicate IsSpace(w: Whitespace, c: char)
  {
    c == '\t' || c == '\n' || c == '\U{000B}' || c == '\U{000C}' || c == '\r' || c == ' ' ||
    c == '\U{0085}' || c == '\U{00A0}' || c == '\U{1680}' || '\U{2000}' <= c <= '\U{200A}' ||
    c == '\U{2028}' || c == '\U{2029}' || c == '\U{202F}' || c == '\U{205F}' || c == '\U{3000}' ||
    (w == PythonStr && '\U{001C}' <= c <= '\U{001F}')
  }

  /** The two sets differ only in the four information separators. */
  lemma SpaceSets(c: char)
    ensures IsSpace(GoUnicode, c) ==> IsSpace(PythonStr, c)
    ensures IsSpace(PythonStr, c) && !IsSpace(GoUnicode, c) <==> '\U{001C}' <= c <= '\U{001F}'
  {
  }

  /** Leading whitespace removed.  Only the length bound is stated here;
      `StripLeftSpec` says what was removed. */
  function StripLeft(w: Whitespace, s: string): (r: string)
    ensures |r| <= |s|
  {
    if s != [] && IsSpace(w, s[0]) then StripLeft(w, s[1..]) else s
  }

  function StripRight(w: Whitespace, s: string): (r: string)
    ensures |r| <= |s|
  {
    if s != [] && IsSpace(w, s[|s| - 1]) then StripRight(w, s[..|s| - 1]) else s
  }

  lemma {:induction false} StripLeftSpec(w: Whitespace, s: string)
    ensures StripLeft(w, s) == s[|s| - |StripLeft(w, s)|..]
    ensures StripLeft(w, s) != [] ==> !IsSpace(w, StripLeft(w, s)[0])
    ensures forall i :: 0 <= i < |s| - |StripLeft(w, s)| ==> IsSpace(w, s[i])
  {
    if s != [] && IsSpace(w, s[0]) {
      StripLeftSpec(w, s[1..]);
    }
  }

  lemma {:induction false} StripRightSpec(w: Whitespace, s: string)
    ensures StripRight(w, s) == s[..|StripRight(w, s)|]
    ensures StripRight(w, s) != [] ==> !IsSpace(w, StripRight(w, s)[|StripRight(w, s)| - 1])
    ensures forall i :: |StripRight(w, s)| <= i < |s| ==> IsSpace(w, s[i])
  {
    if s != [] && IsSpace(w, s[|s| - 1]) {
      StripRightSpec(w, s[..|s| - 1]);
    }
  }

  /** Both ends trimmed with the given whitespace. */
  function StripWith(w: Whitespace, s: string): string
  {
    StripRight(w, StripLeft(w, s))
  }

  /** `strings.TrimSpace(s)`. */
  function Strip(s: string): string
  {
    StripWith(GoUnicode, s)
  }

  /** `s.strip()`. */
  function PyStrip(s: string): string
  {
    StripWith(PythonStr, s)
  }

  /** What trimming means: the result is the piece `s[lo..hi]`, everything
      outside it is whitespace, and it neither starts nor ends with
      whitespace. */
  lemma StripSpec(w: Whitespace, s: string) returns (lo: nat, hi: nat)
    ensures lo <= hi <= |s| && StripWith(w, s) == s[lo..hi]
    ensures forall i :: 0 <= i < lo || hi <= i < |s| ==> IsSpace(w, s[i])
    ensures StripWith(w, s) != [] ==> !IsSpace(w, StripWith(w, s)[0]) &&
                                      !IsSpace(w, StripWith(w, s)[|StripWith(w, s)| - 1])
  {
    var l := StripLeft(w, s);
    StripLeftSpec(w, s);
    StripRightSpec(w, l);
    var r := StripRight(w, l);
    lo := |s| - |l|;
    hi := lo + |r|;
    assert r == s[lo..hi];
    forall i | hi <= i < |s| ensures IsSpace(w, s[i]) {
      assert s[i] == l[i - lo];
    }
  }

  /** Stripping removes only whitespace, so any other character survives. */
  lemma StripKeeps(w: Whitespace, s: string, c: char)
    requires c in s && !IsSpace(w, c)
    ensures c in StripWith(w, s)
  {
    var lo, hi := StripSpec(w, s);
    var i :| 0 <= i < |s| && s[i] == c;
    assert StripWith(w, s)[i - lo] == c;
  }

  /** Leading-part unfolding of `Join`. */
  lemma {:induction false} JoinCons(p: string, parts: seq<string>, sep: string)
    requires parts != []
    ensures Join([p] + parts, sep) == p + sep + Join(parts, sep)
    decreases |parts|
  {
    var q := [p] + parts;
    var init := q[..|q| - 1];
    assert q[|q| - 1] == parts[|parts| - 1];
    if |parts| == 1 {
      assert init == [p];
    } else {
      assert init == [p] + parts[..|parts| - 1];
      JoinCons(p, parts[..|parts| - 1], sep);
    }
  }

  /** Trimming is idempotent: a trimmed string has no whitespace at
      either end. */
  lemma StripIdempotent(w: Whitespace, s: string)
    ensures StripWith(w, StripWith(w, s)) == StripWith(w, s)
  {
    var r := StripWith(w, s);
    var lo, hi := StripSpec(w, s);
    StripLeftSpec(w, r);
    StripRightSpec(w, StripLeft(w, r));
  }
}
