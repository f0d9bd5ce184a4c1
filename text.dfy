/**
 * The string utilities the core relies on: java.lang.Character.isWhitespace,
 * commons-lang StringUtils.strip / stripStart / startsWith, the decimal
 * rendering of a Java int by String.format("%d"), and the line separator.
 */
module Text {

  /** The platform line separator written by PrintWriter.println and by "%n".
      The model fixes it to a single newline. */
  const LineSeparator: string := "\n"

  /** java.lang.Character.isWhitespace: the Unicode space, line and paragraph
      separators except the three no-break spaces, plus the ASCII controls
      HT, LF, VT, FF, CR and FS, GS, RS, US. The table is that of Unicode 6.3
      (Java 9 and later); under Java 8 (Unicode 6.2) U+180E, the Mongolian
      vowel separator, is a space separator too. */
  predicate IsWhitespace(c: char) {
    || c == ' ' || c == '\t' || c == '\n' || c == '\U{000B}' || c == '\U{000C}' || c == '\r'
    || ('\U{001C}' <= c <= '\U{001F}')
    || c == '\U{1680}'
    || ('\U{2000}' <= c <= '\U{2006}')
    || ('\U{2008}' <= c <= '\U{200A}')
    || c == '\U{2028}' || c == '\U{2029}' || c == '\U{205F}' || c == '\U{3000}'
  }

  predicate StartsWith(s: string, prefix: string) {
    |prefix| <= |s| && s[..|prefix|] == prefix
  }

  predicate AllWhitespace(s: string) {
    forall i :: 0 <= i < |s| ==> IsWhitespace(s[i])
  }

  /** StringUtils.stripStart(s, null): drop leading whitespace. */
  function StripLeadingWhitespace(s: string): string
  {
    if s != [] && IsWhitespace(s[0]) then StripLeadingWhitespace(s[1..]) else s
  }

  /** StringUtils.stripEnd(s, null): drop trailing whitespace. */
  function StripTrailingWhitespace(s: string): string
  {
    if s != [] && IsWhitespace(s[|s| - 1]) then StripTrailingWhitespace(s[..|s| - 1]) else s
  }

  /** StringUtils.strip(s): whitespace removed from both ends. */
  function Strip(s: string): string
  {
    StripTrailingWhitespace(StripLeadingWhitespace(s))
  }

  lemma {:induction false} StripLeadingShape(s: string)
    ensures var r := StripLeadingWhitespace(s);
      && |r| <= |s| && r == s[|s| - |r|..]
      && AllWhitespace(s[..|s| - |r|])
      && (r == [] || !IsWhitespace(r[0]))
  {
    if s != [] && IsWhitespace(s[0]) {
      StripLeadingShape(s[1..]);
      var r := StripLeadingWhitespace(s);
      assert s[..|s| - |r|] == [s[0]] + s[1..][..|s| - 1 - |r|];
    }
  }

  lemma {:induction false} StripTrailingShape(s: string)
    ensures var r := StripTrailingWhitespace(s);
      && |r| <= |s| && r == s[..|r|]
      && AllWhitespace(s[|r|..])
      && (r == [] || !IsWhitespace(r[|r| - 1]))
  {
    if s != [] && IsWhitespace(s[|s| - 1]) {
      StripTrailingShape(s[..|s| - 1]);
      var r := StripTrailingWhitespace(s);
      assert s[|r|..] == s[..|s| - 1][|r|..] + [s[|s| - 1]];
    }
  }

  /** strip removes a whitespace run from each end and nothing else: the result
      is a slice of the input between whitespace-only margins, and it neither
      starts nor ends with whitespace. */
  lemma StripShape(s: string)
    ensures var r := Strip(s);
      && (exists i, j :: 0 <= i <= j <= |s| && r == s[i..j] && AllWhitespace(s[..i]) && AllWhitespace(s[j..]))
      && (r == [] || (!IsWhitespace(r[0]) && !IsWhitespace(r[|r| - 1])))
  {
    var t := StripLeadingWhitespace(s);
    var r := StripTrailingWhitespace(t);
    StripLeadingShape(s);
    StripTrailingShape(t);
    var i := |s| - |t|;
    assert r == s[i..i + |r|];
    assert t[|r|..] == s[i + |r|..];
    if r != [] {
      assert r[0] == t[0];
    }
  }

  /** StringUtils.stripStart(s, chars): drop every leading character that
      belongs to `chars` (and nothing else: in particular no other whitespace). */
  function StripStart(s: string, chars: set<char>): (r: string)
    ensures |r| <= |s| && r == s[|s| - |r|..]
    ensures forall i :: 0 <= i < |s| - |r| ==> s[i] in chars
    ensures r == [] || r[0] !in chars
  {
    if s != [] && s[0] in chars then StripStart(s[1..], chars) else s
  }

  function Digit(d: nat): (c: char)
    requires d < 10
    ensures '0' <= c <= '9'
  {
    "0123456789"[d]
  }

  /** The decimal digits of a natural number, most significant first. */
  function NatToString(n: nat): (r: string)
    ensures |r| >= 1
    ensures forall i :: 0 <= i < |r| ==> '0' <= r[i] <= '9'
    ensures n >= 10 ==> |r| >= 2
  {
    if n < 10 then [Digit(n)] else NatToString(n / 10) + [Digit(n % 10)]
  }

  /** String.format("%d", k) for a Java int (Integer.toString). */
  function IntToString(k: int): (r: string)
    ensures |r| >= 1 && '$' !in r
  {
    if k < 0 then "-" + NatToString(-k) else NatToString(k)
  }

  lemma DigitInjective(a: nat, b: nat)
    requires a < 10 && b < 10 && Digit(a) == Digit(b)
    ensures a == b
  {
  }

  lemma {:induction false} NatToStringInjective(a: nat, b: nat)
    requires NatToString(a) == NatToString(b)
    ensures a == b
    decreases a
  {
    var s := NatToString(a);
    if a < 10 && b < 10 {
      DigitInjective(a, b);
    } else if a >= 10 && b >= 10 {
      assert NatToString(a / 10) == s[..|s| - 1] == NatToString(b / 10);
      NatToStringInjective(a / 10, b / 10);
      DigitInjective(a % 10, b % 10);
    }
  }

  lemma SignCharacter(k: int)
    ensures IntToString(k)[0] == '-' <==> k < 0
  {
  }

  lemma DropSign(x: string)
    ensures ("-" + x)[1..] == x
  {
  }

  /** Distinct ints print differently. */
  lemma IntToStringInjective(a: int, b: int)
    requires IntToString(a) == IntToString(b)
    ensures a == b
  {
    SignCharacter(a);
    SignCharacter(b);
    if a < 0 {
      var x, y := NatToString(-a), NatToString(-b);
      DropSign(x);
      DropSign(y);
      NatToStringInjective(-a, -b);
    } else {
      assert b >= 0;
      assert NatToString(a) == NatToString(b);
      NatToStringInjective(a, b);
    }
  }

  /** Concatenation of a sequence of strings. */
  function Concat(parts: seq<string>): (r: string)
    ensures parts == [] ==> r == []
  {
    if parts == [] then [] else parts[0] + Concat(parts[1..])
  }

  lemma {:induction false} ConcatAppend(a: seq<string>, b: seq<string>)
    ensures Concat(a + b) == Concat(a) + Concat(b)
  {
    if a == [] {
      assert a + b == b;
    } else {
      assert (a + b)[1..] == a[1..] + b;
      ConcatAppend(a[1..], b);
    }
  }

  lemma SeqAssociative<T>(a: seq<T>, b: seq<T>, c: seq<T>)
    ensures (a + b) + c == a + (b + c)
  {
  }
}
