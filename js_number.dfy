/** JavaScript's global `parseInt(text)` with the radix left out, and the decimal
    text of an integer (what a template literal `${n}` prints for a safe integer).
    `parseInt` trims leading white space, reads an optional sign, switches to
    base 16 after a `0x`/`0X` prefix, and reads the longest run of digits that
    follows; with no digit at all it yields NaN, modelled as `None`. */
module JsNumber {
  import opened Options

  /** WhiteSpace and LineTerminator code points of ECMAScript, the set that
      `parseInt` strips from the front of its argument. */
  predicate IsJsWhitespace(c: char) {
    c in {'\t', '\n', '\U{000B}', '\U{000C}', '\r', ' ', '\U{00A0}', '\U{1680}',
          '\U{2000}', '\U{2001}', '\U{2002}', '\U{2003}', '\U{2004}', '\U{2005}',
          '\U{2006}', '\U{2007}', '\U{2008}', '\U{2009}', '\U{200A}',
          '\U{2028}', '\U{2029}', '\U{202F}', '\U{205F}', '\U{3000}', '\U{FEFF}'}
  }

  predicate IsDecimalDigit(c: char) { '0' <= c <= '9' }

  predicate IsDigitIn(c: char, radix: nat) {
    if radix == 16 then IsDecimalDigit(c) || 'a' <= c <= 'f' || 'A' <= c <= 'F'
    else IsDecimalDigit(c)
  }

  function DigitValue(c: char): (d: nat)
    requires IsDigitIn(c, 16)
    ensures d < 16
    ensures IsDecimalDigit(c) ==> d < 10
  {
    if IsDecimalDigit(c) then c as nat - '0' as nat
    else if 'a' <= c <= 'f' then c as nat - 'a' as nat + 10
    else c as nat - 'A' as nat + 10
  }

  /** The text left after dropping leading white space. */
  function TrimStart(s: string): (t: string)
  {
    if s != [] && IsJsWhitespace(s[0]) then TrimStart(s[1..]) else s
  }

  /** The longest prefix of `s` made of digits of the given radix. */
  function DigitRun(s: string, radix: nat): (d: string)
    ensures |d| <= |s| && d == s[..|d|]
    ensures forall i :: 0 <= i < |d| ==> IsDigitIn(d[i], radix)
    ensures |d| == |s| || !IsDigitIn(s[|d|], radix)
  {
    if s != [] && IsDigitIn(s[0], radix) then [s[0]] + DigitRun(s[1..], radix) else []
  }

  /** The value of a digit string read most significant digit first. */
  function DigitsValue(ds: string, radix: nat): nat
    requires radix == 10 || radix == 16
    requires forall i :: 0 <= i < |ds| ==> IsDigitIn(ds[i], radix)
  {
    if ds == [] then 0
    else
      assert IsDigitIn(ds[|ds| - 1], radix);
      DigitsValue(ds[..|ds| - 1], radix) * radix + DigitValue(ds[|ds| - 1])
  }

  predicate HasHexPrefix(u: string) {
    |u| >= 2 && u[0] == '0' && (u[1] == 'x' || u[1] == 'X')
  }

  /** The text after the optional sign of an already trimmed text. */
  function Unsigned(t: string): string {
    if t != [] && (t[0] == '+' || t[0] == '-') then t[1..] else t
  }

  /** The number an unsigned text starts with: after a `0x`/`0X` prefix the
      hexadecimal digits that follow, otherwise the decimal digits; `None`
      when there is no such digit. */
  function ParseDigits(u: string): (r: Option<nat>)
    ensures r.None? <==> (if HasHexPrefix(u) then |u| == 2 || !IsDigitIn(u[2], 16)
                          else u == [] || !IsDecimalDigit(u[0]))
  {
    var radix := if HasHexPrefix(u) then 16 else 10;
    var digits := DigitRun(if radix == 16 then u[2..] else u, radix);
    if digits == [] then None else Some(DigitsValue(digits, radix))
  }

  /** What `parseInt` reads from a text whose leading white space is gone: an
      optional sign, then the unsigned number. */
  function ParseTrimmed(t: string): Option<int> {
    match ParseDigits(Unsigned(t))
    case None => None
    case Some(v) =>
      var magnitude: int := v;
      Some(if t != [] && t[0] == '-' then -magnitude else magnitude)
  }

  /** `parseInt(s)`: `None` is NaN. A negative result needs a `-` in front of
      the digits. */
  function ParseInt(s: string): (r: Option<int>)
    ensures r.Some? && r.value < 0 ==> TrimStart(s) != [] && TrimStart(s)[0] == '-'
  {
    ParseTrimmed(TrimStart(s))
  }

  /** `parseInt` is NaN exactly when no digit follows the trimmed text's
      optional sign (and, after `0x`/`0X`, no hexadecimal digit follows the
      prefix); otherwise its sign is the text's sign. */
  lemma ParseIntCases(s: string)
    ensures var u := Unsigned(TrimStart(s));
            ParseInt(s).None? <==> (if HasHexPrefix(u) then |u| == 2 || !IsDigitIn(u[2], 16)
                                    else u == [] || !IsDecimalDigit(u[0]))
    ensures ParseInt(s).Some? && TrimStart(s) != [] && TrimStart(s)[0] == '-' ==> ParseInt(s).value <= 0
    ensures ParseInt(s).Some? && (TrimStart(s) == [] || TrimStart(s)[0] != '-') ==> ParseInt(s).value >= 0
  {
  }

  function DigitChar(d: nat): (c: char)
    requires d < 10
    ensures IsDecimalDigit(c) && DigitValue(c) == d
  {
    ('0' as nat + d) as char
  }

  /** Decimal numeral of a natural number, without leading zeros. */
  function NatText(n: nat): (s: string)
    ensures s != []
    ensures forall i :: 0 <= i < |s| ==> IsDecimalDigit(s[i])
    ensures s[0] == '0' ==> n == 0 && s == "0"
  {
    if n < 10 then [DigitChar(n)] else NatText(n / 10) + [DigitChar(n % 10)]
  }

  /** Decimal numeral of an integer, with a leading `-` when negative. */
  function IntText(n: int): (s: string)
    ensures s != []
  {
    if n < 0 then "-" + NatText(-n) else NatText(n)
  }

  lemma {:induction false} NatTextValue(n: nat)
    ensures DigitsValue(NatText(n), 10) == n
  {
    if n >= 10 {
      NatTextValue(n / 10);
      var s := NatText(n);
      assert s[..|s| - 1] == NatText(n / 10);
    }
  }

  lemma {:induction false} DigitRunStops(ds: string, tail: string, radix: nat)
    requires forall i :: 0 <= i < |ds| ==> IsDigitIn(ds[i], radix)
    requires tail == [] || !IsDigitIn(tail[0], radix)
    ensures DigitRun(ds + tail, radix) == ds
  {
    if ds != [] {
      assert (ds + tail)[1..] == ds[1..] + tail;
      DigitRunStops(ds[1..], tail, radix);
    } else {
      assert ds + tail == tail;
    }
  }

  /** What trimming leaves: a suffix of the text, preceded only by white space
      and not itself starting with white space. */
  lemma {:induction false} TrimStartResult(s: string)
    ensures |TrimStart(s)| <= |s| && TrimStart(s) == s[|s| - |TrimStart(s)|..]
    ensures forall i :: 0 <= i < |s| - |TrimStart(s)| ==> IsJsWhitespace(s[i])
    ensures TrimStart(s) == [] || !IsJsWhitespace(TrimStart(s)[0])
  {
    if s != [] && IsJsWhitespace(s[0]) {
      var rest := s[1..];
      TrimStartResult(rest);
      var t := TrimStart(s);
      assert t == TrimStart(rest);
      assert rest[|rest| - |t|..] == s[|s| - |t|..];
      forall i | 0 <= i < |s| - |t|
        ensures IsJsWhitespace(s[i])
      {
        if i > 0 {
          assert s[i] == rest[i - 1];
        }
      }
    }
  }

  /** A text that does not start with white space is already trimmed. */
  lemma TrimStartKeeps(s: string)
    requires s != [] && !IsJsWhitespace(s[0])
    ensures TrimStart(s) == s
  {
  }

  lemma {:induction false} TrimStartDrops(ws: string, s: string)
    requires forall i :: 0 <= i < |ws| ==> IsJsWhitespace(ws[i])
    ensures TrimStart(ws + s) == TrimStart(s)
  {
    if ws != [] {
      assert (ws + s)[1..] == ws[1..] + s;
      TrimStartDrops(ws[1..], s);
    } else {
      assert ws + s == s;
    }
  }

  /** The unsigned reading of a decimal numeral stops where the numeral ends. */
  lemma ParseDigitsReadsNumeral(m: nat, tail: string)
    requires tail == [] || (!IsDecimalDigit(tail[0]) && tail[0] != 'x' && tail[0] != 'X')
    ensures ParseDigits(NatText(m) + tail) == Some(m)
  {
    var u := NatText(m) + tail;
    assert !HasHexPrefix(u) by {
      if NatText(m)[0] == '0' {
        assert |NatText(m)| == 1;
        assert |u| >= 2 ==> u[1] == tail[0];
      }
    }
    DigitRunStops(NatText(m), tail, 10);
    NatTextValue(m);
  }

  /** A non-negative numeral reads back as its value. */
  lemma ParseIntReadsNatural(m: nat, tail: string)
    requires tail == [] || (!IsDecimalDigit(tail[0]) && tail[0] != 'x' && tail[0] != 'X')
    ensures ParseInt(NatText(m) + tail) == Some(m)
  {
    var s := NatText(m) + tail;
    assert IsDecimalDigit(s[0]);
    TrimStartKeeps(s);
    ParseDigitsReadsNumeral(m, tail);
    assert Unsigned(s) == s;
  }

  /** A `-` followed by the numeral of `-n` reads back as `n`. */
  lemma ParseIntReadsNegative(n: int, tail: string)
    requires n < 0
    requires tail == [] || (!IsDecimalDigit(tail[0]) && tail[0] != 'x' && tail[0] != 'X')
    ensures ParseInt("-" + (NatText(-n) + tail)) == Some(n)
  {
    var m: nat := -n;
    var u := NatText(m) + tail;
    var s := "-" + u;
    assert s[0] == '-' && s[1..] == u;
    TrimStartKeeps(s);
    ParseDigitsReadsNumeral(m, tail);
    assert 0 - m == n;
  }

  /** The numeral of a negative integer is a `-` and the numeral of its magnitude. */
  lemma NegativeText(n: int, tail: string)
    requires n < 0
    ensures IntText(n) + tail == "-" + (NatText(-n) + tail)
  {
    assert IntText(n) == "-" + NatText(-n);
  }

  /** `parseInt` reads back the decimal numeral of any integer, and stops at the
      first character that cannot continue the numeral: `parseInt("30s") == 30`. */
  lemma ParseIntReadsNumeral(n: int, tail: string)
    requires tail == [] || (!IsDecimalDigit(tail[0]) && tail[0] != 'x' && tail[0] != 'X')
    ensures ParseInt(IntText(n) + tail) == Some(n)
  {
    if n < 0 {
      NegativeText(n, tail);
      ParseIntReadsNegative(n, tail);
    } else {
      assert IntText(n) + tail == NatText(n) + tail;
      ParseIntReadsNatural(n, tail);
    }
  }

  /** The default duration text `'0'` reads as 0. */
  lemma ParseIntZero()
    ensures ParseInt("0") == Some(0)
  {
    ParseIntReadsNumeral(0, "");
    assert IntText(0) + "" == "0";
  }

  /** Leading white space never changes what `parseInt` reads. */
  lemma ParseIntSkipsWhitespace(ws: string, s: string)
    requires forall i :: 0 <= i < |ws| ==> IsJsWhitespace(ws[i])
    ensures ParseInt(ws + s) == ParseInt(s)
  {
    TrimStartDrops(ws, s);
  }

  /** A text whose first non-blank character is neither a sign nor a digit is NaN;
      in particular the cell `"not-a-number"` does not read as 0. */
  lemma ParseIntNaN(s: string)
    requires TrimStart(s) != [] && !IsDecimalDigit(TrimStart(s)[0])
    requires TrimStart(s)[0] != '+' && TrimStart(s)[0] != '-'
    ensures ParseInt(s) == None
  {
  }

  /** The cell text `"not-a-number"` is NaN, not 0. */
  lemma ParseIntNotANumber()
    ensures ParseInt("not-a-number") == None
  {
    TrimStartKeeps("not-a-number");
  }

  /** Neither the empty text nor a lone sign holds a digit. */
  lemma ParseIntNoDigits()
    ensures ParseInt("") == None
    ensures ParseInt("-") == None
  {
    TrimStartKeeps("-");
    assert Unsigned("-") == [];
  }

  /** A `0x` prefix with no hexadecimal digit after it is NaN, not 0. */
  lemma ParseIntBareHexPrefix()
    ensures ParseInt("0x") == None
  {
    TrimStartKeeps("0x");
    assert Unsigned("0x") == "0x";
  }

  /** A `0x` prefix switches to base 16. */
  lemma ParseIntHexExample()
    ensures ParseInt("0x1A") == Some(26)
  {
    var u := "0x1A";
    TrimStartKeeps(u);
    assert Unsigned(u) == u;
    assert HasHexPrefix(u) && u[2..] == "1A";
    HexDigitsOneA();
  }

  /** `1A` is a run of hexadecimal digits worth 26. */
  lemma HexDigitsOneA()
    ensures DigitRun("1A", 16) == "1A"
    ensures DigitsValue("1A", 16) == 26
  {
    assert DigitRun("A", 16) == "A" by {
      assert "A"[1..] == [];
    }
    assert "1A"[1..] == "A";
    assert "1A"[..1] == "1";
    assert "1"[..0] == [];
    assert DigitsValue("1", 16) == 1;
  }

  /** Leading blanks, a sign and a trailing unit around a decimal numeral. */
  lemma ParseIntSignedExample()
    ensures ParseInt(" -42s") == Some(-42)
  {
    var s := " -42s";
    assert s[0] == ' ' && s[1..] == "-42s";
    TrimStartKeeps("-42s");
    assert Unsigned("-42s") == "42s";
    DecimalDigitsFortyTwo();
  }

  /** The decimal run of `42s` is `42`, worth 42. */
  lemma DecimalDigitsFortyTwo()
    ensures DigitRun("42s", 10) == "42"
    ensures DigitsValue("42", 10) == 42
  {
    assert DigitRun("2s", 10) == "2" by {
      assert "2s"[1..] == "s";
    }
    assert "42s"[1..] == "2s";
    assert "42"[..1] == "4";
    assert "4"[..0] == [];
    assert DigitsValue("4", 10) == 4;
  }
}
