/** The ECMAScript (ECMA-262) built-ins the metronome relies on:
    `String.prototype.split` with a one-character separator, the global
    `parseInt` with radix 10 (section 19.2.5 of ECMA-262), and, as the
    inverse of `parseInt`, the decimal rendering of an integer. */
module EcmaScript {
  import opened Wrappers

  // ---------------------------------------------------------------------
  // String.prototype.split
  // ---------------------------------------------------------------------

  /** The parts glued back together with `sep` between neighbours. */
  function Join(parts: seq<string>, sep: char): string
    decreases |parts|
  {
    if |parts| == 0 then ""
    else if |parts| == 1 then parts[0]
    else parts[0] + [sep] + Join(parts[1..], sep)
  }

  /** `s.split(sep)`: the pieces of `s` between separators, in order.
      There is always at least one piece: `"".split("/")` is `[""]`. */
  function Split(s: string, sep: char): (parts: seq<string>)
    ensures |parts| >= 1
    decreases |s|
  {
    if |s| == 0 then [""]
    else if s[0] == sep then [""] + Split(s[1..], sep)
    else
      var rest := Split(s[1..], sep);
      [[s[0]] + rest[0]] + rest[1..]
  }

  /** The pieces join back to `s`. */
  lemma {:induction false} SplitJoin(s: string, sep: char)
    ensures Join(Split(s, sep), sep) == s
    decreases |s|
  {
    if |s| > 0 {
      var rest := Split(s[1..], sep);
      SplitJoin(s[1..], sep);
      assert [s[0]] + s[1..] == s;
      if s[0] == sep {
        assert Split(s, sep) == [""] + rest;
        assert ([""] + rest)[1..] == rest;
      } else {
        var parts := [[s[0]] + rest[0]] + rest[1..];
        assert Split(s, sep) == parts;
        if |rest| > 1 {
          assert parts[1..] == rest[1..];
          assert [s[0]] + (rest[0] + [sep] + Join(rest[1..], sep)) == parts[0] + [sep] + Join(parts[1..], sep);
        }
      }
    }
  }

  /** No piece contains the separator; with SplitJoin, the pieces are
      exactly the maximal separator-free pieces of `s`. */
  lemma {:induction false} SplitPiecesFree(s: string, sep: char)
    ensures forall i :: 0 <= i < |Split(s, sep)| ==> sep !in Split(s, sep)[i]
    decreases |s|
  {
    if |s| > 0 {
      var rest := Split(s[1..], sep);
      SplitPiecesFree(s[1..], sep);
      if s[0] != sep {
        var parts := [[s[0]] + rest[0]] + rest[1..];
        assert Split(s, sep) == parts;
        assert forall i :: 1 <= i < |parts| ==> parts[i] == rest[i];
      }
    }
  }

  /** The first piece of a split is the text before the first separator. */
  lemma {:induction false} SplitHead(head: string, tail: string, sep: char)
    requires sep !in head
    requires tail == [] || tail[0] == sep
    ensures Split(head + tail, sep)[0] == head
    decreases |head|
  {
    if head == [] {
      assert head + tail == tail;
    } else {
      assert (head + tail)[0] == head[0];
      assert (head + tail)[1..] == head[1..] + tail;
      SplitHead(head[1..], tail, sep);
      assert [head[0]] + head[1..] == head;
    }
  }

  // ---------------------------------------------------------------------
  // parseInt(string, 10)
  // ---------------------------------------------------------------------

  /** StrWhiteSpaceChar: the WhiteSpace code points (TAB, VT, FF, ZWNBSP and
      every space separator of category Zs) and the LineTerminator code
      points (LF, CR, LS, PS). */
  const StrWhiteSpaceChars: set<char> := {
    '\t', '\n', '\U{000B}', '\U{000C}', '\r', ' ', '\U{00A0}', '\U{1680}',
    '\U{2000}', '\U{2001}', '\U{2002}', '\U{2003}', '\U{2004}', '\U{2005}',
    '\U{2006}', '\U{2007}', '\U{2008}', '\U{2009}', '\U{200A}',
    '\U{2028}', '\U{2029}', '\U{202F}', '\U{205F}', '\U{3000}', '\U{FEFF}'
  }

  predicate IsStrWhiteSpace(c: char) {
    c in StrWhiteSpaceChars
  }

  /** A radix-10 digit. */
  predicate IsDigit(c: char) {
    '0' <= c <= '9'
  }

  /** The value of a digit character. */
  function DigitValue(c: char): int {
    (c as int) - ('0' as int)
  }

  function DigitChar(d: nat): (c: char)
    requires d < 10
    ensures IsDigit(c) && DigitValue(c) == d
  {
    (('0' as int) + d) as char
  }

  predicate AllWhiteSpace(s: string) {
    forall i :: 0 <= i < |s| ==> IsStrWhiteSpace(s[i])
  }

  predicate AllDigits(s: string) {
    forall i :: 0 <= i < |s| ==> IsDigit(s[i])
  }

  /** Step 2 of parseInt: `s` with its leading white space removed. */
  function TrimStart(s: string): (t: string)
    ensures |t| <= |s|
    decreases |s|
  {
    if |s| > 0 && IsStrWhiteSpace(s[0]) then TrimStart(s[1..]) else s
  }

  /** Step 6 of parseInt: the longest prefix of `s` made only of digits. */
  function DigitRun(s: string): (z: string)
    ensures |z| <= |s|
    decreases |s|
  {
    if |s| > 0 && IsDigit(s[0]) then [s[0]] + DigitRun(s[1..]) else ""
  }

  /** Steps 3 and 4 of parseInt: the text after an optional leading sign.
      At most one character is dropped, and only a sign. */
  function AfterSign(t: string): (u: string)
    ensures |t| - 1 <= |u| <= |t| && u == t[|t| - |u|..]
    ensures |u| < |t| ==> t[0] == '+' || t[0] == '-'
  {
    if |t| > 0 && (t[0] == '+' || t[0] == '-') then t[1..] else t
  }

  /** The mathematical value of a string of decimal digits. */
  function DigitsValue(z: string): int
    decreases |z|
  {
    if z == [] then 0 else DigitsValue(z[..|z| - 1]) * 10 + DigitValue(z[|z| - 1])
  }

  /** `parseInt(s, 10)`, with None for NaN: skip leading white space, take
      an optional sign, then the longest run of decimal digits; no digits
      gives NaN. Integers are unbounded, and `-0` is the integer 0. */
  function ParseInt(s: string): Option<int> {
    var t := TrimStart(s);
    var z := DigitRun(AfterSign(t));
    if z == [] then None
    else if |t| > 0 && t[0] == '-' then Some(-DigitsValue(z))
    else Some(DigitsValue(z))
  }

  /** What TrimStart removes is white space, it removes a prefix, and what
      remains does not start with white space. */
  lemma {:induction false} TrimStartSpec(s: string)
    ensures var t := TrimStart(s);
      s == s[..|s| - |t|] + t && AllWhiteSpace(s[..|s| - |t|]) && (t == [] || !IsStrWhiteSpace(t[0]))
    decreases |s|
  {
    if |s| > 0 && IsStrWhiteSpace(s[0]) {
      TrimStartSpec(s[1..]);
      var t := TrimStart(s);
      var k := |s[1..]| - |t|;
      assert s[1..][..k] == s[1..|s| - |t|];
      assert s[..|s| - |t|] == [s[0]] + s[1..|s| - |t|];
    }
  }

  /** DigitRun takes a prefix made of digits that is followed by a
      non-digit, if by anything. */
  lemma {:induction false} DigitRunSpec(s: string)
    ensures var z := DigitRun(s);
      s == z + s[|z|..] && AllDigits(z) && (|z| == |s| || !IsDigit(s[|z|]))
    decreases |s|
  {
    if |s| > 0 && IsDigit(s[0]) {
      DigitRunSpec(s[1..]);
      var z := DigitRun(s);
      assert z == [s[0]] + DigitRun(s[1..]);
      assert s[|z|..] == s[1..][|z| - 1..];
    }
  }

  // ---------------------------------------------------------------------
  // A reference description of what parseInt accepts
  // ---------------------------------------------------------------------

  /** `s` reads as white space `ws`, then a sign `sign` ("", "+" or "-"),
      then the digits `digits` (at least one), then `rest`, which does not
      continue the digits. */
  predicate IsNumericPrefix(s: string, ws: string, sign: string, digits: string, rest: string) {
    s == ws + sign + digits + rest
    && AllWhiteSpace(ws)
    && (sign == "" || sign == "+" || sign == "-")
    && |digits| > 0 && AllDigits(digits)
    && (rest == [] || !IsDigit(rest[0]))
  }

  /** The value such a reading denotes. */
  function SignedValue(sign: string, digits: string): int {
    if sign == "-" then -DigitsValue(digits) else DigitsValue(digits)
  }

  lemma {:induction false} TrimStartUnique(ws: string, t: string)
    requires AllWhiteSpace(ws)
    requires t == [] || !IsStrWhiteSpace(t[0])
    ensures TrimStart(ws + t) == t
    decreases |ws|
  {
    if ws == [] {
      assert ws + t == t;
    } else {
      assert (ws + t)[0] == ws[0];
      assert (ws + t)[1..] == ws[1..] + t;
      TrimStartUnique(ws[1..], t);
    }
  }

  lemma {:induction false} DigitRunUnique(digits: string, rest: string)
    requires AllDigits(digits)
    requires rest == [] || !IsDigit(rest[0])
    ensures DigitRun(digits + rest) == digits
    decreases |digits|
  {
    if digits == [] {
      assert digits + rest == rest;
    } else {
      assert (digits + rest)[0] == digits[0];
      assert (digits + rest)[1..] == digits[1..] + rest;
      DigitRunUnique(digits[1..], rest);
      assert [digits[0]] + digits[1..] == digits;
    }
  }

  lemma TrimStartOfReading(s: string, ws: string, sign: string, digits: string, rest: string)
    requires IsNumericPrefix(s, ws, sign, digits, rest)
    ensures TrimStart(s) == sign + digits + rest
  {
    var t := sign + (digits + rest);
    assert sign + digits + rest == t;
    assert s == ws + t;
    assert (digits + rest)[0] == digits[0];
    if sign == "" {
      assert t == digits + rest;
    } else {
      assert t[0] == sign[0];
    }
    TrimStartUnique(ws, t);
  }

  lemma DigitRunOfReading(sign: string, digits: string, rest: string)
    requires sign == "" || sign == "+" || sign == "-"
    requires |digits| > 0 && AllDigits(digits)
    requires rest == [] || !IsDigit(rest[0])
    ensures DigitRun(AfterSign(sign + digits + rest)) == digits
  {
    var u := digits + rest;
    assert u[0] == digits[0];
    if sign == "" {
      assert sign + digits + rest == u;
    } else {
      assert (sign + u)[1..] == u;
      assert sign + digits + rest == sign + u;
    }
    DigitRunUnique(digits, rest);
  }

  /** parseInt's result once the trimmed text and its digit run are known. */
  lemma ParseIntOfTrimmed(s: string, t: string, sign: string, digits: string)
    requires sign == "" || sign == "+" || sign == "-"
    requires |digits| > 0
    requires TrimStart(s) == t
    requires |t| > 0 && (sign == "" ==> IsDigit(t[0])) && (sign != "" ==> t[0] == sign[0])
    requires DigitRun(AfterSign(t)) == digits
    ensures ParseInt(s) == Some(SignedValue(sign, digits))
  {
  }

  /** Every reading of `s` as white space, sign, digits and the rest is the
      one parseInt takes, and parseInt returns its value. */
  lemma ParseIntComplete(s: string, ws: string, sign: string, digits: string, rest: string)
    requires IsNumericPrefix(s, ws, sign, digits, rest)
    ensures ParseInt(s) == Some(SignedValue(sign, digits))
  {
    TrimStartOfReading(s, ws, sign, digits, rest);
    DigitRunOfReading(sign, digits, rest);
    var t := sign + digits + rest;
    assert t[0] == if sign == "" then digits[0] else sign[0];
    ParseIntOfTrimmed(s, t, sign, digits);
  }

  lemma Concat4(s: string, ws: string, t: string, sign: string, u: string, digits: string, rest: string)
    requires s == ws + t && t == sign + u && u == digits + rest
    ensures s == ws + sign + digits + rest
  {
  }

  /** The reading that parseInt itself takes of `s`. */
  lemma ReadingOfParse(s: string) returns (ws: string, sign: string, digits: string, rest: string)
    requires ParseInt(s).Some?
    ensures IsNumericPrefix(s, ws, sign, digits, rest)
    ensures ParseInt(s).value == SignedValue(sign, digits)
  {
    var t := TrimStart(s);
    TrimStartSpec(s);
    ws := s[..|s| - |t|];
    sign := if |t| > 0 && (t[0] == '+' || t[0] == '-') then [t[0]] else "";
    var u := AfterSign(t);
    assert t == sign + u;
    digits := DigitRun(u);
    DigitRunSpec(u);
    rest := u[|digits|..];
    Concat4(s, ws, t, sign, u, digits, rest);
  }

  /** Whenever parseInt returns a number, `s` has such a reading and the
      number is its value. */
  lemma ParseIntSound(s: string)
    requires ParseInt(s).Some?
    ensures exists ws, sign, digits, rest ::
      IsNumericPrefix(s, ws, sign, digits, rest) && ParseInt(s).value == SignedValue(sign, digits)
  {
    var ws, sign, digits, rest := ReadingOfParse(s);
  }

  /** parseInt returns NaN exactly when no such reading exists. */
  lemma ParseIntNaN(s: string)
    ensures ParseInt(s).None? <==>
      !exists ws, sign, digits, rest :: IsNumericPrefix(s, ws, sign, digits, rest)
  {
    if ParseInt(s).Some? {
      ParseIntSound(s);
    } else {
      forall ws, sign, digits, rest | IsNumericPrefix(s, ws, sign, digits, rest)
        ensures false
      {
        ParseIntComplete(s, ws, sign, digits, rest);
      }
    }
  }

  // ---------------------------------------------------------------------
  // Decimal rendering of integers (Number.prototype.toString), the
  // inverse of parseInt
  // ---------------------------------------------------------------------

  /** The decimal digits of `n`, most significant first, without leading zeros. */
  function DecimalDigits(n: nat): (s: string)
    ensures |s| > 0 && AllDigits(s)
    decreases n
  {
    if n < 10 then [DigitChar(n)] else DecimalDigits(n / 10) + [DigitChar(n % 10)]
  }

  /** The decimal text of an integer, with a leading `-` when negative. */
  function IntToString(n: int): string {
    if n < 0 then "-" + DecimalDigits(-n) else DecimalDigits(n)
  }

  lemma {:induction false} DigitsValueOfDecimal(n: nat)
    ensures DigitsValue(DecimalDigits(n)) == n
    decreases n
  {
    var s := DecimalDigits(n);
    if n >= 10 {
      DigitsValueOfDecimal(n / 10);
      assert s[..|s| - 1] == DecimalDigits(n / 10);
    }
  }

  lemma ReadingOfSignedDigits(sign: string, digits: string)
    requires sign == "-" || sign == ""
    requires |digits| > 0 && AllDigits(digits)
    ensures IsNumericPrefix(sign + digits, "", sign, digits, "")
  {
    assert "" + sign + digits + "" == sign + digits;
  }

  /** Reading back the decimal text of any integer gives that integer. */
  lemma ParseIntOfIntToString(n: int)
    ensures ParseInt(IntToString(n)) == Some(n)
  {
    var m: nat := if n < 0 then -n else n;
    var digits := DecimalDigits(m);
    var sign := if n < 0 then "-" else "";
    assert IntToString(n) == sign + digits;
    ReadingOfSignedDigits(sign, digits);
    ParseIntComplete(sign + digits, "", sign, digits, "");
    DigitsValueOfDecimal(m);
  }
}
