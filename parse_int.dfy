/** JavaScript's parseInt(s, 10) (section 19.2.5 of ECMA-262), over unbounded
    integers: skip leading white space, take an optional sign, then the longest
    run of decimal digits; with no digit the result is NaN, here None. */
module ParseInt {
  import opened Wrappers

  /** StrWhiteSpaceChar of ECMA-262: WhiteSpace (TAB, VT, FF, ZWNBSP and the
      space separators) or LineTerminator (LF, CR, LS, PS). */
  predicate IsStrWhiteSpace(c: char) {
    var u := c as int;
    (9 <= u <= 13) || u == 0x20 || u == 0xA0 || u == 0x1680 ||
    (0x2000 <= u <= 0x200A) || u == 0x2028 || u == 0x2029 ||
    u == 0x202F || u == 0x205F || u == 0x3000 || u == 0xFEFF
  }

  predicate IsDigit(c: char) {
    '0' <= c <= '9'
  }

  predicate AllWhiteSpace(s: string) {
    forall k :: 0 <= k < |s| ==> IsStrWhiteSpace(s[k])
  }

  predicate AllDigits(s: string) {
    forall k :: 0 <= k < |s| ==> IsDigit(s[k])
  }

  function DigitValue(c: char): (d: nat)
    requires IsDigit(c)
    ensures d < 10
  {
    c as int - '0' as int
  }

  function DigitChar(d: nat): (c: char)
    requires d < 10
    ensures IsDigit(c) && DigitValue(c) == d
  {
    ('0' as int + d) as char
  }

  /** The string with its leading white space removed: a suffix of s, everything
      cut off is white space, and it does not itself start with white space. */
  function TrimStart(s: string): (r: string)
    ensures |r| <= |s| && r == s[|s| - |r|..]
    ensures forall k :: 0 <= k < |s| - |r| ==> IsStrWhiteSpace(s[k])
    ensures r == [] || !IsStrWhiteSpace(r[0])
  {
    if |s| > 0 && IsStrWhiteSpace(s[0]) then TrimStart(s[1..]) else s
  }

  /** Length of the longest prefix of s made of decimal digits. */
  function DigitRunLength(s: string): (n: nat)
    ensures n <= |s|
    ensures forall k :: 0 <= k < n ==> IsDigit(s[k])
    ensures n == |s| || !IsDigit(s[n])
  {
    if |s| > 0 && IsDigit(s[0]) then 1 + DigitRunLength(s[1..]) else 0
  }

  /** The value of a digit string read in base 10, most significant digit first. */
  function DigitsValue(d: string): nat
    requires AllDigits(d)
  {
    if d == [] then 0 else 10 * DigitsValue(d[..|d| - 1]) + DigitValue(d[|d| - 1])
  }

  /** The longest run of decimal digits at the start of u, read in base 10;
      None when u does not start with a digit. */
  function LeadingDigits(u: string): (r: Option<nat>)
    ensures r.Some? <==> |u| >= 1 && IsDigit(u[0])
  {
    var n := DigitRunLength(u);
    if n == 0 then None else Some(DigitsValue(u[..n]))
  }

  /** An optional sign followed by the leading digits of what remains. */
  function SignedDigits(t: string): (r: Option<int>)
    ensures r.Some? <==> StartsNumber(t)
  {
    var negative := |t| > 0 && t[0] == '-';
    var u := if |t| > 0 && (t[0] == '-' || t[0] == '+') then t[1..] else t;
    match LeadingDigits(u)
    case None => None
    case Some(magnitude) =>
      var m: int := magnitude;
      Some(if negative then -m else m)
  }

  /** A number starts here: a digit, or a sign followed by a digit. */
  predicate StartsNumber(t: string) {
    (|t| >= 1 && IsDigit(t[0])) ||
    (|t| >= 2 && (t[0] == '+' || t[0] == '-') && IsDigit(t[1]))
  }

  /** parseInt(s, 10): None stands for NaN. A number is found exactly when one
      starts after the leading white space, and it is negative only after a
      minus sign. */
  function ParseIntPrefix(s: string): (r: Option<int>)
    ensures r.Some? <==> StartsNumber(TrimStart(s))
    ensures r.Some? && r.value < 0 ==> TrimStart(s)[0] == '-'
  {
    SignedDigits(TrimStart(s))
  }

  /** The canonical decimal numeral of n: no leading zero unless n is 0. */
  function Decimal(n: nat): (s: string)
    ensures |s| >= 1 && AllDigits(s)
    ensures |s| > 1 ==> s[0] != '0'
  {
    if n < 10 then [DigitChar(n)] else Decimal(n / 10) + [DigitChar(n % 10)]
  }

  /** Reading back the numeral of n gives n. */
  lemma {:induction false} DecimalValue(n: nat)
    ensures DigitsValue(Decimal(n)) == n
  {
    var s := Decimal(n);
    if n >= 10 {
      assert s[..|s| - 1] == Decimal(n / 10);
      DecimalValue(n / 10);
    }
  }

  /** Leading white space followed by a non-blank string is skipped exactly. */
  lemma {:induction false} TrimStartPadded(ws: string, t: string)
    requires AllWhiteSpace(ws)
    requires t == [] || !IsStrWhiteSpace(t[0])
    ensures TrimStart(ws + t) == t
  {
    if ws != [] {
      assert (ws + t)[1..] == ws[1..] + t;
      TrimStartPadded(ws[1..], t);
    }
  }

  /** The digit run of a digit string followed by a non-digit is that digit string. */
  lemma {:induction false} DigitRunOf(d: string, rest: string)
    requires AllDigits(d)
    requires rest == [] || !IsDigit(rest[0])
    ensures DigitRunLength(d + rest) == |d|
  {
    if d != [] {
      assert (d + rest)[1..] == d[1..] + rest;
      DigitRunOf(d[1..], rest);
    }
  }

  /** A digit string followed by text that does not continue it reads as its value. */
  lemma LeadingDigitsOf(d: string, rest: string)
    requires |d| >= 1 && AllDigits(d)
    requires rest == [] || !IsDigit(rest[0])
    ensures LeadingDigits(d + rest) == Some(DigitsValue(d))
  {
    DigitRunOf(d, rest);
    assert (d + rest)[..|d|] == d;
  }

  /** Negation applied to a sign and a magnitude. */
  function Signed(sign: string, n: nat): int
  {
    var m: int := n;
    if sign == "-" then -m else m
  }

  /** Concatenation regrouped to the right. */
  lemma Regroup(a: string, b: string, c: string, e: string)
    ensures a + b + c + e == a + (b + (c + e))
  {
  }

  /** A sign in front of text whose leading digits read m reads m or -m. */
  lemma SignedDigitsOf(sign: string, u: string, m: nat)
    requires sign == "" || sign == "+" || sign == "-"
    requires LeadingDigits(u) == Some(m)
    ensures SignedDigits(sign + u) == Some(Signed(sign, m))
  {
    var t := sign + u;
    assert IsDigit(u[0]);
    assert (if |t| > 0 && (t[0] == '-' || t[0] == '+') then t[1..] else t) == u;
    assert (|t| > 0 && t[0] == '-') == (sign == "-");
  }

  /** parseInt accepts white space, an optional sign, a non-empty digit string
      (leading zeros included) and any trailing text that does not continue
      the digits, and yields the signed base-10 value of the digits. */
  lemma ParseDigits(ws: string, sign: string, d: string, rest: string)
    requires AllWhiteSpace(ws)
    requires sign == "" || sign == "+" || sign == "-"
    requires |d| >= 1 && AllDigits(d)
    requires rest == [] || !IsDigit(rest[0])
    ensures ParseIntPrefix(ws + sign + d + rest) == Some(Signed(sign, DigitsValue(d)))
  {
    var u := d + rest;
    var t := sign + u;
    Regroup(ws, sign, d, rest);
    assert !IsStrWhiteSpace(t[0]) by {
      assert t[0] == if sign == "" then d[0] else sign[0];
      assert IsDigit(d[0]);
    }
    TrimStartPadded(ws, t);
    LeadingDigitsOf(d, rest);
    SignedDigitsOf(sign, u, DigitsValue(d));
  }

  /** The canonical numeral of n, signed and padded, parses back to n or -n. */
  lemma ParseDecimal(ws: string, sign: string, n: nat, rest: string)
    requires AllWhiteSpace(ws)
    requires sign == "" || sign == "+" || sign == "-"
    requires rest == [] || !IsDigit(rest[0])
    ensures ParseIntPrefix(ws + sign + Decimal(n) + rest) == Some(Signed(sign, n))
  {
    ParseDigits(ws, sign, Decimal(n), rest);
    DecimalValue(n);
  }

  /** When no digit follows the white space and the optional sign, the result is NaN. */
  lemma ParseNoDigits(ws: string, sign: string, rest: string)
    requires AllWhiteSpace(ws)
    requires sign == "" || sign == "+" || sign == "-"
    requires rest == [] || !IsDigit(rest[0])
    requires sign == "" && rest != [] ==> !IsStrWhiteSpace(rest[0]) && rest[0] != '+' && rest[0] != '-'
    ensures ParseIntPrefix(ws + sign + rest) == None
  {
    var t := sign + rest;
    assert ws + sign + rest == ws + t;
    TrimStartPadded(ws, t);
    assert (if |t| > 0 && (t[0] == '-' || t[0] == '+') then t[1..] else t) == rest;
  }

  // Inputs typed into the count box, one lemma each.

  lemma ParseFive()
    ensures ParseIntPrefix("5") == Some(5)
  {
    assert "5" == "" + "" + Decimal(5) + "" by { assert Decimal(5) == "5"; }
    ParseDecimal("", "", 5, "");
  }

  lemma ParseZero()
    ensures ParseIntPrefix("0") == Some(0)
  {
    assert "0" == "" + "" + Decimal(0) + "" by { assert Decimal(0) == "0"; }
    ParseDecimal("", "", 0, "");
  }

  lemma ParseMinusThree()
    ensures ParseIntPrefix("-3") == Some(-3)
  {
    assert "-3" == "" + "-" + Decimal(3) + "" by { assert Decimal(3) == "3"; }
    ParseDecimal("", "-", 3, "");
  }

  /** Trailing text after the digits is ignored. */
  lemma ParseFiveX()
    ensures ParseIntPrefix("5x") == Some(5)
  {
    assert "5x" == "" + "" + Decimal(5) + "x" by { assert Decimal(5) == "5"; }
    ParseDecimal("", "", 5, "x");
  }

  /** Leading white space and a plus sign are skipped. */
  lemma ParsePaddedPlus()
    ensures ParseIntPrefix(" +42 cells") == Some(42)
  {
    assert " +42 cells" == " " + "+" + Decimal(42) + " cells" by { assert Decimal(42) == "42"; }
    ParseDecimal(" ", "+", 42, " cells");
  }

  /** Leading zeros are read as part of the number. */
  lemma ParseLeadingZeros()
    ensures ParseIntPrefix("007") == Some(7)
  {
    assert "007" == "" + "" + "007" + "";
    assert DigitsValue("007") == 7 by {
      assert "007"[..2] == "00" && "00"[..1] == "0" && "0"[..0] == "";
    }
    ParseDigits("", "", "007", "");
  }

  /** Text with no digit after the white space and sign is NaN. */
  lemma ParseIntRejects()
    ensures ParseIntPrefix("abc") == None
    ensures ParseIntPrefix("") == None
    ensures ParseIntPrefix("- 7") == None
  {
    assert "abc" == "" + "" + "abc";
    ParseNoDigits("", "", "abc");
    assert "" == "" + "" + "";
    ParseNoDigits("", "", "");
    assert "- 7" == "" + "-" + " 7";
    ParseNoDigits("", "-", " 7");
  }
}
