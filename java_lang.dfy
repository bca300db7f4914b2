/** The pieces of the Java platform that the client configuration relies on:
    64-bit `long` arithmetic, `Long.parseLong`, `Long.toString`, and the
    character case mapping behind `String.equalsIgnoreCase`. */
module JavaLang {
  import opened Wrappers

  // ---------------------------------------------------------------------
  // 64-bit signed integers
  // ---------------------------------------------------------------------

  const MinLong: int := -0x8000_0000_0000_0000
  const MaxLong: int := 0x7FFF_FFFF_FFFF_FFFF
  const LongModulus: int := 0x1_0000_0000_0000_0000

  predicate InLongRange(x: int) {
    MinLong <= x <= MaxLong
  }

  /** The `long` that a Java expression with mathematical value `x` evaluates to:
      two's complement wrap-around modulo 2^64. */
  function ToLong(x: int): (r: int)
    ensures InLongRange(r)
    ensures (x - r) % LongModulus == 0
    ensures InLongRange(x) ==> r == x
  {
    (x - MinLong) % LongModulus + MinLong
  }

  // ---------------------------------------------------------------------
  // Decimal digits
  // ---------------------------------------------------------------------

  predicate IsDigit(c: char) {
    '0' <= c <= '9'
  }

  predicate AllDigits(s: string) {
    forall i :: 0 <= i < |s| ==> IsDigit(s[i])
  }

  function DigitValue(c: char): (d: nat)
    requires IsDigit(c)
    ensures d < 10
  {
    c as int - '0' as int
  }

  function DigitChar(d: nat): (c: char)
    requires d < 10
    ensures IsDigit(c) && DigitValue(c) == d
  {
    ('0' as int + d) as char
  }

  function Pow10(k: nat): (p: nat)
    ensures p >= 1
  {
    if k == 0 then 1 else 10 * Pow10(k - 1)
  }

  /** The number a string of decimal digits denotes, most significant digit first. */
  function DigitsValue(s: string): (n: nat)
    requires AllDigits(s)
    ensures n < Pow10(|s|)
  {
    if s == [] then 0
    else
      var prefix := DigitsValue(s[..|s| - 1]);
      assert prefix <= Pow10(|s| - 1) - 1;
      prefix * 10 + DigitValue(s[|s| - 1])
  }

  /** The shortest digit string of a natural number (no leading zeros). */
  function NatDigits(n: nat): (s: string)
    ensures |s| > 0 && AllDigits(s)
    ensures |s| > 1 ==> s[0] != '0'
  {
    if n < 10 then [DigitChar(n)]
    else NatDigits(n / 10) + [DigitChar(n % 10)]
  }

  /** `Long.toString`, extended to every integer: an optional minus sign and
      the shortest digit string. */
  function DecimalString(n: int): string {
    if n < 0 then "-" + NatDigits(-n) else NatDigits(n)
  }

  lemma {:induction false} DigitsValueOfNatDigits(n: nat)
    ensures DigitsValue(NatDigits(n)) == n
  {
    if n >= 10 {
      var s := NatDigits(n);
      assert s[..|s| - 1] == NatDigits(n / 10);
      DigitsValueOfNatDigits(n / 10);
    }
  }

  /** A zero in front of a digit string does not change its value. */
  lemma {:induction false} DigitsValueLeadingZero(s: string)
    requires AllDigits(s)
    ensures AllDigits("0" + s) && DigitsValue("0" + s) == DigitsValue(s)
  {
    var z := "0" + s;
    assert AllDigits(z) by {
      forall i | 0 <= i < |z| ensures IsDigit(z[i]) {
        if i > 0 { assert z[i] == s[i - 1]; }
      }
    }
    if s != [] {
      assert z[..|z| - 1] == "0" + s[..|s| - 1];
      DigitsValueLeadingZero(s[..|s| - 1]);
    }
  }

  // ---------------------------------------------------------------------
  // Long.parseLong
  // ---------------------------------------------------------------------

  /** The `NumberFormatException` that `Long.parseLong` throws, with the
      rejected input. */
  datatype ParseError = NumberFormat(input: string)

  predicate IsSign(c: char) {
    c == '+' || c == '-'
  }

  /** How many leading characters of `s` form its optional sign. */
  function SignLength(s: string): (k: nat)
    ensures k <= |s|
  {
    if |s| > 0 && IsSign(s[0]) then 1 else 0
  }

  /** `Long.parseLong(s)` in radix 10: an optional `+` or `-`, then one or more
      digits, denoting a value in the `long` range. Anything else is a
      `NumberFormatException`. */
  function ParseLong(s: string): (r: Result<int, ParseError>)
    ensures r.Success? ==> InLongRange(r.value)
    ensures r.Success? ==> |s| > 0 && IsDigit(s[|s| - 1])
    ensures r.Failure? ==> r.error == NumberFormat(s)
  {
    var digits := s[SignLength(s)..];
    if |digits| == 0 || !AllDigits(digits) then Failure(NumberFormat(s))
    else
      assert s[|s| - 1] == digits[|digits| - 1];
      var magnitude: int := DigitsValue(digits);
      var v := if s[0] == '-' then -magnitude else magnitude;
      if InLongRange(v) then Success(v) else Failure(NumberFormat(s))
  }

  /** What `ParseLong` gives for an optional sign followed by digits: their
      signed value, when that is a `long`. */
  lemma {:induction false} ParseLongWellFormed(s: string)
    requires SignLength(s) < |s| && AllDigits(s[SignLength(s)..])
    ensures var m: int := DigitsValue(s[SignLength(s)..]);
            var v := if s[0] == '-' then -m else m;
            && (ParseLong(s).Success? <==> InLongRange(v))
            && (ParseLong(s).Success? ==> ParseLong(s).value == v)
  {
  }

  /** Parsing what `Long.toString` prints gives the number back exactly when it
      is a `long`; any other integer is rejected. */
  lemma {:induction false} ParseLongOfDecimalString(n: int)
    ensures ParseLong(DecimalString(n)).Success? <==> InLongRange(n)
    ensures ParseLong(DecimalString(n)).Success? ==> ParseLong(DecimalString(n)).value == n
  {
    var s := DecimalString(n);
    if n < 0 {
      var d := NatDigits(-n);
      DigitsValueOfNatDigits(-n);
      assert s == "-" + d;
      assert s[0] == '-' && SignLength(s) == 1 && s[1..] == d;
      ParseLongWellFormed(s);
    } else {
      DigitsValueOfNatDigits(n);
      assert s == NatDigits(n);
      assert IsDigit(s[0]) && SignLength(s) == 0 && s[0..] == s;
      ParseLongWellFormed(s);
    }
  }

  /** Every `long` has a string that parses to it. */
  lemma {:induction false} ParseLongOnto(n: int)
    requires InLongRange(n)
    ensures exists s :: ParseLong(s) == Success(n)
  {
    ParseLongOfDecimalString(n);
  }

  /** A `+` sign in front of a digit string does not change what it parses to. */
  lemma {:induction false} ParseLongPlusSign(d: string)
    requires |d| > 0 && AllDigits(d)
    ensures ParseLong("+" + d) == if ParseLong(d).Success? then ParseLong(d) else Failure(NumberFormat("+" + d))
  {
    var s := "+" + d;
    assert s[0] == '+' && SignLength(s) == 1 && s[1..] == d;
    ParseLongWellFormed(s);
    assert IsDigit(d[0]) && SignLength(d) == 0 && d[0..] == d;
    ParseLongWellFormed(d);
  }

  /** A `-` sign in front of a digit string negates its value, and the
      negated value must itself be a `long`. */
  lemma {:induction false} ParseLongMinusSign(d: string)
    requires |d| > 0 && AllDigits(d)
    ensures ParseLong("-" + d).Success? <==> InLongRange(-(DigitsValue(d) as int))
    ensures ParseLong("-" + d).Success? ==> ParseLong("-" + d).value == -(DigitsValue(d) as int)
  {
    var s := "-" + d;
    assert s[0] == '-' && SignLength(s) == 1 && s[1..] == d;
    ParseLongWellFormed(s);
  }

  /** A leading zero does not change what a digit string parses to. */
  lemma {:induction false} ParseLongLeadingZero(d: string)
    requires |d| > 0 && AllDigits(d)
    ensures ParseLong("0" + d) == if ParseLong(d).Success? then ParseLong(d) else Failure(NumberFormat("0" + d))
  {
    var s := "0" + d;
    DigitsValueLeadingZero(d);
    assert s[0] == '0' && SignLength(s) == 0 && s[0..] == s;
    ParseLongWellFormed(s);
    assert IsDigit(d[0]) && SignLength(d) == 0 && d[0..] == d;
    ParseLongWellFormed(d);
  }

  /** Up to 18 digits after an optional sign always fit in a `long`. */
  lemma {:induction false} ShortDecimalsParse(s: string)
    requires 0 < |s| - SignLength(s) <= 18 && AllDigits(s[SignLength(s)..])
    ensures ParseLong(s).Success?
  {
    var digits := s[SignLength(s)..];
    Pow10Monotone(|digits|, 18);
    assert Pow10(18) == 1_000_000_000_000_000_000 by { Pow10Of18(); }
  }

  lemma {:induction false} Pow10Monotone(j: nat, k: nat)
    requires j <= k
    ensures Pow10(j) <= Pow10(k)
  {
    if j < k { Pow10Monotone(j, k - 1); }
  }

  lemma Pow10Of18()
    ensures Pow10(18) == 1_000_000_000_000_000_000
  {
    assert Pow10(6) == 1_000_000;
    assert Pow10(12) == 1_000_000_000_000;
  }

  /** A string holding anything but digits after its optional sign, or no
      digits at all, is rejected. */
  lemma {:induction false} ParseLongRejectsNonDigit(s: string, i: nat)
    requires SignLength(s) <= i < |s| && !IsDigit(s[i])
    ensures ParseLong(s) == Failure(NumberFormat(s))
  {
  }

  // ---------------------------------------------------------------------
  // Character case mapping and String.equalsIgnoreCase
  // ---------------------------------------------------------------------

  const DottedCapitalI: char := '\U{0130}'
  const DotlessSmallI: char := '\U{0131}'
  const LongS: char := '\U{017F}'
  const KelvinSign: char := '\U{212A}'

  /** `Character.toUpperCase`, for ASCII letters and for the non-ASCII
      characters whose upper case is an ASCII letter. */
  function UpperCase(c: char): char {
    if 'a' <= c <= 'z' then (c as int - 32) as char
    else if c == DotlessSmallI then 'I'
    else if c == LongS then 'S'
    else c
  }

  /** `Character.toLowerCase`, for ASCII letters and for the non-ASCII
      characters whose lower case is an ASCII letter. */
  function LowerCase(c: char): char {
    if 'A' <= c <= 'Z' then (c as int + 32) as char
    else if c == DottedCapitalI then 'i'
    else if c == KelvinSign then 'k'
    else c
  }

  /** The character-by-character test of `String.regionMatches(true, ...)`. */
  predicate CharEqualsIgnoreCase(a: char, b: char) {
    a == b
    || UpperCase(a) == UpperCase(b)
    || LowerCase(UpperCase(a)) == LowerCase(UpperCase(b))
  }

  /** The case-folded form of a character. */
  function Fold(c: char): char {
    LowerCase(UpperCase(c))
  }

  /** `s.equalsIgnoreCase(t)`: the same length and every pair of characters
      equal ignoring case, which is to say the same folded characters. */
  predicate EqualsIgnoreCase(s: string, t: string)
    ensures EqualsIgnoreCase(s, t) <==> |s| == |t| && forall i :: 0 <= i < |s| ==> Fold(s[i]) == Fold(t[i])
  {
    |s| == |t| && forall i :: 0 <= i < |s| ==> CharEqualsIgnoreCase(s[i], t[i])
  }

  /** Two characters are equal ignoring case exactly when they fold to the same
      character, so the relation is an equivalence. */
  lemma CharEqualsIgnoreCaseIsFoldEquality(a: char, b: char)
    ensures CharEqualsIgnoreCase(a, b) <==> Fold(a) == Fold(b)
  {
  }

  lemma {:induction false} EqualsIgnoreCaseIsEquivalence(s: string, t: string, u: string)
    ensures EqualsIgnoreCase(s, s)
    ensures EqualsIgnoreCase(s, t) ==> EqualsIgnoreCase(t, s)
    ensures EqualsIgnoreCase(s, t) && EqualsIgnoreCase(t, u) ==> EqualsIgnoreCase(s, u)
  {
  }
}
