/**
 * The handful of java.lang behaviours the core relies on: ASCII case folding as used by
 * `String.equalsIgnoreCase` and `toLowerCase`, the integer ranges of Java's primitive types,
 * `String.valueOf(int|long)` and the `Integer/Long/Short/Byte.parseXxx` family.
 */
module JavaStrings {
  import opened Wrappers

  const BYTE_MIN: int := -0x80
  const BYTE_MAX: int := 0x7f
  const SHORT_MIN: int := -0x8000
  const SHORT_MAX: int := 0x7fff
  const INT_MIN: int := -0x8000_0000
  const INT_MAX: int := 0x7fff_ffff
  const LONG_MIN: int := -0x8000_0000_0000_0000
  const LONG_MAX: int := 0x7fff_ffff_ffff_ffff

  /** Java `int` and `long`. */
  newtype int32 = x: int | -0x8000_0000 <= x <= 0x7fff_ffff
  newtype int64 = x: int | -0x8000_0000_0000_0000 <= x <= 0x7fff_ffff_ffff_ffff

  function ToLowerAscii(c: char): char {
    if 'A' <= c <= 'Z' then (c as int + 32) as char else c
  }

  function ToUpperAscii(c: char): char {
    if 'a' <= c <= 'z' then (c as int - 32) as char else c
  }

  /** `String.toLowerCase()` restricted to ASCII letters. */
  function ToLowerString(s: string): (r: string)
    ensures |r| == |s|
  {
    if s == [] then [] else [ToLowerAscii(s[0])] + ToLowerString(s[1..])
  }

  /** The per-character test of `String.equalsIgnoreCase`. */
  predicate CharEqualsIgnoreCase(a: char, b: char) {
    a == b || ToUpperAscii(a) == ToUpperAscii(b)
  }

  predicate EqualsIgnoreCase(a: string, b: string) {
    |a| == |b| && forall i | 0 <= i < |a| :: CharEqualsIgnoreCase(a[i], b[i])
  }

  lemma EqualsIgnoreCaseReflexive(a: string)
    ensures EqualsIgnoreCase(a, a)
  {
  }

  lemma {:induction false} ToLowerStringIgnoresCase(s: string)
    ensures EqualsIgnoreCase(ToLowerString(s), s)
  {
    if s != [] {
      ToLowerStringIgnoresCase(s[1..]);
      var r := ToLowerString(s);
      assert r == [ToLowerAscii(s[0])] + ToLowerString(s[1..]);
      forall i | 0 <= i < |s| ensures CharEqualsIgnoreCase(r[i], s[i]) {
        if i > 0 {
          assert r[i] == ToLowerString(s[1..])[i - 1];
        }
      }
    }
  }

  predicate IsDigit(c: char) {
    '0' <= c <= '9'
  }

  predicate AllDigits(s: string) {
    forall i | 0 <= i < |s| :: IsDigit(s[i])
  }

  function DigitChar(d: nat): (c: char)
    requires d < 10
    ensures IsDigit(c) && c as int - '0' as int == d
  {
    ('0' as int + d) as char
  }

  /** The decimal digits of `n`, most significant first. */
  function NatString(n: nat): string
    decreases n
  {
    if n < 10 then [DigitChar(n)] else NatString(n / 10) + [DigitChar(n % 10)]
  }

  /** `String.valueOf(n)` for an `int` or a `long`. */
  function DecimalString(n: int): string {
    if n < 0 then "-" + NatString(-n) else NatString(n)
  }

  /** The value of a string of decimal digits, read left to right. */
  function DigitsValue(s: string): nat
    requires AllDigits(s)
  {
    if s == [] then 0 else DigitsValue(s[..|s| - 1]) * 10 + (s[|s| - 1] as int - '0' as int)
  }

  /**
   * `Integer.parseInt`, `Long.parseLong`, `Short.parseShort` and `Byte.parseByte` for the range
   * lo..hi: an optional sign, at least one digit, and a value in range; `None` is the
   * NumberFormatException the Java methods throw otherwise.
   */
  function ParseInteger(s: string, lo: int, hi: int): (r: Option<int>)
    ensures r.Some? ==> lo <= r.value <= hi
    ensures r.Some? ==> |s| > 0
    ensures !AllDigits(s) && |s| > 0 && s[0] != '-' && s[0] != '+' ==> r.None?
    ensures |s| > 0 && (s[0] == '-' || s[0] == '+') && (|s| == 1 || !AllDigits(s[1..])) ==> r.None?
    ensures |s| > 0 && AllDigits(s) && !(lo <= DigitsValue(s) <= hi) ==> r.None?
    ensures |s| > 1 && s[0] == '-' && AllDigits(s[1..]) && !(lo <= -(DigitsValue(s[1..]) as int) <= hi) ==> r.None?
    ensures |s| > 1 && s[0] == '+' && AllDigits(s[1..]) && !(lo <= DigitsValue(s[1..]) <= hi) ==> r.None?
    ensures r.Some? && AllDigits(s) ==> r.value == DigitsValue(s)
    ensures r.Some? && s[0] == '-' ==> AllDigits(s[1..]) && r.value == -(DigitsValue(s[1..]) as int)
    ensures r.Some? && s[0] == '+' ==> AllDigits(s[1..]) && r.value == DigitsValue(s[1..])
  {
    var signed := |s| > 0 && (s[0] == '-' || s[0] == '+');
    var digits := if signed then s[1..] else s;
    if |digits| == 0 || !AllDigits(digits) then None
    else
      var v: int := if |s| > 0 && s[0] == '-' then -(DigitsValue(digits) as int) else DigitsValue(digits);
      if lo <= v <= hi then Some(v) else None
  }

  lemma {:induction false} NatStringValue(n: nat)
    ensures |NatString(n)| > 0 && AllDigits(NatString(n)) && NatString(n)[0] != '-'
    ensures DigitsValue(NatString(n)) == n
    decreases n
  {
    if n >= 10 {
      NatStringValue(n / 10);
      var s := NatString(n);
      assert s == NatString(n / 10) + [DigitChar(n % 10)];
      assert s[..|s| - 1] == NatString(n / 10);
    }
  }

  /** Parsing what `String.valueOf` printed gives the number back. */
  lemma DecimalStringRoundTrip(n: int, lo: int, hi: int)
    requires lo <= n <= hi
    ensures ParseInteger(DecimalString(n), lo, hi) == Some(n)
  {
    if n < 0 {
      NatStringValue(-n);
      assert DecimalString(n)[1..] == NatString(-n);
    } else {
      NatStringValue(n);
    }
  }
}
