/**
 * The two text utilities of `UtilChatColour` that do not build chat components:
 * `getByCode`, the legacy formatting-code table, and `stripColor`, which deletes every match
 * of `STRIP_PATTERN` = `(?i)&([0-9A-FK-ORX]|#([A-F0-9]{6}|[A-F0-9]{3}))` in one left-to-right pass.
 */
module ChatColour {
  import opened Wrappers
  import opened JavaStrings

  datatype ChatFormatting =
    | BLACK | DARK_BLUE | DARK_GREEN | DARK_AQUA | DARK_RED | DARK_PURPLE | GOLD | GRAY
    | DARK_GRAY | BLUE | GREEN | AQUA | RED | LIGHT_PURPLE | YELLOW | WHITE
    | OBFUSCATED | BOLD | STRIKETHROUGH | UNDERLINE | ITALIC | RESET

  /** The sixteen colours, in the order of their codes '0'..'9', 'a'..'f'. */
  const COLOURS: seq<ChatFormatting> :=
    [BLACK, DARK_BLUE, DARK_GREEN, DARK_AQUA, DARK_RED, DARK_PURPLE, GOLD, GRAY,
     DARK_GRAY, BLUE, GREEN, AQUA, RED, LIGHT_PURPLE, YELLOW, WHITE]
  const COLOUR_CODES: string := "0123456789abcdef"

  /** The style codes and what they select. */
  const STYLES: seq<ChatFormatting> := [OBFUSCATED, BOLD, STRIKETHROUGH, UNDERLINE, ITALIC, RESET]
  const STYLE_CODES: string := "klmnor"

  /**
   * The first character of `Character.toString(c).toLowerCase(Locale.ROOT)`, exact for every
   * character whose lower case begins with an ASCII character: the ASCII capitals, the Kelvin
   * sign (lower case 'k') and the capital I with dot above (lower case "i" + combining dot).
   * Any other character is kept, which is enough here, since its real lower case is not ASCII
   * and so is not in the table either.
   */
  function RootLowerFirst(c: char): char {
    if 'A' <= c <= 'Z' then ToLowerAscii(c)
    else if c == '\U{212A}' then 'k'
    else if c == '\U{0130}' then 'i'
    else c
  }

  /** `getByCode`: the formatting a code character selects; `None` is Java's null. */
  function GetByCode(code: char): (r: Option<ChatFormatting>)
    ensures r.Some? <==> RootLowerFirst(code) in COLOUR_CODES + STYLE_CODES
  {
    match RootLowerFirst(code)
    case '0' => Some(BLACK)
    case '1' => Some(DARK_BLUE)
    case '2' => Some(DARK_GREEN)
    case '3' => Some(DARK_AQUA)
    case '4' => Some(DARK_RED)
    case '5' => Some(DARK_PURPLE)
    case '6' => Some(GOLD)
    case '7' => Some(GRAY)
    case '8' => Some(DARK_GRAY)
    case '9' => Some(BLUE)
    case 'a' => Some(GREEN)
    case 'b' => Some(AQUA)
    case 'c' => Some(RED)
    case 'd' => Some(LIGHT_PURPLE)
    case 'e' => Some(YELLOW)
    case 'f' => Some(WHITE)
    case 'k' => Some(OBFUSCATED)
    case 'l' => Some(BOLD)
    case 'm' => Some(STRIKETHROUGH)
    case 'n' => Some(UNDERLINE)
    case 'o' => Some(ITALIC)
    case 'r' => Some(RESET)
    case _ => None
  }

  /** The table ignores case: a code and its lower case select the same formatting. */
  lemma GetByCodeIgnoresCase(c: char)
    ensures GetByCode(c) == GetByCode(RootLowerFirst(c))
    ensures 'A' <= c <= 'Z' ==> GetByCode(c) == GetByCode(ToLowerAscii(c))
  {
  }

  /** '0'..'9', 'a'..'f' select the sixteen colours in order. */
  lemma GetByCodeColours(i: nat)
    requires i < 16
    ensures GetByCode(COLOUR_CODES[i]) == Some(COLOURS[i])
  {
    if i < 4 {
      ColoursFrom0(i);
    } else if i < 8 {
      ColoursFrom4(i);
    } else if i < 12 {
      ColoursFrom8(i);
    } else {
      ColoursFrom12(i);
    }
  }

  lemma ColoursFrom0(i: nat)
    requires i < 4
    ensures GetByCode(COLOUR_CODES[i]) == Some(COLOURS[i])
  {
    match i
    case 0 => assert GetByCode('0') == Some(BLACK);
    case 1 => assert GetByCode('1') == Some(DARK_BLUE);
    case 2 => assert GetByCode('2') == Some(DARK_GREEN);
    case 3 => assert GetByCode('3') == Some(DARK_AQUA);
  }

  lemma ColoursFrom4(i: nat)
    requires 4 <= i < 8
    ensures GetByCode(COLOUR_CODES[i]) == Some(COLOURS[i])
  {
    match i
    case 4 => assert GetByCode('4') == Some(DARK_RED);
    case 5 => assert GetByCode('5') == Some(DARK_PURPLE);
    case 6 => assert GetByCode('6') == Some(GOLD);
    case 7 => assert GetByCode('7') == Some(GRAY);
  }

  lemma ColoursFrom8(i: nat)
    requires 8 <= i < 12
    ensures GetByCode(COLOUR_CODES[i]) == Some(COLOURS[i])
  {
    match i
    case 8 => assert GetByCode('8') == Some(DARK_GRAY);
    case 9 => assert GetByCode('9') == Some(BLUE);
    case 10 => assert GetByCode('a') == Some(GREEN);
    case 11 => assert GetByCode('b') == Some(AQUA);
  }

  lemma ColoursFrom12(i: nat)
    requires 12 <= i < 16
    ensures GetByCode(COLOUR_CODES[i]) == Some(COLOURS[i])
  {
    match i
    case 12 => assert GetByCode('c') == Some(RED);
    case 13 => assert GetByCode('d') == Some(LIGHT_PURPLE);
    case 14 => assert GetByCode('e') == Some(YELLOW);
    case 15 => assert GetByCode('f') == Some(WHITE);
  }

  /** 'A'..'F' select the same colours as 'a'..'f'. */
  lemma GetByCodeUpperColours(i: nat)
    requires 10 <= i < 16
    ensures GetByCode(ToUpperAscii(COLOUR_CODES[i])) == Some(COLOURS[i])
  {
    assert COLOUR_CODES[i] == "abcdef"[i - 10] && COLOURS[i] == COLOURS[10..][i - 10];
  }

  /** 'k', 'l', 'm', 'n', 'o', 'r' select the styles in order. */
  lemma GetByCodeStyles(i: nat)
    requires i < 6
    ensures GetByCode(STYLE_CODES[i]) == Some(STYLES[i])
  {
    if i < 3 {
      StylesFrom0(i);
    } else {
      StylesFrom3(i);
    }
  }

  lemma StylesFrom0(i: nat)
    requires i < 3
    ensures GetByCode(STYLE_CODES[i]) == Some(STYLES[i])
  {
    match i
    case 0 => assert GetByCode('k') == Some(OBFUSCATED);
    case 1 => assert GetByCode('l') == Some(BOLD);
    case 2 => assert GetByCode('m') == Some(STRIKETHROUGH);
  }

  lemma StylesFrom3(i: nat)
    requires 3 <= i < 6
    ensures GetByCode(STYLE_CODES[i]) == Some(STYLES[i])
  {
    match i
    case 3 => assert GetByCode('n') == Some(UNDERLINE);
    case 4 => assert GetByCode('o') == Some(ITALIC);
    case 5 => assert GetByCode('r') == Some(RESET);
  }

  /** 'K', 'L', 'M', 'N', 'O', 'R' select the same styles as their lower case. */
  lemma GetByCodeUpperStyles(i: nat)
    requires i < 6
    ensures GetByCode(ToUpperAscii(STYLE_CODES[i])) == Some(STYLES[i])
  {
    assert RootLowerFirst(ToUpperAscii(STYLE_CODES[i])) == STYLE_CODES[i];
    GetByCodeStyles(i);
  }

  /** The Kelvin sign lowers to 'k' under the root locale, so it selects `OBFUSCATED` too. */
  lemma GetByCodeKelvinSign()
    ensures GetByCode('\U{212A}') == Some(OBFUSCATED)
  {
  }

  /** One of the characters `[0-9A-FK-ORX]` matches case-insensitively after '&'. */
  predicate IsCodeChar(c: char) {
    var l := ToLowerAscii(c);
    ('0' <= l <= '9') || ('a' <= l <= 'f') || ('k' <= l <= 'o') || l == 'r' || l == 'x'
  }

  /** `[A-F0-9]` under `(?i)`. */
  predicate IsHex(c: char) {
    var l := ToLowerAscii(c);
    ('0' <= l <= '9') || ('a' <= l <= 'f')
  }

  predicate AllHex(s: string) {
    forall i | 0 <= i < |s| :: IsHex(s[i])
  }

  /**
   * The length of the match of STRIP_PATTERN that starts at the front of `s`, or 0 when none
   * does. The alternatives are tried in the pattern's order: a code character, then '#' with six
   * hex digits, then '#' with three.
   */
  function MatchLength(s: string): (n: nat)
    ensures n == 0 || n == 2 || n == 5 || n == 8
    ensures n > 0 ==> n <= |s| && s[0] == '&'
  {
    if |s| >= 2 && s[0] == '&' && IsCodeChar(s[1]) then 2
    else if |s| >= 8 && s[0] == '&' && s[1] == '#' && AllHex(s[2..8]) then 8
    else if |s| >= 5 && s[0] == '&' && s[1] == '#' && AllHex(s[2..5]) then 5
    else 0
  }

  /** `STRIP_PATTERN.matcher(s).replaceAll("")`: matches are deleted, the scan resumes after each. */
  function Strip(s: string): (r: string)
    ensures |r| <= |s|
    decreases |s|
  {
    if s == [] then []
    else if MatchLength(s) > 0 then Strip(s[MatchLength(s)..])
    else [s[0]] + Strip(s[1..])
  }

  /** `stripColor`: null stays null. */
  function StripColor(input: Option<string>): (r: Option<string>)
    ensures r.None? <==> input.None?
    ensures input.Some? ==> |r.value| <= |input.value|
  {
    match input
    case None => None
    case Some(s) => Some(Strip(s))
  }

  /** Text without '&' is returned unchanged. */
  lemma {:induction false} StripWithoutAmpersand(s: string)
    requires '&' !in s
    ensures Strip(s) == s
    decreases |s|
  {
    if s != [] {
      assert '&' !in s[1..];
      StripWithoutAmpersand(s[1..]);
    }
  }

  /** A string is left unchanged exactly when no match of the pattern starts anywhere in it. */
  lemma {:induction false} StripUnchangedIff(s: string)
    ensures Strip(s) == s <==> forall i | 0 <= i < |s| :: MatchLength(s[i..]) == 0
    decreases |s|
  {
    if s != [] {
      StripUnchangedIff(s[1..]);
      forall i | 0 <= i < |s[1..]| ensures s[1..][i..] == s[i + 1..] {}
      if MatchLength(s) > 0 {
        assert |Strip(s)| <= |s| - MatchLength(s);
        assert MatchLength(s[0..]) > 0;
      } else {
        assert s[0..] == s;
        assert (forall i | 0 <= i < |s| :: MatchLength(s[i..]) == 0) <==>
               (forall i | 0 <= i < |s[1..]| :: MatchLength(s[1..][i..]) == 0) by {
          if forall i | 0 <= i < |s[1..]| :: MatchLength(s[1..][i..]) == 0 {
            forall i | 0 <= i < |s| ensures MatchLength(s[i..]) == 0 {
              if i > 0 {
                assert s[i..] == s[1..][i - 1..];
              }
            }
          }
        }
        assert Strip(s) == s <==> Strip(s[1..]) == s[1..] by {
          assert Strip(s) == [s[0]] + Strip(s[1..]);
          if Strip(s) == s {
            assert Strip(s)[1..] == s[1..];
          }
        }
      }
    }
  }

  /** A code right at the front is removed and the rest is scanned on its own. */
  lemma StripLeadingCode(c: char, rest: string)
    requires IsCodeChar(c)
    ensures Strip(['&', c] + rest) == Strip(rest)
  {
    assert (['&', c] + rest)[2..] == rest;
  }

  /** Removal is one pass: "&&aa" loses only the "&a" in the middle. */
  lemma StripSinglePass()
    ensures Strip("&&aa") == "&a"
    ensures Strip(Strip("&&aa")) == ""
  {
    assert MatchLength("&&aa") == 0;
    assert "&&aa"[1..] == "&aa";
    assert MatchLength("&aa") == 2;
    assert "&aa"[2..] == "a";
    assert Strip("a") == "a" by {
      assert "a"[1..] == [];
    }
    assert Strip("&a") == "" by {
      assert MatchLength("&a") == 2;
      assert "&a"[2..] == [];
    }
  }

  /** A stretch without '&' is kept as it is, and what follows is scanned on its own. */
  lemma {:induction false} StripKeepsPlain(p: string, rest: string)
    requires '&' !in p
    ensures Strip(p + rest) == p + Strip(rest)
    decreases |p|
  {
    if p != [] {
      var s := p + rest;
      assert s[0] == p[0] && s[0] != '&';
      assert MatchLength(s) == 0;
      assert s[1..] == p[1..] + rest;
      assert Strip(s) == [p[0]] + Strip(p[1..] + rest);
      assert '&' !in p[1..];
      StripKeepsPlain(p[1..], rest);
      assert p == [p[0]] + p[1..];
    } else {
      assert p + rest == rest;
    }
  }

  /** '&#' with six hex digits is removed as one eight-character match. */
  lemma StripHexSix(h: string, rest: string)
    requires |h| == 6 && AllHex(h)
    ensures Strip("&#" + h + rest) == Strip(rest)
  {
    var s := "&#" + h + rest;
    assert s[0] == '&' && s[1] == '#' && !IsCodeChar('#');
    assert s[2..8] == h;
    assert s[8..] == rest;
  }

  /** '&#' with three hex digits not followed by three more is removed as a five-character match. */
  lemma StripHexThree(h: string, rest: string)
    requires |h| == 3 && AllHex(h)
    requires !(|rest| >= 3 && AllHex(rest[..3]))
    ensures Strip("&#" + h + rest) == Strip(rest)
  {
    var s := "&#" + h + rest;
    assert s[0] == '&' && s[1] == '#' && !IsCodeChar('#');
    assert s[2..5] == h;
    assert s[5..] == rest;
    if |s| >= 8 {
      assert s[2..8][3..] == rest[..3];
      NotAllHexSuffix(s[2..8], 3);
    }
    assert MatchLength(s) == 5;
  }

  /** A string whose suffix has a non-hex character has one itself. */
  lemma NotAllHexSuffix(x: string, k: nat)
    requires k <= |x| && !AllHex(x[k..])
    ensures !AllHex(x)
  {
    var j :| 0 <= j < |x| - k && !IsHex(x[k..][j]);
    assert x[k + j] == x[k..][j];
  }

  /** '&#' with fewer than three hex digits matches nothing: '&#' and the digits stay. */
  lemma StripHexShort(h: string, rest: string)
    requires |h| < 3 && AllHex(h)
    requires |rest| == 0 || !IsHex(rest[0])
    ensures Strip("&#" + h + rest) == "&#" + h + Strip(rest)
  {
    var plain := ['#'] + h;
    ShortHexNoMatch(h, rest);
    StripUnmatchedFront("&#" + h + rest);
    HexFrontSplit(h, rest);
    NoAmpersandInHex(h);
    StripKeepsPlain(plain, rest);
    var t := "&#" + h + rest;
    assert Strip(t) == ['&'] + (plain + Strip(rest));
    HexFrontJoin(h, Strip(rest));
  }

  lemma HexFrontJoin(h: string, x: string)
    ensures ['&'] + ((['#'] + h) + x) == "&#" + h + x
  {
  }

  /** A front without a match keeps its first character. */
  lemma StripUnmatchedFront(s: string)
    requires |s| > 0 && MatchLength(s) == 0
    ensures Strip(s) == [s[0]] + Strip(s[1..])
  {
  }

  lemma HexFrontSplit(h: string, rest: string)
    ensures ("&#" + h + rest)[0] == '&'
    ensures ("&#" + h + rest)[1..] == (['#'] + h) + rest
    ensures "&#" + h == ['&'] + (['#'] + h)
  {
  }

  lemma NoAmpersandInHex(h: string)
    requires AllHex(h)
    ensures '&' !in ['#'] + h
  {
    forall i | 0 <= i < |h| ensures h[i] != '&' {
      assert IsHex(h[i]);
    }
  }

  lemma ShortHexNoMatch(h: string, rest: string)
    requires |h| < 3
    requires |rest| == 0 || !IsHex(rest[0])
    ensures MatchLength("&#" + h + rest) == 0
  {
    var s := "&#" + h + rest;
    assert s[1] == '#' && !IsCodeChar('#');
    assert |s| >= 5 ==> |rest| > 0 && s[2 + |h|] == rest[0];
    if |s| >= 8 {
      assert s[2..8][|h|] == s[2 + |h|];
    }
    if |s| >= 5 {
      assert s[2..5][|h|] == s[2 + |h|];
    }
  }
}
