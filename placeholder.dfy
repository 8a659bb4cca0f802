/**
 * The placeholder factories of `Placeholder`: `simple(key, result)` and its int/long overloads,
 * which replace every occurrence of a key in a line, and `multiLine(key, lines)`, which expands
 * a line that is exactly the key into several lines.
 */
module Placeholders {
  import opened Wrappers
  import opened JavaStrings

  /** `key` occurs in `s` starting at index `i`. */
  predicate OccursAt(s: string, key: string, i: int) {
    0 <= i && i + |key| <= |s| && s[i..i + |key|] == key
  }

  /** `s.contains(key)`. */
  predicate Contains(s: string, key: string) {
    exists i | 0 <= i <= |s| :: OccursAt(s, key, i)
  }

  /**
   * `s.replace(key, result)` for a non-empty key: scanning left to right, each occurrence of
   * `key` is replaced and scanning resumes after it, so occurrences never overlap.
   */
  function ReplaceAll(s: string, key: string, result: string): string
    requires |key| > 0
    decreases |s|
  {
    if |s| < |key| then s
    else if s[..|key|] == key then result + ReplaceAll(s[|key|..], key, result)
    else [s[0]] + ReplaceAll(s[1..], key, result)
  }

  /** How many occurrences the left-to-right scan of `ReplaceAll` replaces. */
  function Replaced(s: string, key: string): nat
    requires |key| > 0
    decreases |s|
  {
    if |s| < |key| then 0
    else if s[..|key|] == key then 1 + Replaced(s[|key|..], key)
    else Replaced(s[1..], key)
  }

  /** A placeholder made by one of the factories. */
  datatype Placeholder =
    | Simple(key: string, result: string)
    | MultiLine(key: string, lines: seq<string>)

  /** `Placeholder.simple(key, String.valueOf(n))` for an `int`. */
  function SimpleInt(key: string, n: int32): (p: Placeholder)
    ensures p.Simple? && p.key == key
    ensures ParseInteger(p.result, INT_MIN, INT_MAX) == Some(n as int)
  {
    DecimalStringRoundTrip(n as int, INT_MIN, INT_MAX);
    Simple(key, DecimalString(n as int))
  }

  /** `Placeholder.simple(key, String.valueOf(n))` for a `long`. */
  function SimpleLong(key: string, n: int64): (p: Placeholder)
    ensures p.Simple? && p.key == key
    ensures ParseInteger(p.result, LONG_MIN, LONG_MAX) == Some(n as int)
  {
    DecimalStringRoundTrip(n as int, LONG_MIN, LONG_MAX);
    Simple(key, DecimalString(n as int))
  }

  /** The line(s) a placeholder turns one line into. */
  function Apply(p: Placeholder, line: string): seq<string>
    requires p.Simple? ==> |p.key| > 0
  {
    match p
    case Simple(key, result) => [ReplaceAll(line, key, result)]
    case MultiLine(key, lines) => if line == key then lines else [line]
  }

  /** A line without the key is left as it is. */
  lemma {:induction false} ReplaceAllWithoutKey(s: string, key: string, result: string)
    requires |key| > 0 && !Contains(s, key)
    ensures ReplaceAll(s, key, result) == s
    decreases |s|
  {
    if |s| >= |key| {
      assert !OccursAt(s, key, 0);
      assert !Contains(s[1..], key) by {
        forall i | 0 <= i <= |s[1..]| ensures !OccursAt(s[1..], key, i) {
          assert !OccursAt(s, key, i + 1);
          if i + |key| <= |s[1..]| {
            assert s[1..][i..i + |key|] == s[i + 1..i + 1 + |key|];
          }
        }
      }
      ReplaceAllWithoutKey(s[1..], key, result);
    }
  }

  /** Each replaced occurrence changes the length by |result| - |key|. */
  lemma {:induction false} ReplaceAllLength(s: string, key: string, result: string)
    requires |key| > 0
    ensures |ReplaceAll(s, key, result)| == |s| + Replaced(s, key) * (|result| - |key|)
    decreases |s|
  {
    if |s| >= |key| {
      if s[..|key|] == key {
        var tail := s[|key|..];
        ReplaceAllLength(tail, key, result);
        assert ReplaceAll(s, key, result) == result + ReplaceAll(tail, key, result);
        assert Replaced(s, key) == 1 + Replaced(tail, key);
        OneMore(Replaced(tail, key), |result| - |key|);
      } else {
        ReplaceAllLength(s[1..], key, result);
        assert ReplaceAll(s, key, result) == [s[0]] + ReplaceAll(s[1..], key, result);
        assert Replaced(s, key) == Replaced(s[1..], key);
      }
    }
  }

  lemma OneMore(k: int, d: int)
    ensures (1 + k) * d == d + k * d
  {
  }

  /** Replacing the key by itself changes nothing. */
  lemma {:induction false} ReplaceAllByKey(s: string, key: string)
    requires |key| > 0
    ensures ReplaceAll(s, key, key) == s
    decreases |s|
  {
    if |s| >= |key| {
      if s[..|key|] == key {
        ReplaceAllByKey(s[|key|..], key);
        assert s == key + s[|key|..];
      } else {
        ReplaceAllByKey(s[1..], key);
        assert s == [s[0]] + s[1..];
      }
    }
  }

  /** A line that starts with the key has its first occurrence replaced, and the rest scanned after it. */
  lemma ReplaceAllLeading(key: string, rest: string, result: string)
    requires |key| > 0
    ensures ReplaceAll(key + rest, key, result) == result + ReplaceAll(rest, key, result)
  {
    assert (key + rest)[..|key|] == key;
    assert (key + rest)[|key|..] == rest;
  }

  /** One pass only: what the replacement creates is not replaced again. */
  lemma ReplaceAllSinglePass()
    ensures ReplaceAll("aabb", "ab", "") == "ab"
  {
    assert "aabb"[..2][1] != "ab"[1];
    assert "aabb"[1..] == "abb";
    assert "abb"[..2] == "ab";
    assert "abb"[2..] == "b";
  }

  /** `multiLine` expands exactly the line equal to its key. */
  lemma MultiLineExpands(key: string, lines: seq<string>, line: string)
    ensures Apply(MultiLine(key, lines), line) == (if line == key then lines else [line])
    ensures Contains(line, key) && line != key ==> Apply(MultiLine(key, lines), line) == [line]
  {
  }
}
