/**
  The few `java.lang.String` operations the bridge relies on, over strings
  of Unicode scalar values: `replace` with a literal target, ASCII
  `toLowerCase`, and a field splitter used to read a routing key back.
 */
module JavaStrings {

  /**
    `s.replace(target, replacement)`: scans left to right and replaces each
    non-overlapping occurrence of `target`.
   */
  function ReplaceAll(s: string, target: string, replacement: string): string
    requires |target| > 0
    decreases |s|
  {
    if |s| < |target| then s
    else if s[..|target|] == target then replacement + ReplaceAll(s[|target|..], target, replacement)
    else [s[0]] + ReplaceAll(s[1..], target, replacement)
  }

  /** A string that does not start with the target keeps its first character. */
  lemma ReplaceSkips(s: string, target: string, replacement: string)
    requires |target| > 0 && |s| > 0
    requires s[0] != target[0] || !(target <= s)
    ensures ReplaceAll(s, target, replacement) == [s[0]] + ReplaceAll(s[1..], target, replacement)
  {
    if |s| >= |target| {
      assert s[..|target|] != target by {
        if s[0] != target[0] { assert s[..|target|][0] != target[0]; }
      }
    }
  }

  /** A string without the target's first character is left unchanged. */
  lemma {:induction false} ReplaceAbsent(s: string, target: string, replacement: string)
    requires |target| > 0 && target[0] !in s
    ensures ReplaceAll(s, target, replacement) == s
    decreases |s|
  {
    if |s| >= |target| {
      ReplaceSkips(s, target, replacement);
      ReplaceAbsent(s[1..], target, replacement);
      assert [s[0]] + s[1..] == s;
    }
  }

  /** A string that starts with the target has it replaced at the front. */
  lemma ReplaceAtFront(t: string, target: string, replacement: string)
    requires |target| > 0
    ensures ReplaceAll(target + t, target, replacement) == replacement + ReplaceAll(t, target, replacement)
  {
    var s := target + t;
    assert s[..|target|] == target && s[|target|..] == t;
  }

  function AsciiLowerChar(c: char): (l: char)
    ensures 'A' <= c <= 'Z' ==> l as int == c as int + 32
    ensures !('A' <= c <= 'Z') ==> l == c
  {
    if 'A' <= c <= 'Z' then (c as int + 32) as char else c
  }

  /** `s.toLowerCase(Locale.ROOT)` restricted to the ASCII letters. */
  function AsciiLower(s: string): (r: string)
    ensures |r| == |s|
    ensures forall i :: 0 <= i < |s| ==> r[i] == AsciiLowerChar(s[i])
  {
    if s == [] then [] else [AsciiLowerChar(s[0])] + AsciiLower(s[1..])
  }

  /** Lower-casing works character by character, so it distributes over concatenation. */
  lemma LowerConcat(x: string, y: string)
    ensures AsciiLower(x + y) == AsciiLower(x) + AsciiLower(y)
  {
    var l, r := AsciiLower(x + y), AsciiLower(x) + AsciiLower(y);
    assert |l| == |r|;
    forall i | 0 <= i < |l| ensures l[i] == r[i] {
      if i < |x| { assert (x + y)[i] == x[i]; } else { assert (x + y)[i] == y[i - |x|]; }
    }
  }

  /** Lower-casing keeps out any character that is not a letter. */
  lemma LowerKeepsOut(s: string, c: char)
    requires !('A' <= c <= 'Z') && !('a' <= c <= 'z') && c !in s
    ensures c !in AsciiLower(s)
  {
    forall i | 0 <= i < |s| ensures AsciiLower(s)[i] != c {
      assert s[i] != c;
    }
  }

  /**
    The fields of `s` between separators, keeping empty fields: the
    reference reading of a separator-joined string. `Join` puts the fields
    back together.
   */
  function Fields(s: string, sep: char): (parts: seq<string>)
    ensures |parts| >= 1
    ensures Join(parts, sep) == s
    decreases |s|
  {
    if s == [] then [[]]
    else
      var rest := Fields(s[1..], sep);
      if s[0] == sep then [[]] + rest
      else [[s[0]] + rest[0]] + rest[1..]
  }

  function Join(parts: seq<string>, sep: char): string
    requires |parts| >= 1
  {
    if |parts| == 1 then parts[0] else parts[0] + [sep] + Join(parts[1..], sep)
  }

  /** A string without the separator is one field. */
  lemma {:induction false} FieldsOfPlain(a: string, sep: char)
    requires sep !in a
    ensures Fields(a, sep) == [a]
  {
    if a != [] {
      FieldsOfPlain(a[1..], sep);
      assert [a[0]] + a[1..] == a;
    }
  }

  /** A separator-free first field is split off exactly at the first separator. */
  lemma {:induction false} FieldsOfJoined(a: string, sep: char, rest: string)
    requires sep !in a
    ensures Fields(a + [sep] + rest, sep) == [a] + Fields(rest, sep)
  {
    if a == [] {
      assert a + [sep] + rest == [sep] + rest;
      assert ([sep] + rest)[1..] == rest;
    } else {
      FieldsOfJoined(a[1..], sep, rest);
      assert (a + [sep] + rest)[1..] == a[1..] + [sep] + rest;
      assert [a[0]] + a[1..] == a;
    }
  }

  /** Splitting a join of separator-free fields gives the fields back. */
  lemma {:induction false} FieldsOfJoin(parts: seq<string>, sep: char)
    requires |parts| >= 1
    requires forall i :: 0 <= i < |parts| ==> sep !in parts[i]
    ensures Fields(Join(parts, sep), sep) == parts
  {
    if |parts| == 1 {
      FieldsOfPlain(parts[0], sep);
    } else {
      FieldsOfJoin(parts[1..], sep);
      FieldsOfJoined(parts[0], sep, Join(parts[1..], sep));
      assert [parts[0]] + parts[1..] == parts;
    }
  }
}
