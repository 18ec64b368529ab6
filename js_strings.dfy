/** The string operations the file-input handler relies on: `split` on a
    one-character separator, taking the last piece (`pop()` or
    `parts[parts.length - 1]`), and `toLowerCase` on ASCII letters. */
module JsStrings {

  /** The last element of a non-empty sequence. */
  function Last<T>(parts: seq<T>): T
    requires |parts| > 0
  {
    parts[|parts| - 1]
  }

  /** `s.split(sep)`: the pieces of `s` between occurrences of `sep`.
      There is always at least one piece (`"".split(sep)` is `[""]`);
      the last piece is what follows the last separator. */
  function Split(s: string, sep: char): (parts: seq<string>)
    ensures |parts| >= 1
    ensures forall i :: 0 <= i < |parts| ==> sep !in parts[i]
    decreases |s|
  {
    var k := LastIndexOf(s, sep);
    if k < 0 then [s] else Split(s[..k], sep) + [s[k + 1..]]
  }

  /** `parts.join(sep)`: the inverse of `Split`. */
  function Join(parts: seq<string>, sep: char): string
    requires |parts| >= 1
    decreases |parts|
  {
    if |parts| == 1 then parts[0]
    else Join(parts[..|parts| - 1], sep) + [sep] + Last(parts)
  }

  /** Index of the last occurrence of `c` in `s`, or -1 when there is none. */
  function LastIndexOf(s: string, c: char): (k: int)
    ensures -1 <= k < |s|
    ensures k == -1 <==> c !in s
    ensures 0 <= k ==> s[k] == c && c !in s[k + 1..]
    decreases |s|
  {
    if |s| == 0 then -1
    else if s[|s| - 1] == c then |s| - 1
    else LastIndexOf(s[..|s| - 1], c)
  }

  /** `s.split(sep).pop()`: the last piece of `s` split on `sep`. */
  function LastSegment(s: string, sep: char): (r: string)
    ensures sep !in r
  {
    Last(Split(s, sep))
  }

  predicate IsAsciiUpper(c: char) {
    'A' <= c <= 'Z'
  }

  predicate IsAsciiLetter(c: char) {
    IsAsciiUpper(c) || 'a' <= c <= 'z'
  }

  /** `toLowerCase` on one character, for the ASCII letters. */
  function ToLowerChar(c: char): char {
    if IsAsciiUpper(c) then (c as int - 'A' as int + 'a' as int) as char else c
  }

  /** `s.toLowerCase()`, character by character. */
  function ToLower(s: string): string {
    seq(|s|, i requires 0 <= i < |s| => ToLowerChar(s[i]))
  }

  /** Joining the pieces of a split with the same separator gives back the string. */
  lemma {:induction false} JoinSplit(s: string, sep: char)
    ensures Join(Split(s, sep), sep) == s
    decreases |s|
  {
    var k := LastIndexOf(s, sep);
    if k >= 0 {
      var init := Split(s[..k], sep);
      JoinSplit(s[..k], sep);
      assert (init + [s[k + 1..]])[..|init|] == init;
      assert s == s[..k] + [sep] + s[k + 1..];
    }
  }

  /** Splitting pieces joined with a separator they do not contain gives the pieces back. */
  lemma {:induction false} SplitJoin(parts: seq<string>, sep: char)
    requires |parts| >= 1
    requires forall i :: 0 <= i < |parts| ==> sep !in parts[i]
    ensures Split(Join(parts, sep), sep) == parts
    decreases |parts|
  {
    var s := Join(parts, sep);
    if |parts| == 1 {
      assert LastIndexOf(s, sep) == -1;
    } else {
      var init := parts[..|parts| - 1];
      var front := Join(init, sep);
      assert s == front + [sep] + Last(parts);
      assert s[..|front|] == front && s[|front| + 1..] == Last(parts);
      LastIndexOfUnique(s, sep, |front|);
      assert Split(s, sep) == Split(front, sep) + [Last(parts)];
      assert forall i :: 0 <= i < |init| ==> init[i] == parts[i];
      SplitJoin(init, sep);
      InitThenLast(parts);
    }
  }

  /** A non-empty sequence is its front followed by its last element. */
  lemma InitThenLast<T>(s: seq<T>)
    requires |s| > 0
    ensures s[..|s| - 1] + [Last(s)] == s
  {
  }

  /** An occurrence of `c` with none after it is the last occurrence. */
  lemma LastIndexOfUnique(s: string, c: char, k: int)
    requires 0 <= k < |s| && s[k] == c && c !in s[k + 1..]
    ensures LastIndexOf(s, c) == k
  {
  }

  /** The last piece of a split is the text after the last separator,
      or the whole string when the separator does not occur. */
  lemma LastSegmentAfterLastSep(s: string, sep: char)
    ensures LastSegment(s, sep) == s[LastIndexOf(s, sep) + 1..]
  {
  }

  /** Lower-casing never moves a separator that is not a letter. */
  lemma {:induction false} ToLowerKeepsLastIndexOf(s: string, sep: char)
    requires !IsAsciiLetter(sep)
    ensures LastIndexOf(ToLower(s), sep) == LastIndexOf(s, sep)
    decreases |s|
  {
    if |s| > 0 {
      var s' := s[..|s| - 1];
      assert ToLower(s)[..|s| - 1] == ToLower(s');
      ToLowerKeepsLastIndexOf(s', sep);
    }
  }

  /** Taking the last piece and lower-casing commute when the separator is not a letter. */
  lemma ToLowerCommutesWithLastSegment(s: string, sep: char)
    requires !IsAsciiLetter(sep)
    ensures LastSegment(ToLower(s), sep) == ToLower(LastSegment(s, sep))
  {
    LastSegmentAfterLastSep(s, sep);
    LastSegmentAfterLastSep(ToLower(s), sep);
    ToLowerKeepsLastIndexOf(s, sep);
    var k := LastIndexOf(s, sep);
    assert ToLower(s)[k + 1..] == ToLower(s[k + 1..]);
  }

  /** Lower-casing twice is lower-casing once. */
  lemma ToLowerIdempotent(s: string)
    ensures ToLower(ToLower(s)) == ToLower(s)
  {
  }
}
