/** The parts of Go's `strings` and `unicode` packages the core calls.
    Case mapping is modelled for ASCII letters only; every other character
    maps to itself. */
module GoStrings {

  predicate HasPrefix(s: string, prefix: string) {
    |prefix| <= |s| && s[..|prefix|] == prefix
  }

  predicate HasSuffix(s: string, suffix: string) {
    |suffix| <= |s| && s[|s| - |suffix|..] == suffix
  }

  /** `sub` occurs in `s` starting at index `i`. */
  predicate OccursAt(s: string, sub: string, i: nat) {
    i + |sub| <= |s| && s[i..i + |sub|] == sub
  }

  /** strings.Contains */
  predicate Contains(s: string, sub: string) {
    exists i: nat | i <= |s| :: OccursAt(s, sub, i)
  }

  lemma ContainsTransitive(s: string, a: string, b: string)
    requires Contains(s, a) && Contains(a, b)
    ensures Contains(s, b)
  {
    var i: nat :| i <= |s| && OccursAt(s, a, i);
    var j: nat :| j <= |a| && OccursAt(a, b, j);
    forall k | 0 <= k < |b|
      ensures s[i + j + k] == b[k]
    {
      assert a[j + k] == b[k];
      assert s[i..i + |a|][j + k] == s[i + j + k];
    }
    assert OccursAt(s, b, i + j);
  }

  lemma PrefixContained(s: string, a: string, b: string)
    requires Contains(s, a) && HasPrefix(a, b)
    ensures Contains(s, b)
  {
    assert OccursAt(a, b, 0);
    ContainsTransitive(s, a, b);
  }

  /** A prefix of a prefix is a prefix. */
  lemma PrefixOfPrefix(s: string, a: string, b: string)
    requires HasPrefix(s, a + b)
    ensures HasPrefix(s, a)
  {
    assert s[..|a|] == (a + b)[..|a|];
  }

  /** unicode.ToLower, for ASCII letters. */
  function LowerChar(c: char): char {
    if 'A' <= c <= 'Z' then (c as int + 32) as char else c
  }

  /** unicode.ToTitle (= ToUpper for ASCII letters). */
  function TitleChar(c: char): char {
    if 'a' <= c <= 'z' then (c as int - 32) as char else c
  }

  /** strings.ToLower */
  function ToLower(s: string): (r: string)
    ensures |r| == |s|
    ensures forall i :: 0 <= i < |s| ==> r[i] == LowerChar(s[i])
  {
    if s == [] then [] else [LowerChar(s[0])] + ToLower(s[1..])
  }

  /** unicode.IsSpace */
  predicate IsSpace(c: char) {
    var n := c as int;
    (0x09 <= n <= 0x0D) || n == 0x20 || n == 0x85 || n == 0xA0 || n == 0x1680
    || (0x2000 <= n <= 0x200A) || n == 0x2028 || n == 0x2029 || n == 0x202F
    || n == 0x205F || n == 0x3000
  }

  /** strings.TrimSpace: drop leading and trailing white space. */
  function TrimLeft(s: string): (r: string)
    ensures |r| <= |s| && r == s[|s| - |r|..]
    ensures r == [] || !IsSpace(r[0])
  {
    if s != [] && IsSpace(s[0]) then TrimLeft(s[1..]) else s
  }

  function TrimRight(s: string): (r: string)
    ensures |r| <= |s| && r == s[..|r|]
    ensures r == [] || !IsSpace(r[|r| - 1])
  {
    if s != [] && IsSpace(s[|s| - 1]) then TrimRight(s[..|s| - 1]) else s
  }

  function TrimSpace(s: string): string {
    TrimRight(TrimLeft(s))
  }

  /** strings.TrimSuffix */
  function TrimSuffix(s: string, suffix: string): (r: string)
    ensures HasSuffix(s, suffix) ==> r + suffix == s
    ensures !HasSuffix(s, suffix) ==> r == s
  {
    if HasSuffix(s, suffix) then s[..|s| - |suffix|] else s
  }

  /** strings.ReplaceAll(s, target, repl) for one-character `target` and `repl`. */
  function ReplaceChar(s: string, target: char, repl: char): (r: string)
    ensures |r| == |s|
    ensures forall i :: 0 <= i < |s| ==> r[i] == (if s[i] == target then repl else s[i])
  {
    if s == [] then [] else [if s[0] == target then repl else s[0]] + ReplaceChar(s[1..], target, repl)
  }

  /** strings.Replace(s, target, repl, 1) for a one-character `target`: only the
      first occurrence is replaced. */
  function ReplaceFirst(s: string, target: char, repl: string): (r: string)
    ensures target !in s ==> r == s
  {
    if s == [] then []
    else if s[0] == target then repl + s[1..]
    else [s[0]] + ReplaceFirst(s[1..], target, repl)
  }

  /** The word-boundary test of strings.Title: ASCII letters, digits and
      '_' continue a word, other ASCII characters end it; beyond ASCII,
      white space ends a word and everything else (letters, digits, marks)
      continues it. */
  predicate IsSeparator(c: char) {
    if c as int <= 0x7F then
      !(('0' <= c <= '9') || ('a' <= c <= 'z') || ('A' <= c <= 'Z') || c == '_')
    else IsSpace(c)
  }

  function TitleFrom(prev: char, s: string): (r: string)
    ensures |r| == |s|
    decreases s
  {
    if s == [] then []
    else [if IsSeparator(prev) then TitleChar(s[0]) else s[0]] + TitleFrom(s[0], s[1..])
  }

  /** strings.Title: upper-case the first letter of every word. */
  function Title(s: string): string {
    TitleFrom(' ', s)
  }
}
