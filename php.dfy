/**
 * The few PHP primitives the feed pipeline leans on, written out with the
 * byte-level behaviour PHP gives them. A `char` stands for one byte of a PHP
 * string, so `|s|` is what `strlen` reports.
 */
module Php {

  datatype Option<+T> = None | Some(value: T) {
    function GetOr(default: T): T {
      match this
      case Some(v) => v
      case None => default
    }
  }

  /** PHP's `empty()` on a string: the empty string and "0" are both falsy. */
  predicate IsEmpty(s: string) {
    s == "" || s == "0"
  }

  /** The characters `trim()` strips by default: " \t\n\r\0\x0B". */
  predicate IsTrimChar(c: char) {
    c == ' ' || c == '\t' || c == '\n' || c == '\r' || c == '\0' || c as int == 11
  }

  /** The characters PCRE's `\s` matches: tab, newline, vertical tab, form feed, carriage return, space. */
  predicate IsSpace(c: char) {
    c == ' ' || ('\t' <= c <= '\r')
  }

  /** Number of trim characters at the front of `s`. */
  function LeadingTrim(s: string): (k: nat)
    ensures k <= |s|
    ensures forall j :: 0 <= j < k ==> IsTrimChar(s[j])
    ensures k < |s| ==> !IsTrimChar(s[k])
  {
    if s != [] && IsTrimChar(s[0]) then 1 + LeadingTrim(s[1..]) else 0
  }

  /** Number of trim characters at the back of `s`. */
  function TrailingTrim(s: string): (k: nat)
    ensures k <= |s|
    ensures forall j :: |s| - k <= j < |s| ==> IsTrimChar(s[j])
    ensures k < |s| ==> !IsTrimChar(s[|s| - k - 1])
  {
    if s != [] && IsTrimChar(s[|s| - 1]) then 1 + TrailingTrim(s[..|s| - 1]) else 0
  }

  /**
   * Where `trim()` cuts: everything before `.0` and from `.1` on is a trim
   * character, and the kept part neither starts nor ends with one.
   */
  function TrimBounds(s: string): (b: (nat, nat))
    ensures b.0 <= b.1 <= |s|
    ensures forall j :: 0 <= j < b.0 ==> IsTrimChar(s[j])
    ensures forall j :: b.1 <= j < |s| ==> IsTrimChar(s[j])
    ensures b.0 < b.1 ==> !IsTrimChar(s[b.0]) && !IsTrimChar(s[b.1 - 1])
  {
    var a := LeadingTrim(s);
    var rest := s[a..];
    var k := TrailingTrim(rest);
    assert forall j :: |rest| - k <= j < |rest| ==> rest[j] == s[a + j];
    (a, a + |rest| - k)
  }

  /** `trim()`: the longest runs of trim characters are cut from both ends. */
  function Trim(s: string): (r: string)
    ensures |r| <= |s|
    ensures r != [] ==> !IsTrimChar(r[0]) && !IsTrimChar(r[|r| - 1])
  {
    var b := TrimBounds(s);
    s[b.0..b.1]
  }

  /**
   * `trim()` removes trim characters from the two ends and nothing else: its
   * result is a slice of the input, and everything outside the slice is a
   * trim character.
   */
  lemma TrimCutsOnlyEnds(s: string)
    ensures exists a, b ::
              && 0 <= a <= b <= |s| && Trim(s) == s[a..b]
              && forall j :: 0 <= j < a || b <= j < |s| ==> IsTrimChar(s[j])
  {
    var b := TrimBounds(s);
    assert Trim(s) == s[b.0..b.1];
  }

  /** A string whose first and last characters are not trim characters is its own trim. */
  lemma TrimIdentity(s: string)
    requires s != [] ==> !IsTrimChar(s[0]) && !IsTrimChar(s[|s| - 1])
    ensures Trim(s) == s
  {
    if s != [] {
      assert LeadingTrim(s) == 0;
      assert TrailingTrim(s[0..]) == 0 by { assert s[0..] == s; }
    }
  }

  /** ASCII lower-casing, as PCRE's `/i` and `stripos` fold letters. */
  function Lower(c: char): (r: char)
    ensures 'A' <= c <= 'Z' ==> r as int == c as int + 32
    ensures !('A' <= c <= 'Z') ==> r == c
  {
    if 'A' <= c <= 'Z' then (c as int + 32) as char else c
  }

  predicate EqualsIgnoreCase(a: string, b: string) {
    |a| == |b| && forall k :: 0 <= k < |a| ==> Lower(a[k]) == Lower(b[k])
  }

  /** `needle` occurs in `haystack` at position `i`, ignoring ASCII case. */
  predicate OccursAt(haystack: string, needle: string, i: int) {
    0 <= i <= |haystack| - |needle| && EqualsIgnoreCase(haystack[i..i + |needle|], needle)
  }

  /** `stripos(haystack, needle) !== false` for a non-empty needle. */
  predicate ContainsIgnoreCase(haystack: string, needle: string) {
    exists i | 0 <= i <= |haystack| - |needle| :: OccursAt(haystack, needle, i)
  }

  /** `explode(sep, s)`: the pieces between separators, always at least one. */
  function Split(s: string, sep: char): (r: seq<string>)
    ensures |r| >= 1
    ensures forall k :: 0 <= k < |r| ==> sep !in r[k]
  {
    if s == [] then [""]
    else
      var rest := Split(s[1..], sep);
      if s[0] == sep then [""] + rest
      else [[s[0]] + rest[0]] + rest[1..]
  }

  /** `implode(sep, pieces)`, the inverse of `Split`. */
  function Join(pieces: seq<string>, sep: char): string
    requires |pieces| >= 1
  {
    if |pieces| == 1 then pieces[0] else pieces[0] + [sep] + Join(pieces[1..], sep)
  }

  /** Splitting on a separator and joining back with it gives the original text. */
  lemma {:induction false} SplitJoin(s: string, sep: char)
    ensures Join(Split(s, sep), sep) == s
  {
    if s != [] {
      var rest := Split(s[1..], sep);
      SplitJoin(s[1..], sep);
      if s[0] == sep {
        assert Split(s, sep) == [""] + rest;
      } else {
        var r := Split(s, sep);
        assert r == [[s[0]] + rest[0]] + rest[1..];
        if |rest| == 1 {
          assert Join(r, sep) == [s[0]] + rest[0];
        } else {
          assert r[1..] == rest[1..];
          assert Join(r, sep) == [s[0]] + rest[0] + [sep] + Join(rest[1..], sep);
        }
      }
    }
  }

  /** Text with no separator in it splits into itself alone. */
  lemma {:induction false} SplitWithoutSeparator(s: string, sep: char)
    requires sep !in s
    ensures Split(s, sep) == [s]
  {
    if s != [] {
      assert s[0] != sep && sep !in s[1..];
      SplitWithoutSeparator(s[1..], sep);
      assert [s[0]] + s[1..] == s;
    }
  }

  /**
   * `array_slice(s, 0, n)`: a non-negative length keeps at most `n` leading
   * elements; a negative length leaves `-n` elements off the end.
   */
  function ArraySlice<T>(s: seq<T>, n: int): (r: seq<T>)
    ensures n >= 0 ==> |r| == if n < |s| then n else |s|
    ensures n < 0 ==> |r| == if |s| + n > 0 then |s| + n else 0
    ensures r == s[..|r|]
  {
    if n >= 0 then (if n < |s| then s[..n] else s)
    else (if |s| + n > 0 then s[..|s| + n] else [])
  }

  /** Concatenation is associative. */
  lemma AppendAssociates<T>(a: seq<T>, b: seq<T>, c: seq<T>)
    ensures a + (b + c) == (a + b) + c
  {
  }
}
