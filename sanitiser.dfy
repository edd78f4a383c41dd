/**
 * The description sanitiser: photo-credit boilerplate and the configured
 * custom texts are cut out, whitespace runs collapse to one space, and the
 * result is trimmed.
 */
module Sanitiser {
  import opened Php
  import opened Feed

  /**
   * The two kinds of pattern the sanitiser removes. `Credit(lead, atLeastOne)`
   * is `/lead[^\.]+\./i` (or `[^\.]*` when `atLeastOne` is false): the lead
   * text in any case, a run of characters other than '.', and the '.'.
   * `Literal(text)` is the case-insensitive pattern built from a preg_quote'd text.
   */
  datatype Pattern = Credit(lead: string, atLeastOne: bool) | Literal(text: string)

  const PhotoBy: string := "Photo by"
  const PhotoColon: string := "Photo: "
  const CreditColon: string := "Credit: "
  const PhotoCredit: string := "Photo credit: "
  const ViaGetty: string := "via Getty Images"
  const ApPhoto: string := "AP Photo"

  /** The six general photo-credit patterns, in the order they are applied. */
  const FixedPatterns: seq<Pattern> := [
    Credit(PhotoBy, true),
    Credit(PhotoColon, true),
    Credit(CreditColon, true),
    Credit(PhotoCredit, true),
    Credit(ViaGetty, false),
    Credit(ApPhoto, false)
  ]

  /** Index of the first '.' in `s`, or `|s|` when there is none. */
  function DotIndex(s: string): (k: nat)
    ensures k <= |s|
    ensures forall j :: 0 <= j < k ==> s[j] != '.'
    ensures k < |s| ==> s[k] == '.'
  {
    if s == [] || s[0] == '.' then 0 else 1 + DotIndex(s[1..])
  }

  /** Length of the match of `p` that starts at the front of `s`, or 0 when the pattern does not match there. */
  function MatchLen(p: Pattern, s: string): (n: nat)
    ensures n <= |s|
  {
    match p
    case Literal(t) =>
      if t != [] && OccursAt(s, t, 0) then |t| else 0
    case Credit(lead, atLeastOne) =>
      if lead != [] && OccursAt(s, lead, 0) then
        var d := DotIndex(s[|lead|..]);
        if d < |s| - |lead| && (d > 0 || !atLeastOne) then |lead| + d + 1 else 0
      else 0
  }

  /**
   * What a pattern matches at the front of a text. No pattern matches the
   * empty string. A literal matches when the text starts with it, ignoring
   * case. A credit pattern matches when the text starts with its lead,
   * ignoring case, and a '.' follows somewhere after the lead (not straight
   * after it when at least one other character is required); the match runs
   * up to and including that first '.'.
   */
  lemma MatchLenMeaning(p: Pattern, s: string)
    ensures var n := MatchLen(p, s);
      && (p.Literal? ==> (n > 0 <==> p.text != [] && OccursAt(s, p.text, 0)))
      && (p.Literal? && n > 0 ==> n == |p.text|)
      && (p.Credit? ==>
            (n > 0 <==> && p.lead != [] && OccursAt(s, p.lead, 0) && '.' in s[|p.lead|..]
                        && (p.atLeastOne ==> s[|p.lead|] != '.')))
      && (p.Credit? && n > 0 ==>
            && |p.lead| < n && s[n - 1] == '.'
            && (forall j :: |p.lead| <= j < n - 1 ==> s[j] != '.')
            && (p.atLeastOne ==> n >= |p.lead| + 2))
  {
  }

  /** A matcher gives the length of the match at the front of a text, 0 for none. */
  type Matcher = m: string -> nat | forall x :: m(x) <= |x| witness (x: string) => 0

  function MatcherOf(p: Pattern): Matcher {
    x => MatchLen(p, x)
  }

  /** Length of the match that starts at position `i` of `s`, 0 for none. */
  function MatchAt(m: Matcher, s: string, i: nat): (n: nat)
    requires i <= |s|
    ensures n <= |s| - i
  {
    m(s[i..])
  }

  /**
   * `preg_replace(pattern, '', s)` from position `i` on: scanning from the
   * left, each match is cut out and the scan resumes after it; where nothing
   * matches, the character stays.
   */
  function RemoveFrom(m: Matcher, s: string, i: nat): (r: string)
    requires i <= |s|
    ensures |r| <= |s| - i
    decreases |s| - i
  {
    if i == |s| then []
    else
      var n := MatchAt(m, s, i);
      if n > 0 then RemoveFrom(m, s, i + n) else [s[i]] + RemoveFrom(m, s, i + 1)
  }

  /** `preg_replace(pattern, '', s)`. */
  function RemoveAll(m: Matcher, s: string): string {
    RemoveFrom(m, s, 0)
  }

  /** Text in which the pattern matches nowhere comes out of the removal unchanged. */
  lemma {:induction false} RemoveFromWithoutMatch(m: Matcher, s: string, k: nat)
    requires k <= |s|
    requires forall j :: k <= j < |s| ==> MatchAt(m, s, j) == 0
    ensures RemoveFrom(m, s, k) == s[k..]
    decreases |s| - k
  {
    if k < |s| {
      RemoveFromWithoutMatch(m, s, k + 1);
      assert s[k..] == [s[k]] + s[k + 1..];
    }
  }

  /**
   * The leftmost match is the first thing removed: everything before it is
   * kept, the match is dropped, and removal carries on after its end.
   */
  lemma {:induction false} RemoveFromLeftmost(m: Matcher, s: string, k: nat, i: nat)
    requires k <= i < |s| && MatchAt(m, s, i) > 0
    requires forall j :: k <= j < i ==> MatchAt(m, s, j) == 0
    ensures RemoveFrom(m, s, k) == s[k..i] + RemoveFrom(m, s, i + MatchAt(m, s, i))
    decreases i - k
  {
    if k < i {
      assert MatchAt(m, s, k) == 0;
      assert RemoveFrom(m, s, k) == [s[k]] + RemoveFrom(m, s, k + 1);
      RemoveFromLeftmost(m, s, k + 1, i);
      var after := RemoveFrom(m, s, i + MatchAt(m, s, i));
      AppendAssociates([s[k]], s[k + 1..i], after);
      assert s[k..i] == [s[k]] + s[k + 1..i];
    }
  }

  /** No two neighbouring characters of `s` are both whitespace. */
  ghost predicate NoAdjacentSpaces(s: string) {
    forall i, j :: 0 <= i < j < |s| && j == i + 1 ==> !(IsSpace(s[i]) && IsSpace(s[j]))
  }

  /** Length of the run of `\s` characters at the front of `s`. */
  function SpaceRun(s: string): (k: nat)
    ensures k <= |s|
    ensures forall j :: 0 <= j < k ==> IsSpace(s[j])
    ensures k < |s| ==> !IsSpace(s[k])
  {
    if s != [] && IsSpace(s[0]) then 1 + SpaceRun(s[1..]) else 0
  }

  /**
   * `preg_replace('/\s{2,}/', ' ', s)`: each run of two or more whitespace
   * characters becomes one space; a lone whitespace character is kept as it is.
   */
  function Collapse(s: string): (r: string)
    ensures NoAdjacentSpaces(r)
    ensures s != [] ==> r != [] && (IsSpace(r[0]) <==> IsSpace(s[0]))
    ensures |r| <= |s|
    decreases |s|
  {
    if s == [] then []
    else if |s| >= 2 && IsSpace(s[0]) && IsSpace(s[1]) then " " + Collapse(s[SpaceRun(s)..])
    else [s[0]] + Collapse(s[1..])
  }

  /** The characters of `s` that are not whitespace, in order. */
  function NonSpace(s: string): string {
    if s == [] then [] else (if IsSpace(s[0]) then [] else [s[0]]) + NonSpace(s[1..])
  }

  lemma {:induction false} NonSpaceAppend(a: string, b: string)
    ensures NonSpace(a + b) == NonSpace(a) + NonSpace(b)
  {
    if a == [] {
      assert a + b == b;
    } else {
      assert (a + b)[0] == a[0];
      assert (a + b)[1..] == a[1..] + b;
      NonSpaceAppend(a[1..], b);
    }
  }

  lemma {:induction false} NonSpaceOfSpaces(s: string)
    requires forall j :: 0 <= j < |s| ==> IsSpace(s[j])
    ensures NonSpace(s) == []
  {
    if s != [] {
      NonSpaceOfSpaces(s[1..]);
    }
  }

  /** Collapsing whitespace changes only whitespace: the other characters stay, in order. */
  lemma {:induction false} CollapseKeepsText(s: string)
    ensures NonSpace(Collapse(s)) == NonSpace(s)
  {
    if s != [] {
      if |s| >= 2 && IsSpace(s[0]) && IsSpace(s[1]) {
        var k := SpaceRun(s);
        CollapseKeepsText(s[k..]);
        assert s == s[..k] + s[k..];
        NonSpaceAppend(s[..k], s[k..]);
        NonSpaceOfSpaces(s[..k]);
        NonSpaceAppend(" ", Collapse(s[k..]));
      } else {
        CollapseKeepsText(s[1..]);
        NonSpaceAppend([s[0]], Collapse(s[1..]));
        NonSpaceAppend([s[0]], s[1..]);
        assert [s[0]] + s[1..] == s;
      }
    }
  }

  /** Text without two adjacent whitespace characters is left as it is by `Collapse`. */
  lemma {:induction false} CollapseFixesSpacedText(s: string)
    requires NoAdjacentSpaces(s)
    ensures Collapse(s) == s
  {
    if s != [] {
      CollapseFixesSpacedText(s[1..]);
      assert [s[0]] + s[1..] == s;
    }
  }

  /** A whitespace run followed by the end or by a non-space character is as long as the run. */
  lemma {:induction false} SpaceRunOfRun(w: string, b: string)
    requires forall j :: 0 <= j < |w| ==> IsSpace(w[j])
    requires b == [] || !IsSpace(b[0])
    ensures SpaceRun(w + b) == |w|
  {
    if w == [] {
      assert w + b == b;
    } else {
      SpaceRunOfRun(w[1..], b);
      assert (w + b)[1..] == w[1..] + b;
    }
  }

  /** The leading whitespace run of a text that holds a non-space character does not reach past it. */
  lemma {:induction false} SpaceRunAppend(a: string, t: string)
    requires SpaceRun(a) < |a|
    ensures SpaceRun(a + t) == SpaceRun(a)
  {
    if IsSpace(a[0]) {
      assert (a + t)[1..] == a[1..] + t;
      SpaceRunAppend(a[1..], t);
    }
  }

  /**
   * A maximal whitespace run at the front becomes one space when it has two
   * or more characters and stays as it is otherwise; the rest is collapsed on
   * its own.
   */
  lemma CollapseLeadingRun(w: string, b: string)
    requires w != [] && forall j :: 0 <= j < |w| ==> IsSpace(w[j])
    requires b == [] || !IsSpace(b[0])
    ensures Collapse(w + b) == (if |w| >= 2 then " " else w) + Collapse(b)
  {
    var s := w + b;
    SpaceRunOfRun(w, b);
    assert s[|w|..] == b;
    if |w| < 2 {
      assert s[1..] == b;
      assert w == [s[0]];
    }
  }

  /**
   * A non-space character at the front is kept, and the rest is collapsed on
   * its own. With `CollapseLeadingRun` this fixes `Collapse` on every text,
   * which is a sequence of non-space characters and maximal whitespace runs.
   */
  lemma CollapseKeepsNonSpace(c: char, t: string)
    requires !IsSpace(c)
    ensures Collapse([c] + t) == [c] + Collapse(t)
  {
    assert ([c] + t)[1..] == t;
  }

  /**
   * A maximal whitespace run in the middle of a text collapses on its own:
   * the text before it and the text after it are collapsed separately, and
   * the run becomes one space when it has two or more characters.
   */
  lemma {:induction false} CollapseAroundRun(a: string, w: string, b: string)
    requires a == [] || !IsSpace(a[|a| - 1])
    requires w != [] && forall j :: 0 <= j < |w| ==> IsSpace(w[j])
    requires b == [] || !IsSpace(b[0])
    ensures Collapse(a + w + b) == Collapse(a) + (if |w| >= 2 then " " else w) + Collapse(b)
    decreases |a|, 1
  {
    if a == [] {
      CollapseLeadingRun(w, b);
      AppendAssociates(a, w, b);
      assert a + (w + b) == w + b;
    } else if !IsSpace(a[0]) {
      CollapseAroundRunAfterChar(a, w, b);
    } else {
      CollapseAroundRunAfterSpaces(a, w, b);
    }
  }

  /** `CollapseAroundRun` when the text before the run starts with a non-space character. */
  lemma {:induction false} CollapseAroundRunAfterChar(a: string, w: string, b: string)
    requires a != [] && !IsSpace(a[0]) && !IsSpace(a[|a| - 1])
    requires w != [] && forall j :: 0 <= j < |w| ==> IsSpace(w[j])
    requires b == [] || !IsSpace(b[0])
    ensures Collapse(a + w + b) == Collapse(a) + (if |w| >= 2 then " " else w) + Collapse(b)
    decreases |a|, 0
  {
    var mid := if |w| >= 2 then " " else w;
    var rest := w + b;
    var t := a[1..];
    AppendAssociates(a, w, b);
    assert a == [a[0]] + t;
    AppendAssociates([a[0]], t, rest);
    CollapseKeepsNonSpace(a[0], t + rest);
    CollapseKeepsNonSpace(a[0], t);
    assert t == [] || t[|t| - 1] == a[|a| - 1];
    CollapseAroundRun(t, w, b);
    AppendAssociates(t, w, b);
    AppendAssociates([a[0]], Collapse(t), mid + Collapse(b));
    AppendAssociates(Collapse(t), mid, Collapse(b));
    AppendAssociates([a[0]] + Collapse(t), mid, Collapse(b));
  }

  /** `CollapseAroundRun` when the text before the run starts with whitespace. */
  lemma {:induction false} CollapseAroundRunAfterSpaces(a: string, w: string, b: string)
    requires a != [] && IsSpace(a[0]) && !IsSpace(a[|a| - 1])
    requires w != [] && forall j :: 0 <= j < |w| ==> IsSpace(w[j])
    requires b == [] || !IsSpace(b[0])
    ensures Collapse(a + w + b) == Collapse(a) + (if |w| >= 2 then " " else w) + Collapse(b)
    decreases |a|, 0
  {
    var mid := if |w| >= 2 then " " else w;
    var rest := w + b;
    AppendAssociates(a, w, b);
    var k := SpaceRun(a);
    assert k < |a| by {
      assert !IsSpace(a[|a| - 1]);
    }
    var v, u := a[..k], a[k..];
    var vm := if |v| >= 2 then " " else v;
    assert a == v + u;
    AppendAssociates(v, u, rest);
    CollapseLeadingRun(v, u + rest);
    CollapseLeadingRun(v, u);
    assert u[|u| - 1] == a[|a| - 1];
    CollapseAroundRun(u, w, b);
    AppendAssociates(u, w, b);
    AppendAssociates(vm, Collapse(u), mid + Collapse(b));
    AppendAssociates(Collapse(u), mid, Collapse(b));
    AppendAssociates(vm + Collapse(u), mid, Collapse(b));
  }

  /** A run of two or more whitespace characters collapses to one space. */
  lemma CollapseRun(w: string)
    requires |w| >= 2 && forall j :: 0 <= j < |w| ==> IsSpace(w[j])
    ensures Collapse(w) == " "
  {
    CollapseLeadingRun(w, []);
    assert w + [] == w;
  }

  /** The literal pattern, if any, that one custom-filter line contributes. */
  function LinePattern(line: string): seq<Pattern> {
    var t := Trim(line);
    if IsEmpty(t) then [] else [Literal(t)]
  }

  /** The patterns `f` gives for each line, line after line. */
  function PerLine(lines: seq<string>, f: string -> seq<Pattern>): seq<Pattern> {
    if lines == [] then []
    else PerLine(lines[..|lines| - 1], f) + f(lines[|lines| - 1])
  }

  /** One case-insensitive literal per custom-filter line whose trimmed text is not empty(). */
  function CustomPatterns(lines: seq<string>): seq<Pattern> {
    PerLine(lines, LinePattern)
  }

  /** A pattern is produced line by line exactly when one of the lines produces it. */
  lemma {:induction false} PerLineMembers(lines: seq<string>, f: string -> seq<Pattern>, p: Pattern)
    ensures p in PerLine(lines, f) <==> exists k :: 0 <= k < |lines| && p in f(lines[k])
  {
    if lines != [] {
      var n := |lines| - 1;
      var init := lines[..n];
      PerLineMembers(init, f, p);
      assert forall k :: 0 <= k < n ==> init[k] == lines[k];
      if p in PerLine(lines, f) && p !in PerLine(init, f) {
        assert p in f(lines[n]);
      }
    }
  }

  /**
   * Blank lines contribute nothing; every other line contributes exactly its
   * trimmed text, as a literal.
   */
  lemma CustomPatternsExactly(lines: seq<string>, p: Pattern)
    ensures p in CustomPatterns(lines) <==>
      exists l :: l in lines && !IsEmpty(Trim(l)) && p == Literal(Trim(l))
  {
    PerLineMembers(lines, LinePattern, p);
    if p in CustomPatterns(lines) {
      var k :| 0 <= k < |lines| && p in LinePattern(lines[k]);
      assert lines[k] in lines;
    }
    if exists l :: l in lines && !IsEmpty(Trim(l)) && p == Literal(Trim(l)) {
      var l :| l in lines && !IsEmpty(Trim(l)) && p == Literal(Trim(l));
      var k :| 0 <= k < |lines| && lines[k] == l;
      assert p in LinePattern(lines[k]);
    }
  }

  /** The custom-filter lines: the setting split on newlines, or none when the setting is absent. */
  function CustomLines(settings: Settings): seq<string> {
    match settings.customFilters
    case None => []
    case Some(text) => Split(text, '\n')
  }

  /** The full pattern list: the six fixed ones first, then the custom literals in line order. */
  function Patterns(settings: Settings): seq<Pattern> {
    FixedPatterns + CustomPatterns(CustomLines(settings))
  }

  /** `s` after removing each pattern of `ps` in turn, each pass working on the previous one's output. */
  function ApplyPatterns(ps: seq<Pattern>, s: string): (r: string)
    ensures |r| <= |s|
  {
    if ps == [] then s else RemoveAll(MatcherOf(ps[|ps| - 1]), ApplyPatterns(ps[..|ps| - 1], s))
  }

  /** Removing one more pattern is one more pass over the previous output. */
  lemma ApplyPatternsSnoc(ps: seq<Pattern>, p: Pattern, s: string)
    ensures ApplyPatterns(ps + [p], s) == RemoveAll(MatcherOf(p), ApplyPatterns(ps, s))
  {
    var qs := ps + [p];
    assert qs[..|qs| - 1] == ps;
    assert qs[|qs| - 1] == p;
    assert ApplyPatterns(qs, s) == RemoveAll(MatcherOf(qs[|qs| - 1]), ApplyPatterns(qs[..|qs| - 1], s));
  }

  /**
   * The passes run in list order: removing `ps1 + ps2` is removing `ps1`, then
   * removing `ps2` from what is left, so the fixed patterns all run before any
   * custom one.
   */
  lemma {:induction false} ApplyPatternsCompose(ps1: seq<Pattern>, ps2: seq<Pattern>, s: string)
    ensures ApplyPatterns(ps1 + ps2, s) == ApplyPatterns(ps2, ApplyPatterns(ps1, s))
    decreases |ps2|
  {
    if ps2 == [] {
      assert ps1 + ps2 == ps1;
    } else {
      var init, last := ps2[..|ps2| - 1], ps2[|ps2| - 1];
      assert ps2 == init + [last];
      AppendAssociates(ps1, init, [last]);
      ApplyPatternsSnoc(ps1 + init, last, s);
      ApplyPatternsCompose(ps1, init, s);
      ApplyPatternsSnoc(init, last, ApplyPatterns(ps1, s));
    }
  }

  lemma SliceKeepsSpacing(s: string, a: nat, b: nat)
    requires a <= b <= |s| && NoAdjacentSpaces(s)
    ensures NoAdjacentSpaces(s[a..b])
  {
    assert forall i :: 0 <= i < b - a ==> s[a..b][i] == s[a + i];
  }

  /**
   * The sanitised description: no two adjacent whitespace characters, and no
   * trim character at either end.
   */
  function SanitisedDescription(description: string, settings: Settings): (r: string)
    ensures NoAdjacentSpaces(r)
    ensures r != [] ==> !IsTrimChar(r[0]) && !IsTrimChar(r[|r| - 1])
    ensures |r| <= |description|
  {
    var collapsed := Collapse(ApplyPatterns(Patterns(settings), description));
    var b := TrimBounds(collapsed);
    SliceKeepsSpacing(collapsed, b.0, b.1);
    Trim(collapsed)
  }

  /**
   * The first half of filter_description: the six fixed patterns, then one
   * literal per custom-filter line whose trimmed text is not empty().
   */
  method BuildPatterns(settings: Settings) returns (patterns: seq<Pattern>)
    ensures patterns == Patterns(settings)
    ensures patterns[..|FixedPatterns|] == FixedPatterns
  {
    var lines := CustomLines(settings);
    patterns := FixedPatterns;
    for i := 0 to |lines|
      invariant patterns == FixedPatterns + CustomPatterns(lines[..i])
    {
      var t := Trim(lines[i]);
      assert CustomPatterns(lines[..i + 1]) == CustomPatterns(lines[..i]) + LinePattern(lines[i]) by {
        assert lines[..i + 1][..i] == lines[..i];
      }
      if !IsEmpty(t) {
        assert LinePattern(lines[i]) == [Literal(t)];
        assert patterns + [Literal(t)] == FixedPatterns + (CustomPatterns(lines[..i]) + [Literal(t)]);
        patterns := patterns + [Literal(t)];
      } else {
        assert LinePattern(lines[i]) == [];
        assert CustomPatterns(lines[..i]) + [] == CustomPatterns(lines[..i]);
      }
    }
    assert lines[..|lines|] == lines;
  }

  /** The second half of filter_description's pattern pass: each pattern in list order on the previous pass's output. */
  method RemovePatterns(patterns: seq<Pattern>, description: string) returns (text: string)
    ensures text == ApplyPatterns(patterns, description)
  {
    text := description;
    for k := 0 to |patterns|
      invariant text == ApplyPatterns(patterns[..k], description)
    {
      assert patterns[..k + 1][..k] == patterns[..k];
      text := RemoveAll(MatcherOf(patterns[k]), text);
    }
    assert patterns[..|patterns|] == patterns;
  }

  /**
   * filter_description: remove each pattern's matches in list order, then
   * collapse whitespace runs and trim.
   */
  method FilterDescription(description: string, settings: Settings) returns (r: string)
    ensures r == SanitisedDescription(description, settings)
  {
    var patterns := BuildPatterns(settings);
    var text := RemovePatterns(patterns, description);
    text := Collapse(text);
    r := Trim(text);
  }

  /** Credit patterns whose lead is longer than the text find nothing in it. */
  lemma {:induction false} ShortTextUntouched(ps: seq<Pattern>, s: string)
    requires forall k :: 0 <= k < |ps| ==> ps[k].Credit? && |ps[k].lead| > |s|
    ensures ApplyPatterns(ps, s) == s
  {
    if ps != [] {
      var p := ps[|ps| - 1];
      assert p.Credit? && |p.lead| > |s|;
      ShortTextUntouched(ps[..|ps| - 1], s);
      var m := MatcherOf(p);
      forall j | 0 <= j < |s| ensures MatchAt(m, s, j) == 0 {
        assert m(s[j..]) == MatchLen(p, s[j..]);
      }
      RemoveFromWithoutMatch(m, s, 0);
      assert ApplyPatterns(ps, s) == RemoveAll(MatcherOf(ps[|ps| - 1]), ApplyPatterns(ps[..|ps| - 1], s));
    }
  }

  /** Every fixed pattern is a credit pattern whose lead is longer than four characters. */
  lemma FixedLeadsLong()
    ensures forall k :: 0 <= k < |FixedPatterns| ==> FixedPatterns[k].Credit? && |FixedPatterns[k].lead| > 4
  {
    assert |PhotoBy| > 4 && |PhotoColon| > 4 && |CreditColon| > 4;
    assert |PhotoCredit| > 4 && |ViaGetty| > 4 && |ApPhoto| > 4;
  }

  /** Where the literal "ab" matches in "aabb": not at 0, at 1 for two characters, not at 3. */
  lemma LiteralMatchesInAabb()
    ensures var lit := MatcherOf(Literal("ab"));
      MatchAt(lit, "aabb", 0) == 0 && MatchAt(lit, "aabb", 1) == 2 && MatchAt(lit, "aabb", 3) == 0
  {
    var s := "aabb";
    assert s[0..][..2] == "aa";
    assert !EqualsIgnoreCase("aa", "ab") by {
      assert Lower("aa"[1]) != Lower("ab"[1]);
    }
    assert MatchLen(Literal("ab"), s[0..]) == 0;
    assert s[1..][..2] == "ab";
  }

  /**
   * A four-character text with one two-character match in the middle and no
   * match at either end keeps exactly its first and last characters.
   */
  lemma RemoveMiddlePair(m: Matcher, s: string)
    requires |s| == 4 && MatchAt(m, s, 0) == 0 && MatchAt(m, s, 1) == 2 && MatchAt(m, s, 3) == 0
    ensures RemoveAll(m, s) == [s[0], s[3]]
  {
    assert RemoveFrom(m, s, 4) == [];
    assert RemoveFrom(m, s, 3) == [s[3]];
    assert RemoveFrom(m, s, 1) == [s[3]];
  }

  /** One left-to-right pass of the literal "ab" over "aabb" removes only the middle pair. */
  lemma LiteralPassOverAabb()
    ensures RemoveAll(MatcherOf(Literal("ab")), "aabb") == "ab"
  {
    LiteralMatchesInAabb();
    RemoveMiddlePair(MatcherOf(Literal("ab")), "aabb");
  }

  /** The literal "ab" removes all of "ab". */
  lemma LiteralPassOverAb()
    ensures RemoveAll(MatcherOf(Literal("ab")), "ab") == ""
  {
    var lit := MatcherOf(Literal("ab"));
    assert "ab"[0..][..2] == "ab";
    assert MatchAt(lit, "ab", 0) == 2;
    assert RemoveFrom(lit, "ab", 2) == [];
  }

  /**
   * A custom-filter setting of one line that is not empty() and has no trim
   * character at either end adds exactly that line, as a literal, after the
   * fixed patterns.
   */
  lemma PatternsWithOneFilter(settings: Settings, line: string)
    requires settings.customFilters == Some(line) && '\n' !in line && !IsEmpty(line)
    requires !IsTrimChar(line[0]) && !IsTrimChar(line[|line| - 1])
    ensures Patterns(settings) == FixedPatterns + [Literal(line)]
  {
    SplitWithoutSeparator(line, '\n');
    TrimIdentity(line);
    assert LinePattern(line) == [Literal(line)];
    assert [line][..0] == [];
    assert PerLine([line], LinePattern) == PerLine([], LinePattern) + LinePattern(line);
  }

  /** The custom filter "ab" adds the one literal "ab" after the fixed patterns. */
  lemma PatternsWithFilterAb(settings: Settings)
    requires settings.customFilters == Some("ab")
    ensures Patterns(settings) == FixedPatterns + [Literal("ab")]
  {
    var line := "ab";
    assert line[0] == 'a' && line[1] == 'b';
    assert '\n' !in line;
    PatternsWithOneFilter(settings, line);
  }

  /** On text of at most four characters only the literal "ab" can match. */
  lemma OnlyLiteralMatchesShortText(s: string)
    requires |s| <= 4
    ensures ApplyPatterns(FixedPatterns + [Literal("ab")], s) == RemoveAll(MatcherOf(Literal("ab")), s)
  {
    var ps := FixedPatterns + [Literal("ab")];
    FixedLeadsLong();
    ShortTextUntouched(FixedPatterns, s);
    assert ps[..|ps| - 1] == FixedPatterns;
  }

  /**
   * When the pattern pass leaves no whitespace and no trim character, the
   * collapse and the trim change nothing.
   */
  lemma SanitiseTextWithoutSpaces(description: string, settings: Settings, filtered: string)
    requires filtered == ApplyPatterns(Patterns(settings), description)
    requires forall k :: 0 <= k < |filtered| ==> !IsSpace(filtered[k]) && !IsTrimChar(filtered[k])
    ensures SanitisedDescription(description, settings) == filtered
  {
    CollapseFixesSpacedText(filtered);
    TrimIdentity(filtered);
  }

  /** "ab" holds neither whitespace nor a trim character. */
  lemma AbIsPlain(s: string)
    requires s == "ab"
    ensures forall k :: 0 <= k < |s| ==> !IsSpace(s[k]) && !IsTrimChar(s[k])
  {
    assert s[0] == 'a' && s[1] == 'b';
  }

  /** With the custom filter "ab", one pass over "aabb" removes only the middle pair. */
  lemma SanitiseAabb(settings: Settings, text: string)
    requires settings.customFilters == Some("ab") && text == "aabb"
    ensures SanitisedDescription(text, settings) == "ab"
  {
    var filtered := ApplyPatterns(Patterns(settings), text);
    assert filtered == "ab" by {
      PatternsWithFilterAb(settings);
      OnlyLiteralMatchesShortText(text);
      LiteralPassOverAabb();
    }
    AbIsPlain(filtered);
    SanitiseTextWithoutSpaces(text, settings, filtered);
  }

  /** With the custom filter "ab", the text "ab" sanitises to nothing. */
  lemma SanitiseAb(settings: Settings, text: string)
    requires settings.customFilters == Some("ab") && text == "ab"
    ensures SanitisedDescription(text, settings) == ""
  {
    PatternsWithFilterAb(settings);
    OnlyLiteralMatchesShortText(text);
    LiteralPassOverAb();
  }

  /**
   * Sanitising is not idempotent: with the custom filter "ab", the text "aabb"
   * loses one "ab" and leaves "ab", which a second pass removes.
   */
  lemma SanitiserNotIdempotent(settings: Settings, text: string)
    requires settings.customFilters == Some("ab") && text == "aabb"
    ensures SanitisedDescription(SanitisedDescription(text, settings), settings) != SanitisedDescription(text, settings)
  {
    SanitiseAabb(settings, text);
    SanitiseAb(settings, "ab");
  }
}
