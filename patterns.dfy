/**
  The regular expressions the heuristic analyzer applies, each written out as a
  scanner over the characters of a line with the JavaScript semantics of the
  call that uses it: `test` asks whether a match starts anywhere, `exec` with
  the global flag finds the leftmost match at or after `lastIndex`, and `match`
  with the global flag counts the leftmost, non-overlapping matches.
 */
module Patterns {
  import opened Wrappers
  import opened Text

  predicate IsDigit(c: char) { '0' <= c <= '9' }

  /** `[A-Za-z_]`, the class the magic-number prefix must not belong to. */
  predicate IsLetterOrUnderscore(c: char) { 'A' <= c <= 'Z' || 'a' <= c <= 'z' || c == '_' }

  /** `\w`, the word characters `\b` separates from the rest. */
  predicate IsWordChar(c: char) { IsLetterOrUnderscore(c) || IsDigit(c) }

  predicate AllDigits(s: string) { forall k | 0 <= k < |s| :: IsDigit(s[k]) }

  /** The length of the longest run of `inClass` characters starting at `q`
      (what a greedy `[0-9]*` or `\s*` consumes). */
  function Span(s: string, q: nat, inClass: char -> bool): (n: nat)
    requires q <= |s|
    ensures q + n <= |s|
    decreases |s| - q
  {
    if q < |s| && inClass(s[q]) then 1 + Span(s, q + 1, inClass) else 0
  }

  /** `Span` covers a run of the class that the next character does not extend. */
  lemma {:induction false} SpanIsLongestRun(s: string, q: nat, inClass: char -> bool)
    requires q <= |s|
    ensures forall k | q <= k < q + Span(s, q, inClass) :: inClass(s[k])
    ensures q + Span(s, q, inClass) < |s| ==> !inClass(s[q + Span(s, q, inClass)])
    decreases |s| - q
  {
    if q < |s| && inClass(s[q]) { SpanIsLongestRun(s, q + 1, inClass); }
  }

  // ---------------------------------------------------------------------------
  // Magic numbers: /(^|[^A-Za-z_])([0-9]{2,}|[0-9]+\.[0-9]+)/g
  // ---------------------------------------------------------------------------

  /** The language of the number group `[0-9]{2,}|[0-9]+\.[0-9]+`. */
  predicate IsNumberLiteral(v: string) {
    || (|v| >= 2 && AllDigits(v))
    || exists k | 1 <= k < |v| - 1 :: v[k] == '.' && AllDigits(v[..k]) && AllDigits(v[k + 1..])
  }

  /** Where the number group ends when it is tried at `q`, if it matches there.
      A run of two or more digits matches the first alternative, greedily and
      whole; only a single digit goes on to the decimal alternative. */
  function NumberEnd(s: string, q: nat): (e: Option<nat>)
    requires q <= |s|
    ensures e.Some? ==> q + 2 <= e.value <= |s|
  {
    var k := Span(s, q, IsDigit);
    if k >= 2 then
      Some(q + k)
    else if k == 1 && q + 2 < |s| && s[q + 1] == '.' && IsDigit(s[q + 2]) then
      Some(q + 2 + Span(s, q + 2, IsDigit))
    else
      None
  }

  /** What `NumberEnd` matches is in the language of the number group. */
  lemma NumberEndIsLiteral(s: string, q: nat)
    requires q <= |s|
    ensures NumberEnd(s, q).Some? ==> IsNumberLiteral(s[q..NumberEnd(s, q).value])
  {
    var k := Span(s, q, IsDigit);
    SpanIsLongestRun(s, q, IsDigit);
    if k >= 2 {
      assert AllDigits(s[q..q + k]);
    } else if k == 1 && q + 2 < |s| && s[q + 1] == '.' && IsDigit(s[q + 2]) {
      var e := q + 2 + Span(s, q + 2, IsDigit);
      SpanIsLongestRun(s, q + 2, IsDigit);
      assert s[q..e][1] == '.' && AllDigits(s[q..e][..1]) && AllDigits(s[q..e][2..]);
    }
  }

  /** One match of the pattern: where it starts (`match.index`), the number
      group (`match[2]`) and where it ends (the new `lastIndex`). */
  datatype NumberMatch = NumberMatch(index: nat, value: string, end: nat)

  /** The pattern tried at position `p`: `^` applies only at 0 and consumes
      nothing; otherwise one character outside `[A-Za-z_]` is consumed first,
      so a digit is a valid prefix and `a123` yields `23`. */
  function MatchAt(s: string, p: nat): (m: Option<NumberMatch>)
    requires p <= |s|
    ensures m.Some? ==> m.value.index == p < m.value.end <= |s|
  {
    if p == 0 && NumberEnd(s, 0).Some? then
      var e := NumberEnd(s, 0).value;
      Some(NumberMatch(0, s[..e], e))
    else if p < |s| && !IsLetterOrUnderscore(s[p]) && NumberEnd(s, p + 1).Some? then
      var e := NumberEnd(s, p + 1).value;
      Some(NumberMatch(p, s[p + 1..e], e))
    else
      None
  }

  /** `v` is a number literal found in `s` ending at `e` that is not the tail
      of an identifier: it starts the line or follows a character outside `[A-Za-z_]`. */
  predicate IsMagicOccurrence(s: string, v: string, e: int) {
    && |v| <= e <= |s|
    && s[e - |v|..e] == v
    && IsNumberLiteral(v)
    && (e == |v| || !IsLetterOrUnderscore(s[e - |v| - 1]))
  }

  /** `v` occurs in `s` as the pattern reports it. */
  predicate OccursAsMagic(s: string, v: string) {
    exists e | 0 <= e <= |s| :: IsMagicOccurrence(s, v, e)
  }

  /** A match reports a magic occurrence that ends where the match ends. */
  lemma MatchAtIsMagic(s: string, p: nat)
    requires p <= |s|
    ensures MatchAt(s, p).Some? ==> IsMagicOccurrence(s, MatchAt(s, p).value.value, MatchAt(s, p).value.end)
  {
    if p == 0 && NumberEnd(s, 0).Some? {
      NumberEndIsLiteral(s, 0);
    } else if p < |s| && !IsLetterOrUnderscore(s[p]) && NumberEnd(s, p + 1).Some? {
      NumberEndIsLiteral(s, p + 1);
    }
  }

  /** `exec` with the global flag: the leftmost match starting at or after
      `lastIndex`, or None, also when `lastIndex` lies past the end. */
  function Exec(s: string, lastIndex: nat): (m: Option<NumberMatch>)
    ensures m.Some? ==> lastIndex <= m.value.index < m.value.end <= |s|
    decreases |s| + 1 - lastIndex
  {
    if lastIndex > |s| then None
    else
      match MatchAt(s, lastIndex)
      case Some(m) => Some(m)
      case None => Exec(s, lastIndex + 1)
  }

  /** `Exec` finds the leftmost match: it is the match at its index, no
      position before it from `lastIndex` on matches, and when it finds none
      no position from `lastIndex` to the end matches. */
  lemma {:induction false} ExecIsLeftmost(s: string, lastIndex: nat)
    ensures var m := Exec(s, lastIndex);
      && (m.Some? ==> MatchAt(s, m.value.index) == m)
      && (m.Some? ==> forall q | lastIndex <= q < m.value.index :: MatchAt(s, q).None?)
      && (m.None? ==> forall q | lastIndex <= q <= |s| :: MatchAt(s, q).None?)
    decreases |s| + 1 - lastIndex
  {
    if lastIndex <= |s| && MatchAt(s, lastIndex).None? {
      ExecIsLeftmost(s, lastIndex + 1);
    }
  }

  /** The numbers the `exec` loop reports on one line from `lastIndex` on, in order. */
  function MagicNumbersFrom(s: string, lastIndex: nat): seq<string>
    decreases |s| + 1 - lastIndex
  {
    match Exec(s, lastIndex)
    case None => []
    case Some(m) => [m.value] + MagicNumbersFrom(s, m.end)
  }

  /** The numbers `exec` reports on a line entered with `lastIndex` 0. */
  function MagicNumbers(s: string): (values: seq<string>)
    ensures 2 * |values| <= |s|
    ensures forall j | 0 <= j < |values| :: |values[j]| >= 2 && OccursAsMagic(s, values[j])
  {
    MagicNumbersBound(s, 0);
    MagicNumbersAreLiterals(s, 0);
    MagicNumbersFrom(s, 0)
  }

  /** Every reported value is a number literal of at least two characters and
      occurs in the line where no identifier character precedes it. */
  lemma {:induction false} MagicNumbersAreLiterals(s: string, lastIndex: nat)
    ensures forall v <- MagicNumbersFrom(s, lastIndex) :: |v| >= 2 && OccursAsMagic(s, v)
    decreases |s| + 1 - lastIndex
  {
    match Exec(s, lastIndex)
    case None =>
    case Some(m) =>
      MagicNumbersAreLiterals(s, m.end);
      ExecIsLeftmost(s, lastIndex);
      MatchAtIsMagic(s, m.index);
      assert OccursAsMagic(s, m.value) by { assert IsMagicOccurrence(s, m.value, m.end); }
  }

  /** Each match is at least two characters wide and matches do not overlap,
      so a line of n characters yields at most n / 2 numbers. */
  lemma {:induction false} MagicNumbersBound(s: string, lastIndex: nat)
    requires lastIndex <= |s|
    ensures 2 * |MagicNumbersFrom(s, lastIndex)| <= |s| - lastIndex
    decreases |s| + 1 - lastIndex
  {
    match Exec(s, lastIndex)
    case None =>
    case Some(m) =>
      assert |m.value| >= 2 by { MagicNumbersAreLiterals(s, lastIndex); }
      MagicNumbersBound(s, m.end);
  }

  /** A number literal starting at `q` makes the number group match there. */
  lemma LiteralStartsNumber(s: string, q: nat, e: nat)
    requires q <= e <= |s| && IsNumberLiteral(s[q..e])
    ensures NumberEnd(s, q).Some?
  {
    var v := s[q..e];
    assert IsDigit(s[q]) && IsDigit(v[0]) by {
      if !(|v| >= 2 && AllDigits(v)) {
        var k :| 1 <= k < |v| - 1 && v[k] == '.' && AllDigits(v[..k]) && AllDigits(v[k + 1..]);
        assert v[..k][0] == v[0];
      }
    }
    if Span(s, q, IsDigit) < 2 {
      SpanIsLongestRun(s, q, IsDigit);
      assert Span(s, q, IsDigit) == 1 && !IsDigit(s[q + 1]);
      assert v[1] == s[q + 1];
      assert !(|v| >= 2 && AllDigits(v));
      var k :| 1 <= k < |v| - 1 && v[k] == '.' && AllDigits(v[..k]) && AllDigits(v[k + 1..]);
      assert k == 1;
      assert v[k + 1..][0] == s[q + 2];
    }
  }

  /** The match the pattern makes for a magic occurrence starting at `q`: at
      position 0 when `q` is 0, else at the character before `q`. */
  lemma OccurrenceMatches(s: string, v: string, e: nat)
    requires IsMagicOccurrence(s, v, e)
    ensures var q := e - |v|; MatchAt(s, if q == 0 then 0 else q - 1).Some?
  {
    LiteralStartsNumber(s, e - |v|, e);
  }

  /** The `exec` loop reports a number on every line that holds a magic
      occurrence: the scan misses none. */
  lemma MagicPresentFound(s: string, v: string)
    requires OccursAsMagic(s, v)
    ensures MagicNumbers(s) != []
  {
    var e :| 0 <= e <= |s| && IsMagicOccurrence(s, v, e);
    OccurrenceMatches(s, v, e);
    ExecIsLeftmost(s, 0);
  }

  /** The first number reported on a line is a magic occurrence, and no magic
      occurrence starts before it. */
  lemma MagicFirstIsLeftmost(s: string)
    requires MagicNumbers(s) != []
    ensures var v := MagicNumbers(s)[0];
      exists e | 0 <= e <= |s| :: IsMagicOccurrence(s, v, e)
        && forall q, e' | 0 <= q < e - |v| && q <= e' <= |s| :: !IsMagicOccurrence(s, s[q..e'], e')
  {
    var m := Exec(s, 0).value;
    ExecIsLeftmost(s, 0);
    MatchAtIsMagic(s, m.index);
    var v := m.value;
    var e := m.end;
    assert MagicNumbers(s)[0] == v;
    assert e - |v| == m.index || e - |v| == m.index + 1;
    assert e - |v| == 0 ==> m.index == 0;
    forall q, e' | 0 <= q < e - |v| && q <= e' <= |s|
      ensures !IsMagicOccurrence(s, s[q..e'], e')
    {
      if IsMagicOccurrence(s, s[q..e'], e') {
        OccurrenceMatches(s, s[q..e'], e');
      }
    }
  }

  // ---------------------------------------------------------------------------
  // Branch tokens: /(if|for|while|case\s+|catch|&&|\|\||\?\:)/g with `match`
  // ---------------------------------------------------------------------------

  /** The length of the branch token matched at `p`, or 0 when none starts
      there. No word boundaries: `notify` and `format` contain tokens. */
  function BranchTokenAt(s: string, p: nat): (n: nat)
    requires p <= |s|
    ensures n == 0 || (n >= 2 && p + n <= |s|)
  {
    if MatchesAt(s, "if", p) then 2
    else if MatchesAt(s, "for", p) then 3
    else if MatchesAt(s, "while", p) then 5
    else if MatchesAt(s, "case", p) && p + 4 < |s| && IsWhitespace(s[p + 4]) then 4 + Span(s, p + 4, IsWhitespace)
    else if MatchesAt(s, "catch", p) then 5
    else if MatchesAt(s, "&&", p) || MatchesAt(s, "||", p) || MatchesAt(s, "?:", p) then 2
    else 0
  }

  /** The number of leftmost, non-overlapping branch tokens from `p` on. */
  function BranchCountFrom(s: string, p: nat): nat
    requires p <= |s|
    decreases |s| - p
  {
    if p == |s| then 0
    else
      var n := BranchTokenAt(s, p);
      if n > 0 then 1 + BranchCountFrom(s, p + n) else BranchCountFrom(s, p + 1)
  }

  /** `(ln.match(branchKeywords) || []).length`. */
  function BranchCount(s: string): (n: nat)
    ensures 2 * n <= |s|
    ensures n == 0 <==> forall q | 0 <= q < |s| :: BranchTokenAt(s, q) == 0
  {
    BranchCountBound(s, 0);
    BranchCountZero(s, 0);
    BranchCountFrom(s, 0)
  }

  /** Tokens are at least two characters wide and do not overlap. */
  lemma {:induction false} BranchCountBound(s: string, p: nat)
    requires p <= |s|
    ensures 2 * BranchCountFrom(s, p) <= |s| - p
    decreases |s| - p
  {
    if p < |s| {
      var n := BranchTokenAt(s, p);
      if n > 0 { BranchCountBound(s, p + n); } else { BranchCountBound(s, p + 1); }
    }
  }

  /** A line without any token has count 0, and every counted token is found
      where the scan stands: a positive count means some token starts in the line. */
  lemma {:induction false} BranchCountZero(s: string, p: nat)
    requires p <= |s|
    ensures BranchCountFrom(s, p) == 0 <==> forall q | p <= q < |s| :: BranchTokenAt(s, q) == 0
    decreases |s| - p
  {
    if p < |s| {
      BranchCountZero(s, p + 1);
    }
  }

  // ---------------------------------------------------------------------------
  // Patterns used with `test`
  // ---------------------------------------------------------------------------

  /** The word `w` (which starts and ends with a word character) occurs at `p`
      between word boundaries `\b`. */
  predicate WordAt(s: string, w: string, p: nat) {
    && MatchesAt(s, w, p)
    && (p == 0 || !IsWordChar(s[p - 1]))
    && (p + |w| == |s| || !IsWordChar(s[p + |w|]))
  }

  /** `test` of a pattern without anchors: the match is tried at every start
      position from `p` to `n`, left to right, until `matchesAt` holds. */
  predicate FoundFrom(n: nat, p: nat, matchesAt: nat -> bool)
    decreases n - p
  {
    p <= n && (matchesAt(p) || FoundFrom(n, p + 1, matchesAt))
  }

  /** The scan succeeds exactly when some start position from `p` on matches. */
  lemma {:induction false} FoundFromIsExists(n: nat, p: nat, matchesAt: nat -> bool)
    ensures FoundFrom(n, p, matchesAt) <==> exists q | p <= q <= n :: matchesAt(q)
    decreases n - p
  {
    if p <= n {
      FoundFromIsExists(n, p + 1, matchesAt);
    }
  }

  /** `/\bvar\b/.test(s)`. */
  function HasVar(s: string): (b: bool)
    ensures b <==> exists p | 0 <= p <= |s| :: WordAt(s, "var", p)
  {
    var matchesAt := (p: nat) => WordAt(s, "var", p);
    FoundFromIsExists(|s|, 0, matchesAt);
    assert forall p: nat :: matchesAt(p) == WordAt(s, "var", p);
    FoundFrom(|s|, 0, matchesAt)
  }

  /** `/\b(const|let)\b/.test(s)`. */
  function HasConstOrLet(s: string): (b: bool)
    ensures b <==> exists p | 0 <= p <= |s| :: WordAt(s, "const", p) || WordAt(s, "let", p)
  {
    var matchesAt := (p: nat) => WordAt(s, "const", p) || WordAt(s, "let", p);
    FoundFromIsExists(|s|, 0, matchesAt);
    assert forall p: nat :: matchesAt(p) == (WordAt(s, "const", p) || WordAt(s, "let", p));
    FoundFrom(|s|, 0, matchesAt)
  }

  /** `/console\.log\(/.test(s)`. */
  function HasConsoleLog(s: string): (b: bool)
    ensures b <==> exists p | 0 <= p <= |s| :: MatchesAt(s, "console.log(", p)
  {
    var matchesAt := (p: nat) => MatchesAt(s, "console.log(", p);
    FoundFromIsExists(|s|, 0, matchesAt);
    assert forall p: nat :: matchesAt(p) == MatchesAt(s, "console.log(", p);
    FoundFrom(|s|, 0, matchesAt)
  }

  /** Where a greedy `\s*` tried at `q` stops. */
  function SkipWhitespace(s: string, q: nat): (r: nat)
    requires q <= |s|
    ensures q <= r <= |s|
  {
    q + Span(s, q, IsWhitespace)
  }

  /** `\)\s*\{\s*\}` matches at `c`. A `\s*` that stops short of its longest run
      leaves white space where the next literal is needed, so only the longest
      run can lead to a match. */
  predicate EmptyBlockAt(s: string, c: nat)
    requires c < |s|
  {
    && s[c] == ')'
    && var d := SkipWhitespace(s, c + 1);
    && d < |s| && s[d] == '{'
    && var e := SkipWhitespace(s, d + 1);
    && e < |s| && s[e] == '}'
  }

  /** `catch\s*\(.*\)\s*\{\s*\}` matches at `p`; `.*` may stop at any `)` it
      reaches without crossing a line terminator. */
  function EmptyCatchAt(s: string, p: nat): (b: bool)
    ensures b ==> p + |"catch(){}"| <= |s|
  {
    && MatchesAt(s, "catch", p)
    && var b := SkipWhitespace(s, p + 5);
    && b < |s| && s[b] == '('
    && exists c | b < c < |s| :: (forall k | b < k < c :: !IsLineTerminator(s[k])) && EmptyBlockAt(s, c)
  }

  /** `/catch\s*\(.*\)\s*\{\s*\}/.test(s)`. */
  function HasEmptyCatch(s: string): (b: bool)
    ensures b <==> exists p | 0 <= p <= |s| :: EmptyCatchAt(s, p)
    ensures b ==> |s| >= |"catch(){}"|
  {
    var matchesAt := (p: nat) => EmptyCatchAt(s, p);
    FoundFromIsExists(|s|, 0, matchesAt);
    assert forall p: nat :: matchesAt(p) == EmptyCatchAt(s, p);
    FoundFrom(|s|, 0, matchesAt)
  }

  /** The case folding of a pattern with the `i` flag and without `u`: only
      ASCII letters fold, because no other character canonicalises to ASCII. */
  function FoldCase(c: char): char {
    if 'A' <= c <= 'Z' then (c as int + 32) as char else c
  }

  /** The lower-case pattern `pat` occurs at `p`, ignoring case. */
  predicate MatchesIgnoreCaseAt(s: string, pat: string, p: nat) {
    p + |pat| <= |s| && forall k | 0 <= k < |pat| :: FoldCase(s[p + k]) == pat[k]
  }

  /** `pat` occurs somewhere in `s`, ignoring case. */
  function ContainsIgnoreCase(s: string, pat: string): (b: bool)
    ensures b <==> exists p | 0 <= p <= |s| :: MatchesIgnoreCaseAt(s, pat, p)
  {
    var matchesAt := (p: nat) => MatchesIgnoreCaseAt(s, pat, p);
    FoundFromIsExists(|s|, 0, matchesAt);
    assert forall p: nat :: matchesAt(p) == MatchesIgnoreCaseAt(s, pat, p);
    FoundFrom(|s|, 0, matchesAt)
  }

  /** `/javascript|typescript|react/i.test(language)`: the gate of the JavaScript idiom rule. */
  function IsJsLike(language: string): (b: bool)
    ensures b <==> exists p | 0 <= p <= |language| ::
      || MatchesIgnoreCaseAt(language, "javascript", p)
      || MatchesIgnoreCaseAt(language, "typescript", p)
      || MatchesIgnoreCaseAt(language, "react", p)
  {
    ContainsIgnoreCase(language, "javascript") || ContainsIgnoreCase(language, "typescript")
    || ContainsIgnoreCase(language, "react")
  }
}
