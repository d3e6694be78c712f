/**
  Text primitives the analyzer relies on, with JavaScript's meaning: the white
  space of `\s` and `trim()`, `String.prototype.trim`, `split` on one character,
  the lower-casing used for file extensions and the decimal rendering of counts
  in template strings. Strings are sequences of characters.
 */
module Text {

  /** White space as `\s` and `trim()` see it: ECMAScript's WhiteSpace and LineTerminator code points. */
  predicate IsWhitespace(c: char) {
    || c == '\t' || c == '\n' || c == '\U{000B}' || c == '\U{000C}' || c == '\r' || c == ' '
    || c == '\U{00A0}' || c == '\U{1680}' || ('\U{2000}' <= c <= '\U{200A}')
    || c == '\U{2028}' || c == '\U{2029}' || c == '\U{202F}' || c == '\U{205F}'
    || c == '\U{3000}' || c == '\U{FEFF}'
  }

  /** The characters that `.` does not match in a pattern without the `s` flag. */
  predicate IsLineTerminator(c: char) {
    c == '\n' || c == '\r' || c == '\U{2028}' || c == '\U{2029}'
  }

  predicate AllWhitespace(s: string) {
    forall k | 0 <= k < |s| :: IsWhitespace(s[k])
  }

  /** The number of white-space characters `s` starts with. */
  function LeadingWhitespace(s: string): (n: nat)
    ensures n <= |s|
  {
    if |s| > 0 && IsWhitespace(s[0]) then 1 + LeadingWhitespace(s[1..]) else 0
  }

  /** The number of white-space characters `s` ends with. */
  function TrailingWhitespace(s: string): (n: nat)
    ensures n <= |s|
  {
    if |s| > 0 && IsWhitespace(s[|s| - 1]) then 1 + TrailingWhitespace(s[..|s| - 1]) else 0
  }

  /** `LeadingWhitespace` counts the longest white-space prefix. */
  lemma {:induction false} LeadingRun(s: string)
    ensures forall k | 0 <= k < LeadingWhitespace(s) :: IsWhitespace(s[k])
    ensures LeadingWhitespace(s) < |s| ==> !IsWhitespace(s[LeadingWhitespace(s)])
  {
    if |s| > 0 && IsWhitespace(s[0]) {
      LeadingRun(s[1..]);
      forall k | 0 < k < LeadingWhitespace(s) ensures IsWhitespace(s[k]) {
        assert s[1..][k - 1] == s[k];
      }
    }
  }

  /** `TrailingWhitespace` counts the longest white-space suffix. */
  lemma {:induction false} TrailingRun(s: string)
    ensures forall k | |s| - TrailingWhitespace(s) <= k < |s| :: IsWhitespace(s[k])
    ensures TrailingWhitespace(s) < |s| ==> !IsWhitespace(s[|s| - 1 - TrailingWhitespace(s)])
  {
    if |s| > 0 && IsWhitespace(s[|s| - 1]) {
      TrailingRun(s[..|s| - 1]);
      forall k | |s| - TrailingWhitespace(s) <= k < |s| - 1 ensures IsWhitespace(s[k]) {
        assert s[..|s| - 1][k] == s[k];
      }
    }
  }

  /** `s.trim()`: `s` without its leading and trailing white space. */
  function Trim(s: string): (r: string)
    ensures |r| <= |s|
    ensures s == [] || (!IsWhitespace(s[0]) && !IsWhitespace(s[|s| - 1])) ==> r == s
  {
    var a := LeadingWhitespace(s);
    var b := TrailingWhitespace(s[a..]);
    assert a == 0 ==> s[a..] == s;
    s[a..|s| - b]
  }

  /** What trimming leaves neither starts nor ends with white space, and
      trimming leaves nothing only of a text that is all white space. */
  lemma TrimEnds(s: string)
    ensures var r := Trim(s);
      && (r != [] ==> !IsWhitespace(r[0]) && !IsWhitespace(r[|r| - 1]))
      && (r == [] ==> AllWhitespace(s))
  {
    var a := LeadingWhitespace(s);
    var b := TrailingWhitespace(s[a..]);
    LeadingRun(s);
    TrailingRun(s[a..]);
    if a < |s| {
      assert s[a..][0] == s[a];
    }
  }

  /** Trim is characterised without reference to how it scans: whenever `s` is
      white space, then `t`, then white space, and `t` neither starts nor ends
      with white space, trimming `s` gives `t`. */
  lemma {:induction false} TrimIsUnique(s: string, a: nat, e: nat)
    requires a <= e <= |s|
    requires AllWhitespace(s[..a]) && AllWhitespace(s[e..])
    requires a < e ==> !IsWhitespace(s[a]) && !IsWhitespace(s[e - 1])
    ensures Trim(s) == s[a..e]
  {
    forall k | 0 <= k < a ensures IsWhitespace(s[k]) {
      assert s[..a][k] == s[k];
    }
    forall k | e <= k < |s| ensures IsWhitespace(s[k]) {
      assert s[e..][k - e] == s[k];
    }
    LeadingRun(s);
    TrailingRun(s[LeadingWhitespace(s)..]);
  }

  /** Trimming twice is trimming once. */
  lemma TrimIdempotent(s: string)
    ensures Trim(Trim(s)) == Trim(s)
  {
    var t := Trim(s);
    TrimEnds(s);
    TrimIsUnique(t, 0, |t|);
  }

  /** A text of white space stays one when white space is added. */
  lemma BlankAppendWhitespace(s: string, c: char)
    requires IsWhitespace(c) && AllWhitespace(s)
    ensures Trim(s + [c]) == []
  {
    var t := s + [c];
    assert AllWhitespace(t[0..]) by {
      forall k | 0 <= k < |t| ensures IsWhitespace(t[0..][k]) {
        if k < |s| { assert t[0..][k] == s[k]; }
      }
    }
    TrimIsUnique(t, 0, 0);
  }

  lemma AppendKeepsSlice(s: string, c: char, a: nat, e: nat)
    requires a <= e <= |s|
    ensures (s + [c])[a..e] == s[a..e]
  {
  }

  /** White space added at the end is trimmed away. */
  lemma TrimAppendWhitespace(s: string, c: char)
    requires IsWhitespace(c)
    ensures Trim(s + [c]) == Trim(s)
  {
    TrimEnds(s);
    if Trim(s) == [] {
      BlankAppendWhitespace(s, c);
    } else {
      var a := LeadingWhitespace(s);
      var e := |s| - TrailingWhitespace(s[a..]);
      var t := s + [c];
      LeadingRun(s);
      TrailingRun(s[a..]);
      assert AllWhitespace(t[..a]) by {
        forall k | 0 <= k < a ensures IsWhitespace(t[..a][k]) { assert t[..a][k] == s[k]; }
      }
      assert AllWhitespace(t[e..]) by {
        forall k | 0 <= k < |t| - e ensures IsWhitespace(t[e..][k]) {
          if e + k < |s| { assert t[e..][k] == s[a..][e + k - a]; }
        }
      }
      AppendKeepsSlice(s, c, a, e);
      TrimIsUnique(t, a, e);
    }
  }

  /** The position of the first `c` in `s`, or -1 (`indexOf`). */
  function IndexOf(s: string, c: char): (k: int)
    ensures -1 <= k < |s|
    ensures k >= 0 ==> s[k] == c && c !in s[..k]
    ensures k < 0 ==> c !in s
  {
    if |s| == 0 then -1
    else if s[0] == c then 0
    else
      var k := IndexOf(s[1..], c);
      if k < 0 then -1 else k + 1
  }

  /** `s.split(sep)` for a one-character separator: the pieces between the
      separators, so a text with m separators has m + 1 pieces and the empty
      text is one empty piece. */
  function Split(s: string, sep: char): (parts: seq<string>)
    ensures |parts| >= 1
    ensures forall j | 0 <= j < |parts| :: sep !in parts[j]
    decreases |s|
  {
    var k := IndexOf(s, sep);
    if k < 0 then [s]
    else
      var rest := Split(s[k + 1..], sep);
      ConsFree(s[..k], rest, sep);
      [s[..k]] + rest
  }

  /** Putting a piece without the separator in front of such pieces keeps them all free of it. */
  lemma ConsFree(head: string, rest: seq<string>, sep: char)
    requires sep !in head
    requires forall j | 0 <= j < |rest| :: sep !in rest[j]
    ensures forall j | 0 <= j < |rest| + 1 :: sep !in ([head] + rest)[j]
  {
    forall j | 0 <= j < |rest| + 1 ensures sep !in ([head] + rest)[j] {
      if j > 0 { assert ([head] + rest)[j] == rest[j - 1]; }
    }
  }

  /** There is one more piece than there are separators. */
  lemma {:induction false} SplitPieces(s: string, sep: char)
    ensures |Split(s, sep)| == multiset(s)[sep] + 1
    decreases |s|
  {
    var k := IndexOf(s, sep);
    if k >= 0 {
      SplitPieces(s[k + 1..], sep);
      CutAt(s, k);
    }
  }

  /** `parts.join(sep)`. */
  function Join(parts: seq<string>, sep: char): string {
    if |parts| == 0 then ""
    else if |parts| == 1 then parts[0]
    else parts[0] + [sep] + Join(parts[1..], sep)
  }

  /** A text is what comes before position k, the character there and what comes after. */
  lemma CutAt(s: string, k: nat)
    requires k < |s|
    ensures s == s[..k] + [s[k]] + s[k + 1..]
  {
  }

  /** Splitting loses nothing: joining the pieces back gives the text. */
  lemma {:induction false} JoinSplit(s: string, sep: char)
    ensures Join(Split(s, sep), sep) == s
    decreases |s|
  {
    var k := IndexOf(s, sep);
    if k >= 0 {
      var rest := s[k + 1..];
      var tail := Split(rest, sep);
      JoinSplit(rest, sep);
      var parts := Split(s, sep);
      assert parts == [s[..k]] + tail;
      assert |parts| > 1 && parts[0] == s[..k] && parts[1..] == tail;
      assert Join(parts, sep) == s[..k] + [sep] + Join(tail, sep);
      CutAt(s, k);
    } else {
      assert Split(s, sep) == [s];
    }
  }

  /** Pieces free of the separator come back from splitting their join. */
  lemma {:induction false} SplitJoin(parts: seq<string>, sep: char)
    requires |parts| >= 1
    requires forall k | 0 <= k < |parts| :: sep !in parts[k]
    ensures Split(Join(parts, sep), sep) == parts
    decreases |parts|
  {
    if |parts| > 1 {
      var s := Join(parts, sep);
      var head := parts[0];
      IndexOfAfterFree(head, sep, Join(parts[1..], sep));
      assert s[..|head|] == head;
      assert s[|head| + 1..] == Join(parts[1..], sep);
      SplitJoin(parts[1..], sep);
    } else {
      assert IndexOf(parts[0], sep) < 0;
    }
  }

  lemma {:induction false} IndexOfAfterFree(head: string, sep: char, tail: string)
    requires sep !in head
    ensures IndexOf(head + [sep] + tail, sep) == |head|
    decreases |head|
  {
    var s := head + [sep] + tail;
    if |head| > 0 {
      assert s[1..] == head[1..] + [sep] + tail;
      IndexOfAfterFree(head[1..], sep, tail);
    }
  }

  /** The lower-casing `toLowerCase` applies to the characters that can reach an
      ASCII lookup key: ASCII capitals, and the Kelvin sign, whose lower case is `k`. */
  function LowerChar(c: char): (r: char)
    ensures r == '.' <==> c == '.'
  {
    if 'A' <= c <= 'Z' then (c as int + 32) as char
    else if c == '\U{212A}' then 'k'
    else c
  }

  function Lower(s: string): (r: string)
    ensures |r| == |s| && forall k | 0 <= k < |s| :: r[k] == LowerChar(s[k])
  {
    seq(|s|, k requires 0 <= k < |s| => LowerChar(s[k]))
  }

  function Digit(d: nat): (c: char)
    requires d < 10
    ensures '0' <= c <= '9' && c as int - '0' as int == d
  {
    ('0' as int + d) as char
  }

  /** The decimal text of a count, as a template string renders it. */
  function DecimalString(n: nat): (r: string)
    ensures |r| >= 1 && forall k | 0 <= k < |r| :: '0' <= r[k] <= '9'
    ensures |r| > 1 ==> r[0] != '0'
  {
    if n < 10 then [Digit(n)] else DecimalString(n / 10) + [Digit(n % 10)]
  }

  /** The value of a string of decimal digits. */
  function DecimalValue(s: string): nat
    requires forall k | 0 <= k < |s| :: '0' <= s[k] <= '9'
  {
    if s == [] then 0 else 10 * DecimalValue(s[..|s| - 1]) + (s[|s| - 1] as int - '0' as int)
  }

  /** The rendering of a count reads back as that count. */
  lemma {:induction false} DecimalRoundTrip(n: nat)
    ensures DecimalValue(DecimalString(n)) == n
  {
    if n >= 10 {
      var s := DecimalString(n);
      assert s[..|s| - 1] == DecimalString(n / 10) && s[|s| - 1] == Digit(n % 10);
      DecimalRoundTrip(n / 10);
    }
  }

  /** `pat` occurs in `s` at `p`. */
  predicate MatchesAt(s: string, pat: string, p: nat) {
    p + |pat| <= |s| && s[p..p + |pat|] == pat
  }
}
