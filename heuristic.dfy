/**
  The local heuristic analyzer (`generateMockAnalysis`): six rules run in a
  fixed order over the lines of the code, each pushing findings and lowering a
  running score that starts at 85; the score is then clamped to 0..100 and
  mapped to a summary. `Analyze` states the result rule by rule as functions;
  `GenerateMockAnalysis` is the source's step-by-step computation, proved to
  return exactly `Analyze`.
 */
module Heuristic {
  import opened Wrappers
  import opened Text
  import opened Patterns
  import opened Findings

  const Baseline := 85

  const ExcellentSummary := "Excellent code quality!"
  const GoodSummary := "Good code with minor improvements possible."
  const FairSummary := "Code needs some improvements for better maintainability."
  const PoorSummary := "Code requires significant improvements for better quality."

  /** `code.split('\n')`. */
  function Lines(code: string): seq<string> {
    Split(code, '\n')
  }

  // ---------------------------------------------------------------------------
  // The rules as functions
  // ---------------------------------------------------------------------------

  /** Rule 1: more than 300 lines is a very large file, more than 120 a large one. */
  function FileSizeFindings(n: nat): (fs: seq<Finding>)
    ensures |fs| == (if n > 120 then 1 else 0)
    ensures forall f <- fs :: CategoryOf(f.kind) == CodeStructure && f.lineNumber.None?
  {
    if n > 300 then [Whole(VeryLargeFile(n))]
    else if n > 120 then [Whole(LargeFile(n))]
    else []
  }

  function FileSizePenalty(n: nat): nat {
    if n > 300 then 10 else if n > 120 then 5 else 0
  }

  /** Rule 2, one line: a finding per number the `exec` loop reports. */
  function MagicFindingsOf(values: seq<string>, ln: string, i: nat): (fs: seq<Finding>)
    ensures |fs| == |values|
    ensures forall f <- fs :: f.kind.MagicNumber? && f == At(f.kind, ln, i)
    ensures forall j | 0 <= j < |fs| :: fs[j] == At(MagicNumber(values[j]), ln, i)
  {
    if values == [] then [] else [At(MagicNumber(values[0]), ln, i)] + MagicFindingsOf(values[1..], ln, i)
  }

  function MagicLineFindings(ln: string, i: nat): (fs: seq<Finding>)
    ensures |fs| == |MagicNumbers(ln)|
    ensures forall f <- fs :: f.kind.MagicNumber? && f == At(f.kind, ln, i)
    ensures forall j | 0 <= j < |fs| :: fs[j] == At(MagicNumber(MagicNumbers(ln)[j]), ln, i)
  {
    MagicFindingsOf(MagicNumbers(ln), ln, i)
  }

  /** Rule 2's single deduction, by the number of magic-number findings. */
  function MagicPenalty(count: nat): nat {
    if count >= 5 then 6 else if count >= 2 then 3 else 0
  }

  predicate IsLongLine(ln: string) {
    |ln| > 100
  }

  /** Rule 3, one line. */
  function LongLineFindings(ln: string, i: nat): (fs: seq<Finding>)
    ensures |fs| == if IsLongLine(ln) then 1 else 0
    ensures forall f <- fs :: f == At(LongLine(|ln|), ln, i)
  {
    if IsLongLine(ln) then [At(LongLine(|ln|), ln, i)] else []
  }

  /** Rule 4: 1 plus the branch tokens of every line. */
  function BranchComplexity(lines: seq<string>): nat {
    1 + SumOver(lines, BranchCount, |lines|)
  }

  function ComplexityFindings(complexity: nat): (fs: seq<Finding>)
    ensures |fs| == (if complexity > 12 then 1 else 0)
    ensures forall f <- fs :: CategoryOf(f.kind) == Complexity && f.lineNumber.None?
  {
    if complexity > 20 then [Whole(HighComplexity(complexity))]
    else if complexity > 12 then [Whole(ElevatedComplexity(complexity))]
    else []
  }

  function ComplexityPenalty(complexity: nat): nat {
    if complexity > 20 then 12 else if complexity > 12 then 6 else 0
  }

  /** Rule 5, one line: `var`, then `console.log(`. */
  function IdiomLineFindings(ln: string, i: nat): (fs: seq<Finding>)
    ensures |fs| == (if HasVar(ln) then 1 else 0) + (if HasConsoleLog(ln) then 1 else 0)
    ensures forall f <- fs :: (f.kind == VarUsage || f.kind == ConsoleLog) && f == At(f.kind, ln, i)
  {
    (if HasVar(ln) then [At(VarUsage, ln, i)] else [])
    + (if HasConsoleLog(ln) then [At(ConsoleLog, ln, i)] else [])
  }

  /** Rule 5, whole text: neither `const` nor `let` anywhere. */
  function ConstLetFindings(code: string): (fs: seq<Finding>)
    ensures |fs| == (if HasConstOrLet(code) then 0 else 1)
    ensures forall f <- fs :: f == Whole(NoConstLet)
  {
    if HasConstOrLet(code) then [] else [Whole(NoConstLet)]
  }

  function IdiomFindings(code: string, language: string): seq<Finding> {
    var lines := Lines(code);
    if IsJsLike(language) then Collect(lines, IdiomLineFindings, |lines|) + ConstLetFindings(code) else []
  }

  function IdiomPenalty(code: string, language: string): nat {
    var lines := Lines(code);
    if IsJsLike(language) then 2 * CountLines(lines, HasVar, |lines|) + (if HasConstOrLet(code) then 0 else 4)
    else 0
  }

  /** Rule 6, one line. */
  function EmptyCatchLineFindings(ln: string, i: nat): (fs: seq<Finding>)
    ensures |fs| == (if HasEmptyCatch(ln) then 1 else 0)
    ensures forall f <- fs :: f == At(EmptyCatch, ln, i)
  {
    if HasEmptyCatch(ln) then [At(EmptyCatch, ln, i)] else []
  }

  /** The summary of a clamped score. */
  function Summary(score: int): (r: string)
    ensures score < 90 ==> r != ExcellentSummary
  {
    if score >= 90 then ExcellentSummary
    else if score >= 80 then GoodSummary
    else if score >= 70 then FairSummary
    else PoorSummary
  }

  /** All the findings, rule by rule and within a rule line by line: the
      file-size finding, when there is one, comes first. */
  function AllFindings(code: string, language: string): (fs: seq<Finding>)
    ensures |Lines(code)| > 300 ==> fs != [] && fs[0] == Whole(VeryLargeFile(|Lines(code)|))
    ensures 120 < |Lines(code)| <= 300 ==> fs != [] && fs[0] == Whole(LargeFile(|Lines(code)|))
  {
    var lines := Lines(code);
    var n := |lines|;
    FileSizeFindings(n)
    + Collect(lines, MagicLineFindings, n)
    + Collect(lines, LongLineFindings, n)
    + ComplexityFindings(BranchComplexity(lines))
    + IdiomFindings(code, language)
    + Collect(lines, EmptyCatchLineFindings, n)
  }

  /** The sum of the deductions of the six rules. Only `var` lines and empty
      `catch` lines deduct without bound; the other rules deduct at most 34. */
  function TotalPenalty(code: string, language: string): (t: nat)
    ensures 6 * CountLines(Lines(code), HasEmptyCatch, |Lines(code)|) <= t
    ensures t <= 34 + 2 * CountLines(Lines(code), HasVar, |Lines(code)|)
                    + 6 * CountLines(Lines(code), HasEmptyCatch, |Lines(code)|)
  {
    var lines := Lines(code);
    var n := |lines|;
    FileSizePenalty(n)
    + MagicPenalty(|Collect(lines, MagicLineFindings, n)|)
    + (if Collect(lines, LongLineFindings, n) == [] then 0 else 2)
    + ComplexityPenalty(BranchComplexity(lines))
    + IdiomPenalty(code, language)
    + 6 * CountLines(lines, HasEmptyCatch, n)
  }

  /** The clamped score. Every rule only deducts, so it stays within 0..85. */
  function Score(code: string, language: string): (score: int)
    ensures 0 <= score <= Baseline
  {
    Clamp(Baseline - TotalPenalty(code, language), 0, 100)
  }

  /** The report of the heuristic analyzer; its summary is never the top one. */
  function Analyze(code: string, language: string): (r: Report)
    ensures 0 <= r.score <= Baseline
    ensures r.summary == Summary(r.score) && r.summary != ExcellentSummary
  {
    var score := Score(code, language);
    Report(score, Summary(score), AllFindings(code, language))
  }

  // ---------------------------------------------------------------------------
  // The computation as the source performs it: one method per rule, each
  // taking and returning the running `issues` and `score`
  // ---------------------------------------------------------------------------

  /** Rule 1: the file-length check. */
  method FileSizeRule(n: nat, issues: seq<Finding>, score: int) returns (issues': seq<Finding>, score': int)
    ensures issues' == issues + FileSizeFindings(n)
    ensures score' == score - FileSizePenalty(n)
  {
    issues', score' := issues, score;
    if n > 300 {
      issues' := issues' + [Whole(VeryLargeFile(n))];
      score' := score' - 10;
    } else if n > 120 {
      issues' := issues' + [Whole(LargeFile(n))];
      score' := score' - 5;
    }
  }

  /** Rule 2 pushes Code Quality findings only. */
  lemma {:induction false} MagicFindingsAreQuality(lines: seq<string>, n: nat)
    requires n <= |lines|
    ensures forall f <- Collect(lines, MagicLineFindings, n) :: CategoryOf(f.kind) == CodeQuality
  {
    CollectAll(lines, MagicLineFindings, (f: Finding) => CategoryOf(f.kind) == CodeQuality, n);
  }

  /** Rule 3 pushes Readability findings only. */
  lemma {:induction false} LongLineFindingsAreReadability(lines: seq<string>, n: nat)
    requires n <= |lines|
    ensures forall f <- Collect(lines, LongLineFindings, n) :: CategoryOf(f.kind) == Readability
  {
    CollectAll(lines, LongLineFindings, (f: Finding) => CategoryOf(f.kind) == Readability, n);
  }

  /** When rule 2 counts the Code Quality findings, the list holds rule 1's
      findings and its own, so the count is the number of magic numbers. */
  lemma MagicCount(lines: seq<string>)
    ensures var magic := Collect(lines, MagicLineFindings, |lines|);
      CountCategory(FileSizeFindings(|lines|) + magic, CodeQuality) == |magic|
  {
    MagicFindingsAreQuality(lines, |lines|);
    CountAfterRule(FileSizeFindings(|lines|), Collect(lines, MagicLineFindings, |lines|), CodeQuality);
  }

  /** When rule 3 looks for Readability findings, only its own can be there. */
  lemma LongLineCount(lines: seq<string>)
    ensures var long := Collect(lines, LongLineFindings, |lines|);
      CountCategory(FileSizeFindings(|lines|) + Collect(lines, MagicLineFindings, |lines|) + long, Readability)
      == |long|
  {
    var n := |lines|;
    MagicFindingsAreQuality(lines, n);
    LongLineFindingsAreReadability(lines, n);
    var before := FileSizeFindings(n) + Collect(lines, MagicLineFindings, n);
    forall f <- before ensures CategoryOf(f.kind) != Readability {
      assert f in FileSizeFindings(n) || f in Collect(lines, MagicLineFindings, n);
    }
    CountAfterRule(before, Collect(lines, LongLineFindings, n), Readability);
  }

  /** One turn of the `exec` loop: the findings still to come from
      `lastIndex` are the one for the match found there, then those from its end. */
  lemma MagicStep(ln: string, lastIndex: nat, i: nat)
    requires Exec(ln, lastIndex).Some?
    ensures var m := Exec(ln, lastIndex).value;
      MagicFindingsOf(MagicNumbersFrom(ln, lastIndex), ln, i)
      == [At(MagicNumber(m.value), ln, i)] + MagicFindingsOf(MagicNumbersFrom(ln, m.end), ln, i)
  {
    var m := Exec(ln, lastIndex).value;
    var values := MagicNumbersFrom(ln, lastIndex);
    assert values == [m.value] + MagicNumbersFrom(ln, m.end);
    assert values[1..] == MagicNumbersFrom(ln, m.end);
  }

  /** Rule 2 on line i: `while ((m = re.exec(ln)) !== null)`, pushing a
      finding per match. The `exec` that fails resets `lastIndex` to 0. */
  method ExecLoop(ln: string, i: nat, issues: seq<Finding>, lastIndex: nat)
      returns (issues': seq<Finding>, lastIndex': nat)
    ensures issues' == issues + MagicFindingsOf(MagicNumbersFrom(ln, lastIndex), ln, i)
    ensures lastIndex' == 0
  {
    issues', lastIndex' := issues, lastIndex;
    var m := Exec(ln, lastIndex');
    while m.Some?
      invariant m == Exec(ln, lastIndex')
      invariant issues' + MagicFindingsOf(MagicNumbersFrom(ln, lastIndex'), ln, i)
        == issues + MagicFindingsOf(MagicNumbersFrom(ln, lastIndex), ln, i)
      decreases |ln| + 1 - lastIndex'
    {
      MagicStep(ln, lastIndex', i);
      issues' := issues' + [At(MagicNumber(m.value.value), ln, i)];
      lastIndex' := m.value.end;
      m := Exec(ln, lastIndex');
    }
    lastIndex' := 0;
  }

  /** The `forEach` callback of rule 2 on line i, entered with `lastIndex`
      0: the findings the `exec` loop pushes are the line's findings. */
  method MagicLine(lines: seq<string>, i: nat, ghost issues: seq<Finding>, before: seq<Finding>, lastIndex: nat)
      returns (after: seq<Finding>, lastIndex': nat)
    requires i < |lines| && lastIndex == 0
    requires before == issues + Collect(lines, MagicLineFindings, i)
    ensures after == issues + Collect(lines, MagicLineFindings, i + 1)
    ensures lastIndex' == 0
  {
    after, lastIndex' := ExecLoop(lines[i], i, before, lastIndex);
    assert MagicNumbersFrom(lines[i], 0) == MagicNumbers(lines[i]);
    CollectPush(issues, lines, MagicLineFindings, i);
  }

  /** Rule 2's `lines.forEach`: every magic number of every line. The
      pattern object, and with it `lastIndex`, is shared by all lines; the
      `exec` that ends a line's loop resets it to 0. */
  method MagicScan(lines: seq<string>, issues: seq<Finding>) returns (issues': seq<Finding>)
    ensures issues' == issues + Collect(lines, MagicLineFindings, |lines|)
  {
    issues' := issues;
    var lastIndex: nat := 0;
    for i := 0 to |lines|
      invariant lastIndex == 0
      invariant issues' == issues + Collect(lines, MagicLineFindings, i)
    {
      issues', lastIndex := MagicLine(lines, i, issues, issues', lastIndex);
    }
  }

  /** Rule 2: the scan, then one deduction by the number of Code Quality
      findings in the whole list. */
  method MagicNumberRule(lines: seq<string>, issues: seq<Finding>, score: int)
      returns (issues': seq<Finding>, score': int)
    ensures issues' == issues + Collect(lines, MagicLineFindings, |lines|)
    ensures score' == score - MagicPenalty(CountCategory(issues', CodeQuality))
  {
    issues' := MagicScan(lines, issues);
    var quality := CountCategory(issues', CodeQuality);
    score' := score;
    if quality >= 5 {
      score' := score' - 6;
    } else if quality >= 2 {
      score' := score' - 3;
    }
  }

  /** Rule 3's `lines.forEach`: a finding per line over 100 characters. */
  method LongLineScan(lines: seq<string>, issues: seq<Finding>) returns (issues': seq<Finding>)
    ensures issues' == issues + Collect(lines, LongLineFindings, |lines|)
  {
    issues' := issues;
    for i := 0 to |lines|
      invariant issues' == issues + Collect(lines, LongLineFindings, i)
    {
      CollectPush(issues, lines, LongLineFindings, i);
      if |lines[i]| > 100 {
        issues' := issues' + [At(LongLine(|lines[i]|), lines[i], i)];
      }
    }
  }

  /** Rule 3: the scan, then 2 off once if the list holds any Readability finding. */
  method LongLineRule(lines: seq<string>, issues: seq<Finding>, score: int)
      returns (issues': seq<Finding>, score': int)
    ensures issues' == issues + Collect(lines, LongLineFindings, |lines|)
    ensures score' == score - (if CountCategory(issues', Readability) > 0 then 2 else 0)
  {
    issues' := LongLineScan(lines, issues);
    score' := score;
    if CountCategory(issues', Readability) > 0 {
      score' := score' - 2;
    }
  }

  /** Rule 4: sum the branch tokens of every line, then judge the total. */
  method ComplexityRule(lines: seq<string>, issues: seq<Finding>, score: int)
      returns (issues': seq<Finding>, score': int)
    ensures issues' == issues + ComplexityFindings(BranchComplexity(lines))
    ensures score' == score - ComplexityPenalty(BranchComplexity(lines))
  {
    var complexity := 1;
    for i := 0 to |lines|
      invariant complexity == 1 + SumOver(lines, BranchCount, i)
    {
      var matches := BranchCount(lines[i]);
      if matches > 0 {
        complexity := complexity + matches;
      }
    }
    issues', score' := issues, score;
    if complexity > 20 {
      issues' := issues' + [Whole(HighComplexity(complexity))];
      score' := score' - 12;
    } else if complexity > 12 {
      issues' := issues' + [Whole(ElevatedComplexity(complexity))];
      score' := score' - 6;
    }
  }

  /** Rule 5's `forEach` callback on line i: `var` costs a finding and 2
      points, `console.log(` a finding only. */
  method IdiomLine(ln: string, i: nat, issues: seq<Finding>, score: int)
      returns (issues': seq<Finding>, score': int)
    ensures issues' == issues + IdiomLineFindings(ln, i)
    ensures score' == score - (if HasVar(ln) then 2 else 0)
  {
    issues', score' := issues, score;
    if HasVar(ln) {
      issues' := issues' + [At(VarUsage, ln, i)];
      score' := score' - 2;
    }
    if HasConsoleLog(ln) {
      issues' := issues' + [At(ConsoleLog, ln, i)];
    }
  }

  /** Rule 5's `lines.forEach`. */
  method IdiomScan(lines: seq<string>, issues: seq<Finding>, score: int)
      returns (issues': seq<Finding>, score': int)
    ensures issues' == issues + Collect(lines, IdiomLineFindings, |lines|)
    ensures score' == score - 2 * CountLines(lines, HasVar, |lines|)
  {
    issues', score' := issues, score;
    for i := 0 to |lines|
      invariant issues' == issues + Collect(lines, IdiomLineFindings, i)
      invariant score' == score - 2 * CountLines(lines, HasVar, i)
    {
      CollectPush(issues, lines, IdiomLineFindings, i);
      issues', score' := IdiomLine(lines[i], i, issues', score');
    }
  }

  /** Rule 5: for JavaScript-like languages only, `var` and `console.log(`
      per line, then the absence of `const`/`let` in the whole text. */
  method IdiomRule(code: string, language: string, issues: seq<Finding>, score: int)
      returns (issues': seq<Finding>, score': int)
    ensures issues' == issues + IdiomFindings(code, language)
    ensures score' == score - IdiomPenalty(code, language)
  {
    issues', score' := issues, score;
    if IsJsLike(language) {
      issues', score' := IdiomScan(Lines(code), issues', score');
      if !HasConstOrLet(code) {
        issues' := issues' + [Whole(NoConstLet)];
        score' := score' - 4;
      }
    }
  }

  /** Rule 6: a finding and 6 off per line with an empty catch block. */
  method EmptyCatchRule(lines: seq<string>, issues: seq<Finding>, score: int)
      returns (issues': seq<Finding>, score': int)
    ensures issues' == issues + Collect(lines, EmptyCatchLineFindings, |lines|)
    ensures score' == score - 6 * CountLines(lines, HasEmptyCatch, |lines|)
  {
    issues', score' := issues, score;
    for i := 0 to |lines|
      invariant issues' == issues + Collect(lines, EmptyCatchLineFindings, i)
      invariant score' == score - 6 * CountLines(lines, HasEmptyCatch, i)
    {
      CollectPush(issues, lines, EmptyCatchLineFindings, i);
      if HasEmptyCatch(lines[i]) {
        issues' := issues' + [At(EmptyCatch, lines[i], i)];
        score' := score' - 6;
      }
    }
  }

  /** `generateMockAnalysis(code, language)`: the six rules in order, then the
      clamp and the summary. */
  method GenerateMockAnalysis(code: string, language: string) returns (report: Report)
    ensures report == Analyze(code, language)
  {
    var lines := Lines(code);
    var n := |lines|;
    var issues, score := FileSizeRule(n, [], Baseline);
    assert issues == FileSizeFindings(n) by { assert [] + FileSizeFindings(n) == FileSizeFindings(n); }
    issues, score := MagicNumberRule(lines, issues, score);
    MagicCount(lines);
    issues, score := LongLineRule(lines, issues, score);
    LongLineCount(lines);
    issues, score := ComplexityRule(lines, issues, score);
    issues, score := IdiomRule(code, language, issues, score);
    issues, score := EmptyCatchRule(lines, issues, score);
    assert issues == AllFindings(code, language);
    assert score == Baseline - TotalPenalty(code, language);

    score := Clamp(score, 0, 100);
    var summary := "Good code with room for improvement.";
    if score >= 90 {
      summary := ExcellentSummary;
    } else if score >= 80 {
      summary := GoodSummary;
    } else if score >= 70 {
      summary := FairSummary;
    } else {
      summary := PoorSummary;
    }
    assert summary == Summary(score);
    report := Report(score, summary, issues);
  }
}
