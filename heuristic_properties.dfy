/**
  What the heuristic analyzer promises about its report as a whole: the score
  is determined by the findings alone, every finding that names a line names a
  real one and quotes it, every magic-number finding carries a number found on
  its line, the JavaScript idiom rule is gated by the language,
  and the line count is the number of newlines plus one.
 */
module HeuristicProperties {
  import opened Wrappers
  import opened Text
  import opened Patterns
  import opened Findings
  import opened Heuristic

  // ---------------------------------------------------------------------------
  // Lines
  // ---------------------------------------------------------------------------

  /** A text has one line more than it has newlines, so the empty text is one
      line, and the lines joined back with newlines are the text. */
  lemma LineCount(code: string)
    ensures |Lines(code)| == multiset(code)['\n'] + 1
    ensures Join(Lines(code), '\n') == code
  {
    SplitPieces(code, '\n');
    JoinSplit(code, '\n');
  }

  /** Rule 1 in terms of newlines: over 300 lines is 300 or more newlines. */
  lemma FileSizeByNewlines(code: string)
    ensures var n := |Lines(code)|;
      && (FileSizePenalty(n) == 10 <==> multiset(code)['\n'] >= 300)
      && (FileSizePenalty(n) == 5 <==> 120 <= multiset(code)['\n'] < 300)
  {
    LineCount(code);
  }

  // ---------------------------------------------------------------------------
  // The score from the findings
  // ---------------------------------------------------------------------------

  /** What a finding costs on its own, apart from the two deductions made once
      per rule (magic numbers by their count, long lines once). */
  function Weight(k: Kind): nat {
    match k
    case VeryLargeFile(_) => 10
    case LargeFile(_) => 5
    case MagicNumber(_) => 0
    case LongLine(_) => 0
    case HighComplexity(_) => 12
    case ElevatedComplexity(_) => 6
    case VarUsage => 2
    case ConsoleLog => 0
    case NoConstLet => 4
    case EmptyCatch => 6
  }

  function WeightSum(fs: seq<Finding>): nat {
    if fs == [] then 0 else Weight(fs[0].kind) + WeightSum(fs[1..])
  }

  /** The deductions a list of findings stands for. */
  function FindingsPenalty(fs: seq<Finding>): nat {
    WeightSum(fs)
    + MagicPenalty(CountCategory(fs, CodeQuality))
    + (if CountCategory(fs, Readability) > 0 then 2 else 0)
  }

  lemma {:induction false} WeightSumAppend(a: seq<Finding>, b: seq<Finding>)
    ensures WeightSum(a + b) == WeightSum(a) + WeightSum(b)
    decreases |a|
  {
    if a != [] {
      assert (a + b)[0] == a[0] && (a + b)[1..] == a[1..] + b;
      WeightSumAppend(a[1..], b);
    } else {
      assert a + b == b;
    }
  }

  /** A per-line rule whose findings on each line weigh what `measure` says
      weighs, over the first n lines, the sum of `measure`. */
  lemma {:induction false} CollectWeight(lines: seq<string>, rule: (string, nat) -> seq<Finding>,
                                         measure: string -> nat, n: nat)
    requires n <= |lines|
    requires forall i | 0 <= i < n :: WeightSum(rule(lines[i], i)) == measure(lines[i])
    ensures WeightSum(Collect(lines, rule, n)) == SumOver(lines, measure, n)
  {
    if n > 0 {
      CollectWeight(lines, rule, measure, n - 1);
      WeightSumAppend(Collect(lines, rule, n - 1), rule(lines[n - 1], n - 1));
    }
  }

  /** Summing `w` over the lines that satisfy `holds` is `w` times their count. */
  lemma {:induction false} SumOverScaled(lines: seq<string>, measure: string -> nat,
                                         holds: string -> bool, w: nat, n: nat)
    requires n <= |lines|
    requires forall i | 0 <= i < n :: measure(lines[i]) == (if holds(lines[i]) then w else 0)
    ensures SumOver(lines, measure, n) == w * CountLines(lines, holds, n)
  {
    if n > 0 {
      SumOverScaled(lines, measure, holds, w, n - 1);
      var c := CountLines(lines, holds, n - 1);
      assert w * (c + 1) == w * c + w;
    }
  }

  lemma {:induction false} MagicWeightless(values: seq<string>, ln: string, i: nat)
    ensures WeightSum(MagicFindingsOf(values, ln, i)) == 0
    decreases |values|
  {
    if values != [] {
      MagicWeightless(values[1..], ln, i);
      var fs := MagicFindingsOf(values, ln, i);
      assert fs[0].kind.MagicNumber? && fs[1..] == MagicFindingsOf(values[1..], ln, i);
    }
  }

  /** What one line's findings weigh, rule by rule. */
  lemma MagicLineWeight(ln: string, i: nat)
    ensures WeightSum(MagicLineFindings(ln, i)) == 0
  {
    MagicWeightless(MagicNumbers(ln), ln, i);
  }

  lemma LongLineWeight(ln: string, i: nat)
    ensures WeightSum(LongLineFindings(ln, i)) == 0
  {
  }

  lemma IdiomLineWeight(ln: string, i: nat)
    ensures WeightSum(IdiomLineFindings(ln, i)) == (if HasVar(ln) then 2 else 0)
  {
    var fs := IdiomLineFindings(ln, i);
    var log := if HasConsoleLog(ln) then [At(ConsoleLog, ln, i)] else [];
    assert WeightSum(log) == 0;
    if HasVar(ln) {
      assert fs[0].kind == VarUsage && fs[1..] == log;
    } else {
      assert fs == log;
    }
  }

  lemma EmptyCatchLineWeight(ln: string, i: nat)
    ensures WeightSum(EmptyCatchLineFindings(ln, i)) == (if HasEmptyCatch(ln) then 6 else 0)
  {
  }

  /** Rules 2 and 3 weigh nothing finding by finding. */
  lemma MagicAndLongWeights(lines: seq<string>)
    ensures WeightSum(Collect(lines, MagicLineFindings, |lines|)) == 0
    ensures WeightSum(Collect(lines, LongLineFindings, |lines|)) == 0
  {
    var zero := (ln: string) => 0;
    forall i | 0 <= i < |lines|
      ensures WeightSum(MagicLineFindings(lines[i], i)) == zero(lines[i])
      ensures WeightSum(LongLineFindings(lines[i], i)) == zero(lines[i])
    {
      MagicLineWeight(lines[i], i);
      LongLineWeight(lines[i], i);
    }
    CollectWeight(lines, MagicLineFindings, zero, |lines|);
    CollectWeight(lines, LongLineFindings, zero, |lines|);
    SumOverScaled(lines, zero, (ln: string) => true, 0, |lines|);
  }

  /** Rule 6 weighs 6 per line with an empty `catch`. */
  lemma EmptyCatchWeight(lines: seq<string>)
    ensures WeightSum(Collect(lines, EmptyCatchLineFindings, |lines|)) == 6 * CountLines(lines, HasEmptyCatch, |lines|)
  {
    var six := (ln: string) => if HasEmptyCatch(ln) then 6 else 0;
    forall i | 0 <= i < |lines| ensures WeightSum(EmptyCatchLineFindings(lines[i], i)) == six(lines[i]) {
      EmptyCatchLineWeight(lines[i], i);
    }
    CollectWeight(lines, EmptyCatchLineFindings, six, |lines|);
    SumOverScaled(lines, six, HasEmptyCatch, 6, |lines|);
  }

  /** Rule 5's per-line part weighs 2 per line with `var`. */
  lemma VarWeight(lines: seq<string>)
    ensures WeightSum(Collect(lines, IdiomLineFindings, |lines|)) == 2 * CountLines(lines, HasVar, |lines|)
  {
    var two := (ln: string) => if HasVar(ln) then 2 else 0;
    forall i | 0 <= i < |lines| ensures WeightSum(IdiomLineFindings(lines[i], i)) == two(lines[i]) {
      IdiomLineWeight(lines[i], i);
    }
    CollectWeight(lines, IdiomLineFindings, two, |lines|);
    SumOverScaled(lines, two, HasVar, 2, |lines|);
  }

  lemma ConstLetWeight(code: string)
    ensures WeightSum(ConstLetFindings(code)) == (if HasConstOrLet(code) then 0 else 4)
  {
  }

  /** Rule 5 weighs what it deducts. */
  lemma IdiomWeight(code: string, language: string)
    ensures WeightSum(IdiomFindings(code, language)) == IdiomPenalty(code, language)
  {
    var lines := Lines(code);
    if IsJsLike(language) {
      VarWeight(lines);
      ConstLetWeight(code);
      WeightSumAppend(Collect(lines, IdiomLineFindings, |lines|), ConstLetFindings(code));
    }
  }

  /** No Code Quality and no Readability finding: neither rule 2's count nor
      rule 3's test sees any. */
  predicate Uncounted(fs: seq<Finding>) {
    CountCategory(fs, CodeQuality) == 0 && CountCategory(fs, Readability) == 0
  }

  lemma UncountedAppend(a: seq<Finding>, b: seq<Finding>)
    requires Uncounted(a) && Uncounted(b)
    ensures Uncounted(a + b)
  {
    CountCategoryAppend(a, b, CodeQuality);
    CountCategoryAppend(a, b, Readability);
  }

  lemma {:induction false} CollectUncounted(lines: seq<string>, rule: (string, nat) -> seq<Finding>, n: nat)
    requires n <= |lines|
    requires forall i | 0 <= i < n :: Uncounted(rule(lines[i], i))
    ensures Uncounted(Collect(lines, rule, n))
  {
    if n > 0 {
      CollectUncounted(lines, rule, n - 1);
      UncountedAppend(Collect(lines, rule, n - 1), rule(lines[n - 1], n - 1));
    }
  }

  lemma IdiomLineUncounted(ln: string, i: nat)
    ensures Uncounted(IdiomLineFindings(ln, i))
  {
    CountCategoryExact(IdiomLineFindings(ln, i), CodeQuality);
    CountCategoryExact(IdiomLineFindings(ln, i), Readability);
  }

  lemma IdiomScanUncounted(lines: seq<string>)
    ensures Uncounted(Collect(lines, IdiomLineFindings, |lines|))
  {
    forall i | 0 <= i < |lines| ensures Uncounted(IdiomLineFindings(lines[i], i)) {
      IdiomLineUncounted(lines[i], i);
    }
    CollectUncounted(lines, IdiomLineFindings, |lines|);
  }

  /** Rule 5 pushes neither Code Quality nor Readability findings. */
  lemma IdiomUncounted(code: string, language: string)
    ensures Uncounted(IdiomFindings(code, language))
  {
    if IsJsLike(language) {
      var lines := Lines(code);
      IdiomScanUncounted(lines);
      var constLet := ConstLetFindings(code);
      assert Uncounted(constLet) by {
        CountCategoryExact(constLet, CodeQuality);
        CountCategoryExact(constLet, Readability);
      }
      UncountedAppend(Collect(lines, IdiomLineFindings, |lines|), constLet);
    }
  }

  lemma EmptyCatchLineUncounted(ln: string, i: nat)
    ensures Uncounted(EmptyCatchLineFindings(ln, i))
  {
    CountCategoryExact(EmptyCatchLineFindings(ln, i), CodeQuality);
    CountCategoryExact(EmptyCatchLineFindings(ln, i), Readability);
  }

  /** Rule 6 pushes neither Code Quality nor Readability findings. */
  lemma EmptyCatchUncounted(lines: seq<string>)
    ensures Uncounted(Collect(lines, EmptyCatchLineFindings, |lines|))
  {
    forall i | 0 <= i < |lines| ensures Uncounted(EmptyCatchLineFindings(lines[i], i)) {
      EmptyCatchLineUncounted(lines[i], i);
    }
    CollectUncounted(lines, EmptyCatchLineFindings, |lines|);
  }

  /** Rules 1 and 4 push neither Code Quality nor Readability findings. */
  lemma WholeFileUncounted(n: nat, complexity: nat)
    ensures Uncounted(FileSizeFindings(n)) && Uncounted(ComplexityFindings(complexity))
  {
    CountCategoryExact(FileSizeFindings(n), CodeQuality);
    CountCategoryExact(FileSizeFindings(n), Readability);
    CountCategoryExact(ComplexityFindings(complexity), CodeQuality);
    CountCategoryExact(ComplexityFindings(complexity), Readability);
  }

  /** Rules 1 to 3 push Code Quality findings only from rule 2, and Readability
      ones only from rule 3. */
  lemma EarlierRulesCounted(lines: seq<string>)
    ensures var n := |lines|;
      var magic := Collect(lines, MagicLineFindings, n);
      var long := Collect(lines, LongLineFindings, n);
      && CountCategory(magic, CodeQuality) == |magic| && CountCategory(magic, Readability) == 0
      && CountCategory(long, CodeQuality) == 0 && CountCategory(long, Readability) == |long|
  {
    var n := |lines|;
    MagicFindingsAreQuality(lines, n);
    LongLineFindingsAreReadability(lines, n);
    CountCategoryExact(Collect(lines, MagicLineFindings, n), CodeQuality);
    CountCategoryExact(Collect(lines, MagicLineFindings, n), Readability);
    CountCategoryExact(Collect(lines, LongLineFindings, n), CodeQuality);
    CountCategoryExact(Collect(lines, LongLineFindings, n), Readability);
  }

  /** The counts of the six rules' findings in order, when only the second
      group holds Code Quality findings and only the third Readability ones. */
  lemma CountsOfGroups(a: seq<Finding>, magic: seq<Finding>, long: seq<Finding>,
                       c: seq<Finding>, d: seq<Finding>, e: seq<Finding>)
    requires Uncounted(a) && Uncounted(c) && Uncounted(d) && Uncounted(e)
    requires CountCategory(magic, CodeQuality) == |magic| && CountCategory(magic, Readability) == 0
    requires CountCategory(long, CodeQuality) == 0 && CountCategory(long, Readability) == |long|
    ensures CountCategory(a + magic + long + c + d + e, CodeQuality) == |magic|
    ensures CountCategory(a + magic + long + c + d + e, Readability) == |long|
  {
    CountCategoryAppend(a, magic, CodeQuality);
    CountCategoryAppend(a + magic, long, CodeQuality);
    CountCategoryAppend(a + magic + long, c, CodeQuality);
    CountCategoryAppend(a + magic + long + c, d, CodeQuality);
    CountCategoryAppend(a + magic + long + c + d, e, CodeQuality);
    CountCategoryAppend(a, magic, Readability);
    CountCategoryAppend(a + magic, long, Readability);
    CountCategoryAppend(a + magic + long, c, Readability);
    CountCategoryAppend(a + magic + long + c, d, Readability);
    CountCategoryAppend(a + magic + long + c + d, e, Readability);
  }

  /** Rule 2's findings are all the Code Quality findings of the report, and
      rule 3's all the Readability ones. */
  lemma ReportCounts(code: string, language: string)
    ensures var lines := Lines(code); var all := AllFindings(code, language);
      && CountCategory(all, CodeQuality) == |Collect(lines, MagicLineFindings, |lines|)|
      && CountCategory(all, Readability) == |Collect(lines, LongLineFindings, |lines|)|
  {
    var lines := Lines(code);
    var n := |lines|;
    EarlierRulesCounted(lines);
    WholeFileUncounted(n, BranchComplexity(lines));
    IdiomUncounted(code, language);
    EmptyCatchUncounted(lines);
    CountsOfGroups(FileSizeFindings(n), Collect(lines, MagicLineFindings, n), Collect(lines, LongLineFindings, n),
      ComplexityFindings(BranchComplexity(lines)), IdiomFindings(code, language), Collect(lines, EmptyCatchLineFindings, n));
  }

  /** Rules 1 and 4 weigh what they deduct. */
  lemma WholeFileWeights(n: nat, complexity: nat)
    ensures WeightSum(FileSizeFindings(n)) == FileSizePenalty(n)
    ensures WeightSum(ComplexityFindings(complexity)) == ComplexityPenalty(complexity)
  {
  }

  lemma WeightOfGroups(a: seq<Finding>, b: seq<Finding>, c: seq<Finding>, d: seq<Finding>, e: seq<Finding>, f: seq<Finding>)
    ensures WeightSum(a + b + c + d + e + f)
      == WeightSum(a) + WeightSum(b) + WeightSum(c) + WeightSum(d) + WeightSum(e) + WeightSum(f)
  {
    WeightSumAppend(a, b);
    WeightSumAppend(a + b, c);
    WeightSumAppend(a + b + c, d);
    WeightSumAppend(a + b + c + d, e);
    WeightSumAppend(a + b + c + d + e, f);
  }

  /** The findings weigh what the rules deduct apart from rule 2's and rule 3's
      single deductions. */
  lemma ReportWeight(code: string, language: string)
    ensures var lines := Lines(code); var n := |lines|;
      WeightSum(AllFindings(code, language))
      == FileSizePenalty(n) + ComplexityPenalty(BranchComplexity(lines)) + IdiomPenalty(code, language)
         + 6 * CountLines(lines, HasEmptyCatch, n)
  {
    var lines := Lines(code);
    var n := |lines|;
    WeightOfGroups(FileSizeFindings(n), Collect(lines, MagicLineFindings, n), Collect(lines, LongLineFindings, n),
      ComplexityFindings(BranchComplexity(lines)), IdiomFindings(code, language), Collect(lines, EmptyCatchLineFindings, n));
    MagicAndLongWeights(lines);
    EmptyCatchWeight(lines);
    IdiomWeight(code, language);
    WholeFileWeights(n, BranchComplexity(lines));
  }

  /** What the findings stand for is what the six rules deduct. */
  lemma PenaltyMatches(code: string, language: string)
    ensures FindingsPenalty(AllFindings(code, language)) == TotalPenalty(code, language)
  {
    ReportCounts(code, language);
    ReportWeight(code, language);
  }

  /** The score is the baseline less what the findings stand for, clamped: a
      reader of the report can recompute it from the findings alone. */
  lemma ScoreFromFindings(code: string, language: string)
    ensures var r := Analyze(code, language);
      r.score == Clamp(Baseline - FindingsPenalty(r.improvements), 0, 100)
  {
    PenaltyMatches(code, language);
  }

  // ---------------------------------------------------------------------------
  // Where the findings point
  // ---------------------------------------------------------------------------

  lemma LocatedInAppend(a: seq<Finding>, b: seq<Finding>, lines: seq<string>)
    requires LocatedIn(a, lines) && LocatedIn(b, lines)
    ensures LocatedIn(a + b, lines)
  {
    assert forall f <- a + b :: f in a || f in b;
  }

  /** The whole-file findings name no line and quote nothing. */
  lemma WholeFileFindingsLocated(code: string, language: string)
    ensures var lines := Lines(code);
      && LocatedIn(FileSizeFindings(|lines|), lines)
      && LocatedIn(ComplexityFindings(BranchComplexity(lines)), lines)
      && LocatedIn(ConstLetFindings(code), lines)
  {
  }

  /** A per-line rule's findings name lines 1..n, in order, and quote them trimmed. */
  lemma PerLineLocated(lines: seq<string>, rule: (string, nat) -> seq<Finding>)
    requires forall i | 0 <= i < |lines| :: StampsLine(lines, rule, i)
    ensures LocatedIn(Collect(lines, rule, |lines|), lines)
    ensures InLineOrder(Collect(lines, rule, |lines|))
  {
    CollectLocated(lines, rule, |lines|);
  }

  /** Every finding that names a line names one of the code's lines (1-based)
      and quotes that line trimmed; within each per-line rule the findings
      come in line order. */
  lemma FindingsAreLocated(code: string, language: string)
    ensures LocatedIn(Analyze(code, language).improvements, Lines(code))
    ensures var lines := Lines(code); var n := |lines|;
      && InLineOrder(Collect(lines, MagicLineFindings, n))
      && InLineOrder(Collect(lines, LongLineFindings, n))
      && InLineOrder(Collect(lines, IdiomLineFindings, n))
      && InLineOrder(Collect(lines, EmptyCatchLineFindings, n))
  {
    var lines := Lines(code);
    var n := |lines|;
    assert forall i | 0 <= i < n :: StampsLine(lines, MagicLineFindings, i);
    assert forall i | 0 <= i < n :: StampsLine(lines, LongLineFindings, i);
    assert forall i | 0 <= i < n :: StampsLine(lines, IdiomLineFindings, i);
    assert forall i | 0 <= i < n :: StampsLine(lines, EmptyCatchLineFindings, i);
    PerLineLocated(lines, MagicLineFindings);
    PerLineLocated(lines, LongLineFindings);
    PerLineLocated(lines, IdiomLineFindings);
    PerLineLocated(lines, EmptyCatchLineFindings);
    WholeFileFindingsLocated(code, language);
    var idiom := IdiomFindings(code, language);
    if IsJsLike(language) {
      LocatedInAppend(Collect(lines, IdiomLineFindings, n), ConstLetFindings(code), lines);
    }
    var fileSize := FileSizeFindings(n);
    var magic := Collect(lines, MagicLineFindings, n);
    var long := Collect(lines, LongLineFindings, n);
    var complexity := ComplexityFindings(BranchComplexity(lines));
    var catches := Collect(lines, EmptyCatchLineFindings, n);
    LocatedInAppend(fileSize, magic, lines);
    LocatedInAppend(fileSize + magic, long, lines);
    LocatedInAppend(fileSize + magic + long, complexity, lines);
    LocatedInAppend(fileSize + magic + long + complexity, idiom, lines);
    LocatedInAppend(fileSize + magic + long + complexity + idiom, catches, lines);
  }

  // ---------------------------------------------------------------------------
  // The values of the magic-number findings
  // ---------------------------------------------------------------------------

  /** Every magic-number finding names one of `lines` and carries a value the
      `exec` loop reports on that line. */
  predicate MagicFrom(fs: seq<Finding>, lines: seq<string>) {
    forall f <- fs :: f.kind.MagicNumber? ==>
      && f.lineNumber.Some? && 1 <= f.lineNumber.value <= |lines|
      && f.kind.value in MagicNumbers(lines[f.lineNumber.value - 1])
  }

  lemma MagicFromAppend(a: seq<Finding>, b: seq<Finding>, lines: seq<string>)
    requires MagicFrom(a, lines) && MagicFrom(b, lines)
    ensures MagicFrom(a + b, lines)
  {
    assert forall f <- a + b :: f in a || f in b;
  }

  lemma {:induction false} CollectMagicFrom(lines: seq<string>, rule: (string, nat) -> seq<Finding>, n: nat)
    requires n <= |lines|
    requires forall i | 0 <= i < n :: MagicFrom(rule(lines[i], i), lines)
    ensures MagicFrom(Collect(lines, rule, n), lines)
  {
    if n > 0 {
      CollectMagicFrom(lines, rule, n - 1);
      MagicFromAppend(Collect(lines, rule, n - 1), rule(lines[n - 1], n - 1), lines);
    }
  }

  /** Line i's magic-number findings carry, one by one, the values reported on it. */
  lemma MagicLineFrom(lines: seq<string>, i: nat)
    requires i < |lines|
    ensures MagicFrom(MagicLineFindings(lines[i], i), lines)
  {
    var fs := MagicLineFindings(lines[i], i);
    var values := MagicNumbers(lines[i]);
    forall f <- fs ensures f.lineNumber == Some(i + 1) && f.kind.value in values {
      var j :| 0 <= j < |fs| && fs[j] == f;
      assert fs[j] == At(MagicNumber(values[j]), lines[i], i);
    }
  }

  lemma OtherLineMagicFrom(lines: seq<string>, i: nat)
    requires i < |lines|
    ensures MagicFrom(LongLineFindings(lines[i], i), lines)
    ensures MagicFrom(IdiomLineFindings(lines[i], i), lines)
    ensures MagicFrom(EmptyCatchLineFindings(lines[i], i), lines)
  {
  }

  /** A magic-number finding in the report names a line of the code and
      carries a value the `exec` loop reports on that line. */
  lemma MagicValuesReported(code: string, language: string)
    ensures MagicFrom(Analyze(code, language).improvements, Lines(code))
  {
    var lines := Lines(code);
    var n := |lines|;
    forall i | 0 <= i < n
      ensures MagicFrom(MagicLineFindings(lines[i], i), lines)
      ensures MagicFrom(LongLineFindings(lines[i], i), lines)
      ensures MagicFrom(IdiomLineFindings(lines[i], i), lines)
      ensures MagicFrom(EmptyCatchLineFindings(lines[i], i), lines)
    {
      MagicLineFrom(lines, i);
      OtherLineMagicFrom(lines, i);
    }
    var fileSize := FileSizeFindings(n);
    var magic := Collect(lines, MagicLineFindings, n);
    var long := Collect(lines, LongLineFindings, n);
    var complexity := ComplexityFindings(BranchComplexity(lines));
    var idiom := IdiomFindings(code, language);
    var catches := Collect(lines, EmptyCatchLineFindings, n);
    CollectMagicFrom(lines, MagicLineFindings, n);
    CollectMagicFrom(lines, LongLineFindings, n);
    CollectMagicFrom(lines, EmptyCatchLineFindings, n);
    if IsJsLike(language) {
      CollectMagicFrom(lines, IdiomLineFindings, n);
      MagicFromAppend(Collect(lines, IdiomLineFindings, n), ConstLetFindings(code), lines);
    }
    MagicFromAppend(fileSize, magic, lines);
    MagicFromAppend(fileSize + magic, long, lines);
    MagicFromAppend(fileSize + magic + long, complexity, lines);
    MagicFromAppend(fileSize + magic + long + complexity, idiom, lines);
    MagicFromAppend(fileSize + magic + long + complexity + idiom, catches, lines);
  }

  /** So the value of every magic-number finding in the report is a number
      literal of two or more characters that occurs in the named line without
      an identifier character right before it. */
  lemma MagicValuesAreLiterals(code: string, language: string)
    ensures var lines := Lines(code);
      forall f <- Analyze(code, language).improvements | f.kind.MagicNumber? ::
        && f.lineNumber.Some? && 1 <= f.lineNumber.value <= |lines|
        && |f.kind.value| >= 2
        && OccursAsMagic(lines[f.lineNumber.value - 1], f.kind.value)
  {
    var lines := Lines(code);
    MagicValuesReported(code, language);
    forall f <- Analyze(code, language).improvements | f.kind.MagicNumber?
      ensures && f.lineNumber.Some? && 1 <= f.lineNumber.value <= |lines|
              && |f.kind.value| >= 2
              && OccursAsMagic(lines[f.lineNumber.value - 1], f.kind.value)
    {
      MagicNumbersAreLiterals(lines[f.lineNumber.value - 1], 0);
    }
  }

  // ---------------------------------------------------------------------------
  // The language gate
  // ---------------------------------------------------------------------------

  predicate IsIdiomKind(k: Kind) {
    k.VarUsage? || k.ConsoleLog? || k.NoConstLet?
  }

  predicate NoIdiom(fs: seq<Finding>) {
    forall f <- fs :: !IsIdiomKind(f.kind)
  }

  lemma NoIdiomAppend(a: seq<Finding>, b: seq<Finding>)
    requires NoIdiom(a) && NoIdiom(b)
    ensures NoIdiom(a + b)
  {
    assert forall f <- a + b :: f in a || f in b;
  }

  lemma {:induction false} CollectNoIdiom(lines: seq<string>, rule: (string, nat) -> seq<Finding>, n: nat)
    requires n <= |lines|
    requires forall i | 0 <= i < n :: NoIdiom(rule(lines[i], i))
    ensures NoIdiom(Collect(lines, rule, n))
  {
    if n > 0 {
      CollectNoIdiom(lines, rule, n - 1);
      NoIdiomAppend(Collect(lines, rule, n - 1), rule(lines[n - 1], n - 1));
    }
  }

  lemma LineNoIdiom(ln: string, i: nat)
    ensures NoIdiom(MagicLineFindings(ln, i))
    ensures NoIdiom(LongLineFindings(ln, i))
    ensures NoIdiom(EmptyCatchLineFindings(ln, i))
  {
  }

  /** Rules 1, 2, 3, 4 and 6 never push an idiom finding. */
  lemma OtherRulesNoIdiom(lines: seq<string>)
    ensures var n := |lines|;
      && NoIdiom(FileSizeFindings(n)) && NoIdiom(Collect(lines, MagicLineFindings, n))
      && NoIdiom(Collect(lines, LongLineFindings, n)) && NoIdiom(ComplexityFindings(BranchComplexity(lines)))
      && NoIdiom(Collect(lines, EmptyCatchLineFindings, n))
  {
    var n := |lines|;
    forall i | 0 <= i < n
      ensures NoIdiom(MagicLineFindings(lines[i], i))
      ensures NoIdiom(LongLineFindings(lines[i], i))
      ensures NoIdiom(EmptyCatchLineFindings(lines[i], i))
    {
      LineNoIdiom(lines[i], i);
    }
    CollectNoIdiom(lines, MagicLineFindings, n);
    CollectNoIdiom(lines, LongLineFindings, n);
    CollectNoIdiom(lines, EmptyCatchLineFindings, n);
  }

  /** Outside JavaScript-like languages (the empty language included) there is
      no idiom finding and no idiom deduction. */
  lemma LanguageGate(code: string, language: string)
    requires !IsJsLike(language)
    ensures IdiomPenalty(code, language) == 0
    ensures NoIdiom(Analyze(code, language).improvements)
  {
    var lines := Lines(code);
    var n := |lines|;
    var fileSize := FileSizeFindings(n);
    var magic := Collect(lines, MagicLineFindings, n);
    var long := Collect(lines, LongLineFindings, n);
    var complexity := ComplexityFindings(BranchComplexity(lines));
    var catches := Collect(lines, EmptyCatchLineFindings, n);
    assert AllFindings(code, language) == fileSize + magic + long + complexity + [] + catches;
    OtherRulesNoIdiom(lines);
    NoIdiomAppend(fileSize, magic);
    NoIdiomAppend(fileSize + magic, long);
    NoIdiomAppend(fileSize + magic + long, complexity);
    NoIdiomAppend(fileSize + magic + long + complexity + [], catches);
  }

  /** Inside JavaScript-like languages, code without a `const` or `let` word
      always gets the finding and its 4 points. */
  lemma NoConstLetReported(code: string, language: string)
    requires IsJsLike(language) && !HasConstOrLet(code)
    ensures Whole(NoConstLet) in Analyze(code, language).improvements
    ensures IdiomPenalty(code, language) >= 4
  {
    var lines := Lines(code);
    var n := |lines|;
    var before := FileSizeFindings(n) + Collect(lines, MagicLineFindings, n) + Collect(lines, LongLineFindings, n)
      + ComplexityFindings(BranchComplexity(lines));
    var idiom := IdiomFindings(code, language);
    assert idiom[|idiom| - 1] == Whole(NoConstLet);
    assert AllFindings(code, language) == before + idiom + Collect(lines, EmptyCatchLineFindings, n);
    assert AllFindings(code, language)[|before| + |idiom| - 1] == Whole(NoConstLet);
  }

  // ---------------------------------------------------------------------------
  // The empty text
  // ---------------------------------------------------------------------------

  /** The empty text is one empty line with nothing to find: outside
      JavaScript-like languages it scores the full 85, inside them it loses 4
      for having no `const` or `let`. */
  lemma EmptyCode(language: string)
    ensures var r := Analyze("", language);
      && r.score == (if IsJsLike(language) then 81 else 85)
      && r.summary == GoodSummary
      && r.improvements == (if IsJsLike(language) then [Whole(NoConstLet)] else [])
  {
    var lines := Lines("");
    assert lines == [""];
    assert MagicNumbers("") == [];
    assert BranchCount("") == 0;
    assert !HasVar("") && !HasConsoleLog("") && !HasConstOrLet("") && !HasEmptyCatch("");
    assert Collect(lines, MagicLineFindings, 1) == [];
    assert Collect(lines, LongLineFindings, 1) == [];
    assert Collect(lines, IdiomLineFindings, 1) == [];
    assert Collect(lines, EmptyCatchLineFindings, 1) == [];
    assert CountLines(lines, HasVar, 1) == 0 && CountLines(lines, HasEmptyCatch, 1) == 0;
    assert BranchComplexity(lines) == 1;
  }
}
